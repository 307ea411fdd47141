/**
 * The price service of BiPrice/CryptoAPIService.swift: the decoded shape of a
 * rates response, the classification of one request's outcome, and the batch
 * fold that collects several outcomes into a map keyed by lower-cased id.
 */
module CryptoApi {
  import opened Common
  import opened Text
  import opened Json

  const MinInt64: int := -0x8000_0000_0000_0000
  const MaxInt64: int := 0x7FFF_FFFF_FFFF_FFFF

  /** Swift's `Int` on the 64-bit platforms the app runs on. */
  newtype Int64 = x: int | MinInt64 <= x <= MaxInt64

  /** The `data` object of a rates response. Swift's `type` field is `assetType` here. */
  datatype CryptoData = CryptoData(
    id: string,
    symbol: string,
    currencySymbol: Option<string>,
    rateUsd: string,
    assetType: string)

  /** A whole rates response: the quote and the server's timestamp. */
  datatype CryptoResponse = CryptoResponse(data: CryptoData, timestamp: Int64)

  /** `APIError`; `InvalidResponse` is declared by the service but never produced. */
  datatype ApiError =
    | InvalidUrl
    | NoData
    | InvalidResponse
    | DecodingError
    | NetworkError(cause: NetError)

  /** `APIResult`, with the failure narrowed to the errors the service produces. */
  datatype ApiResult = Success(data: CryptoData) | Failure(error: ApiError)

  /** The fixed endpoint every request appends its currency identifier to. */
  const RatesEndpoint: string := "https://api.coincap.io/v2/rates/"

  function UrlFor(currency: string): string {
    RatesEndpoint + currency
  }

  /**
   * `CryptoData.price`: `Double(rateUsd)`. Decimal parsing is floating point and
   * is passed in as `parse`, which answers `None` for text that is not a number.
   */
  function Price(d: CryptoData, parse: string -> Option<real>): (r: Option<real>)
    ensures forall j :: DecodeCryptoData(j) == Some(d) ==> r == parse(StringMember(j, "rateUsd").value)
  {
    parse(d.rateUsd)
  }

  /** The key the batch fetch and the list view store a quote under: its lower-cased id. */
  function Key(d: CryptoData): string {
    Lower(d.id)
  }

  /**
   * Keys are lower case and stable: a key has its id's length, lower-casing it
   * again gives the same key, and an id already in lower case is its own key.
   */
  lemma KeyIsStable(d: CryptoData)
    ensures |Key(d)| == |d.id|
    ensures IsLowerCase(Key(d)) && Lower(Key(d)) == Key(d)
    ensures IsLowerCase(d.id) ==> Key(d) == d.id
  {
    LowerIdempotent(d.id);
    if IsLowerCase(d.id) {
      LowerOfLowerCase(d.id);
    }
  }

  // ---------------------------------------------------------------------------
  // The shape `JSONDecoder` accepts for `CryptoResponse`, stated on its own

  /** An optional member decodes when it is missing, `null`, or a string. */
  predicate OptionalStringMemberOk(j: Json, key: string) {
    j.JObject? && (key !in j.fields || j.fields[key] == JNull || j.fields[key].JString?)
  }

  predicate IsInt64Literal(j: Json) {
    j.JInt? && MinInt64 <= j.i <= MaxInt64
  }

  predicate IsCryptoDataShape(j: Json) {
    && StringMember(j, "id").Some?
    && StringMember(j, "symbol").Some?
    && StringMember(j, "rateUsd").Some?
    && StringMember(j, "type").Some?
    && OptionalStringMemberOk(j, "currencySymbol")
  }

  predicate IsResponseShape(j: Json) {
    && j.JObject?
    && "data" in j.fields
    && IsCryptoDataShape(j.fields["data"])
    && "timestamp" in j.fields
    && IsInt64Literal(j.fields["timestamp"])
  }

  /** `d` carries exactly the members of the JSON object `j`, letter case untouched. */
  predicate Mirrors(d: CryptoData, j: Json) {
    && StringMember(j, "id") == Some(d.id)
    && StringMember(j, "symbol") == Some(d.symbol)
    && StringMember(j, "rateUsd") == Some(d.rateUsd)
    && StringMember(j, "type") == Some(d.assetType)
    && StringMember(j, "currencySymbol") == d.currencySymbol
  }

  // ---------------------------------------------------------------------------
  // Decoding, member by member, as the synthesized `Codable` conformance does

  /** `decodeIfPresent(String.self, forKey:)`: missing or `null` is `nil`; any other non-string fails. */
  function DecodeOptionalString(j: Json, key: string): (r: Option<Option<string>>)
    ensures r.Some? <==> OptionalStringMemberOk(j, key)
    ensures r.Some? ==> r.value == StringMember(j, key)
  {
    if !j.JObject? then None
    else match Member(j, key)
      case None => Some(None)
      case Some(JNull) => Some(None)
      case Some(JString(s)) => Some(Some(s))
      case Some(_) => None
  }

  function DecodeInt64(j: Json): (r: Option<Int64>)
    ensures r.Some? <==> IsInt64Literal(j)
    ensures r.Some? ==> r.value as int == j.i
  {
    if j.JInt? && MinInt64 <= j.i <= MaxInt64 then Some(j.i as Int64) else None
  }

  function DecodeCryptoData(j: Json): (r: Option<CryptoData>)
    ensures r.Some? <==> IsCryptoDataShape(j)
    ensures r.Some? ==> Mirrors(r.value, j)
  {
    var id :- StringMember(j, "id");
    var symbol :- StringMember(j, "symbol");
    var currencySymbol :- DecodeOptionalString(j, "currencySymbol");
    var rateUsd :- StringMember(j, "rateUsd");
    var assetType :- StringMember(j, "type");
    Some(CryptoData(id, symbol, currencySymbol, rateUsd, assetType))
  }

  /** `JSONDecoder().decode(CryptoResponse.self, from:)` on a parsed document. */
  function DecodeResponse(j: Json): (r: Option<CryptoResponse>)
    ensures r.Some? <==> IsResponseShape(j)
    ensures r.Some? ==> Mirrors(r.value.data, j.fields["data"])
    ensures r.Some? ==> r.value.timestamp as int == j.fields["timestamp"].i
  {
    var dataJson :- Member(j, "data");
    var data :- DecodeCryptoData(dataJson);
    var timestampJson :- Member(j, "timestamp");
    var timestamp :- DecodeInt64(timestampJson);
    Some(CryptoResponse(data, timestamp))
  }

  /** Decoding raw bytes: bytes that are not JSON fail like a shape mismatch. */
  function DecodeBody(b: Body): (r: Option<CryptoResponse>)
    ensures r.Some? <==> b.Parsed? && IsResponseShape(b.json)
  {
    match b
    case NotJson => None
    case Parsed(j) => DecodeResponse(j)
  }

  // ---------------------------------------------------------------------------
  // Encoding, the inverse the round trip is stated against

  function EncodeCryptoData(d: CryptoData): Json {
    var required := map["id" := JString(d.id), "symbol" := JString(d.symbol),
                        "rateUsd" := JString(d.rateUsd), "type" := JString(d.assetType)];
    match d.currencySymbol
    case None => JObject(required)
    case Some(c) => JObject(required["currencySymbol" := JString(c)])
  }

  function EncodeResponse(r: CryptoResponse): Json {
    JObject(map["data" := EncodeCryptoData(r.data), "timestamp" := JInt(r.timestamp as int)])
  }

  /** Every response survives encoding and decoding unchanged, case and absent symbol included. */
  lemma DecodeEncodeRoundTrip(r: CryptoResponse)
    ensures DecodeResponse(EncodeResponse(r)) == Some(r)
  {
  }

  /** Replaces `data.rateUsd` of a well-shaped response by arbitrary text. */
  function WithRateText(j: Json, text: string): Json
    requires IsResponseShape(j)
  {
    var data := j.fields["data"];
    JObject(j.fields["data" := JObject(data.fields["rateUsd" := JString(text)])])
  }

  /**
   * Decoding never looks inside `rateUsd`: whatever its text, a well-shaped
   * response decodes, carries that text, and its price is whatever `parse` makes of it.
   */
  lemma DecodeAcceptsAnyRateText(j: Json, text: string, parse: string -> Option<real>)
    requires IsResponseShape(j)
    ensures DecodeResponse(WithRateText(j, text)).Some?
    ensures DecodeResponse(WithRateText(j, text)).value.data.rateUsd == text
    ensures DecodeResponse(WithRateText(j, text)).value.data.id == DecodeResponse(j).value.data.id
    ensures Price(DecodeResponse(WithRateText(j, text)).value.data, parse).None? <==> parse(text).None?
  {
  }

  // ---------------------------------------------------------------------------
  // One request: `fetchPrice(for:completion:)`

  /**
   * The result `fetchPrice` delivers for `currency`, given whether its URL can
   * be built and what the transfer produced. The checks run in a fixed order:
   * URL, transport error, missing body, decoding.
   */
  function Outcome(currency: string, buildable: string -> bool, reply: Reply): (r: ApiResult)
    ensures r == Failure(InvalidUrl) <==> !buildable(UrlFor(currency))
    ensures buildable(UrlFor(currency)) && reply.error.Some? ==> r == Failure(NetworkError(reply.error.value))
    ensures r == Failure(NoData) <==> buildable(UrlFor(currency)) && reply.error.None? && reply.data.None?
    ensures r == Failure(DecodingError) <==>
      buildable(UrlFor(currency)) && reply.error.None? && reply.data.Some? && DecodeBody(reply.data.value).None?
    ensures r.Success? <==>
      buildable(UrlFor(currency)) && reply.error.None? && reply.data.Some? && DecodeBody(reply.data.value).Some?
    ensures r.Success? ==> Mirrors(r.data, reply.data.value.json.fields["data"])
    ensures r != Failure(InvalidResponse)
  {
    if !buildable(UrlFor(currency)) then Failure(InvalidUrl)
    else if reply.error.Some? then Failure(NetworkError(reply.error.value))
    else if reply.data.None? then Failure(NoData)
    else match DecodeBody(reply.data.value)
      case None => Failure(DecodingError)
      case Some(response) => Success(response.data)
  }

  /**
   * The control flow of `fetchPrice`, recording each call of `completion`:
   * every path calls it exactly once, with the classified outcome.
   */
  method FetchPrice(currency: string, buildable: string -> bool, reply: Reply) returns (calls: seq<ApiResult>)
    ensures |calls| == 1
    ensures calls[0] == Outcome(currency, buildable, reply)
  {
    calls := [];
    if !buildable(UrlFor(currency)) {
      calls := calls + [Failure(InvalidUrl)];
      return;
    }
    // the data task's completion handler
    if reply.error.Some? {
      calls := calls + [Failure(NetworkError(reply.error.value))];
      return;
    }
    if reply.data.None? {
      calls := calls + [Failure(NoData)];
      return;
    }
    var decoded := DecodeBody(reply.data.value);
    if decoded.Some? {
      calls := calls + [Success(decoded.value.data)];
    } else {
      calls := calls + [Failure(DecodingError)];
    }
  }

  // ---------------------------------------------------------------------------
  // Several requests: `fetchPrices(for:completion:)`

  /** The lower-cased ids of the successful results in `rs`. */
  function SuccessKeys(rs: seq<ApiResult>): set<string> {
    set i | 0 <= i < |rs| && rs[i].Success? :: Key(rs[i].data)
  }

  /**
   * Applying completions in the order they arrive: a success stores its quote
   * under its lower-cased id, overwriting an earlier one; a failure only logs.
   */
  function Accumulate(rs: seq<ApiResult>): (m: map<string, CryptoData>)
    ensures m.Keys == SuccessKeys(rs)
    ensures |m| <= |rs|
    ensures forall k :: k in m ==> Key(m[k]) == k
    decreases |rs|
  {
    if |rs| == 0 then map[]
    else
      var prefix := rs[..|rs| - 1];
      var last := rs[|rs| - 1];
      var m := Accumulate(prefix);
      SuccessKeysSnoc(rs);
      if last.Success? then m[Key(last.data) := last.data] else m
  }

  /** The success keys of a sequence are those of its prefix plus the last result's, if it succeeded. */
  lemma SuccessKeysSnoc(rs: seq<ApiResult>)
    requires |rs| > 0
    ensures SuccessKeys(rs) == SuccessKeys(rs[..|rs| - 1]) + (if rs[|rs| - 1].Success? then {Key(rs[|rs| - 1].data)} else {})
  {
    var prefix := rs[..|rs| - 1];
    assert forall i :: 0 <= i < |prefix| ==> prefix[i] == rs[i];
  }

  /**
   * The quote stored under a key is that of the last success with that key:
   * if no later success carries the same key with different data, `rs[k]` is what remains.
   */
  lemma {:induction false} AccumulateLastWins(rs: seq<ApiResult>, k: nat)
    requires k < |rs| && rs[k].Success?
    requires forall l :: k < l < |rs| && rs[l].Success? && Key(rs[l].data) == Key(rs[k].data) ==> rs[l].data == rs[k].data
    ensures Key(rs[k].data) in Accumulate(rs)
    ensures Accumulate(rs)[Key(rs[k].data)] == rs[k].data
    decreases |rs|
  {
    var prefix := rs[..|rs| - 1];
    var last := rs[|rs| - 1];
    if k < |rs| - 1 {
      AccumulateLastWins(prefix, k);
    }
  }

  /** `order` lists every request index below `n` once, in completion order. */
  predicate IsCompletionOrder(order: seq<nat>, n: nat) {
    && |order| == n
    && (forall k :: 0 <= k < |order| ==> order[k] < n)
    && (forall i :: 0 <= i < n ==> i in order)
  }

  /** The outcomes of the requests, in the order their completions ran. */
  function InCompletionOrder(outcomes: seq<ApiResult>, order: seq<nat>): (rs: seq<ApiResult>)
    requires IsCompletionOrder(order, |outcomes|)
    ensures |rs| == |outcomes|
    ensures forall k :: 0 <= k < |rs| ==> rs[k] == outcomes[order[k]]
  {
    seq(|order|, k requires 0 <= k < |order| => outcomes[order[k]])
  }

  /**
   * `fetchPrices`: `outcomes[i]` is what `fetchPrice` delivered for the i-th
   * currency and `order` the order the completions ran in. The map handed to the
   * caller is keyed by exactly the lower-cased ids of the successes, has no more
   * entries than there were currencies, and no error reaches it.
   */
  function FetchPrices(outcomes: seq<ApiResult>, order: seq<nat>): (m: map<string, CryptoData>)
    requires IsCompletionOrder(order, |outcomes|)
    ensures m.Keys == SuccessKeys(outcomes)
    ensures |m| <= |outcomes|
    ensures forall k :: k in m ==> Key(m[k]) == k
  {
    var rs := InCompletionOrder(outcomes, order);
    assert SuccessKeys(rs) == SuccessKeys(outcomes) by {
      forall key | key in SuccessKeys(outcomes) ensures key in SuccessKeys(rs) {
        var i :| 0 <= i < |outcomes| && outcomes[i].Success? && Key(outcomes[i].data) == key;
        assert i in order;
        var k :| 0 <= k < |order| && order[k] == i;
        assert rs[k] == outcomes[i];
      }
    }
    Accumulate(rs)
  }

  /**
   * When the successes have pairwise different lower-cased ids, the completion
   * order does not matter: every success is in the map under its own key.
   */
  lemma FetchPricesOrderIrrelevant(outcomes: seq<ApiResult>, order: seq<nat>, i: nat)
    requires IsCompletionOrder(order, |outcomes|)
    requires i < |outcomes| && outcomes[i].Success?
    requires forall j :: 0 <= j < |outcomes| && j != i && outcomes[j].Success? ==> Key(outcomes[j].data) != Key(outcomes[i].data)
    ensures FetchPrices(outcomes, order)[Key(outcomes[i].data)] == outcomes[i].data
  {
    var rs := InCompletionOrder(outcomes, order);
    assert i in order;
    var k :| 0 <= k < |order| && order[k] == i;
    AccumulateLastWins(rs, k);
  }

  /** A batch in which one request fails yields exactly the other requests' quotes. */
  lemma FailedRequestAddsNoKey(outcomes: seq<ApiResult>, order: seq<nat>, i: nat)
    requires IsCompletionOrder(order, |outcomes|)
    requires i < |outcomes| && outcomes[i].Failure?
    ensures FetchPrices(outcomes, order).Keys == SuccessKeys(outcomes[..i] + outcomes[i + 1..])
  {
    var rest := outcomes[..i] + outcomes[i + 1..];
    forall key ensures key in SuccessKeys(outcomes) <==> key in SuccessKeys(rest) {
      if key in SuccessKeys(outcomes) {
        var j :| 0 <= j < |outcomes| && outcomes[j].Success? && Key(outcomes[j].data) == key;
        if j < i { assert rest[j] == outcomes[j]; } else { assert rest[j - 1] == outcomes[j]; }
      }
      if key in SuccessKeys(rest) {
        var j :| 0 <= j < |rest| && rest[j].Success? && Key(rest[j].data) == key;
        if j < i { assert rest[j] == outcomes[j]; } else { assert rest[j] == outcomes[j + 1]; }
      }
    }
  }
}
