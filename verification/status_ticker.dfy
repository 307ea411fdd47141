/**
 * The status-bar ticker of BiPrice/AppDelegate.swift: a cursor that walks the
 * fixed currency list one request per timer tick, and a title that changes only
 * when a reply carries a usable symbol and rate.
 */
module StatusTicker {
  import opened Common
  import opened Json
  import CryptoApi

  /** `allCurrencies`, in request order. */
  const AllCurrencies: seq<string> := ["bitcoin", "mask", "ethereum", "dogecoin", "litecoin"]

  /** The status item's title: "Loading..." until a quote arrives, then "<symbol>: $<rate>". */
  datatype Title = Loading | Quote(symbol: string, rate: real)

  /** The app delegate's state: `allCurrencies`, `currentCurrencyIndex` and the status title. */
  datatype Ticker = Ticker(currencies: seq<string>, index: int, title: Title)

  predicate Valid(t: Ticker) {
    0 <= t.index < |t.currencies|
  }

  /** The state right after launch. */
  const Launched: Ticker := Ticker(AllCurrencies, 0, Loading)

  /** What one timer tick leaves behind: the new state and the currency requested, if any. */
  datatype Tick = Tick(next: Ticker, requested: Option<string>)

  /**
   * `fetchBitcoinPrice()` up to `task.resume()`: request the currency under the
   * cursor and advance the cursor, unless its URL cannot be built, in which case
   * nothing happens. The advance does not wait for the reply.
   */
  function FetchTick(t: Ticker, buildable: string -> bool): (r: Tick)
    requires Valid(t)
    ensures Valid(r.next)
    ensures r.next.currencies == t.currencies && r.next.title == t.title
    ensures r.requested.Some? <==> buildable(CryptoApi.UrlFor(t.currencies[t.index]))
    ensures r.requested.Some? ==> r.requested.value == t.currencies[t.index]
    ensures r.requested.Some? ==> r.next.index == (t.index + 1) % |t.currencies|
    ensures r.requested.None? ==> r.next == t
  {
    var currency := t.currencies[t.index];
    if !buildable(CryptoApi.UrlFor(currency)) then Tick(t, None)
    else Tick(t.(index := (t.index + 1) % |t.currencies|), Some(currency))
  }

  /** `n` timer ticks in a row: the final state and the currencies requested, in order. */
  function Run(t: Ticker, n: nat, buildable: string -> bool): (r: (Ticker, seq<string>))
    requires Valid(t)
    ensures Valid(r.0)
    ensures r.0.currencies == t.currencies && r.0.title == t.title
    ensures |r.1| <= n
    decreases n
  {
    if n == 0 then (t, [])
    else
      var step := FetchTick(t, buildable);
      var rest := Run(step.next, n - 1, buildable);
      (rest.0, (if step.requested.Some? then [step.requested.value] else []) + rest.1)
  }

  predicate AllUrlsBuildable(currencies: seq<string>, buildable: string -> bool) {
    forall i :: 0 <= i < |currencies| ==> buildable(CryptoApi.UrlFor(currencies[i]))
  }

  /**
   * With every URL buildable, the k-th tick requests the currency k places past
   * the cursor, and the cursor ends `n` places further on, modulo the list length.
   */
  lemma {:induction false} RunIsRoundRobin(t: Ticker, n: nat, buildable: string -> bool)
    requires Valid(t)
    requires AllUrlsBuildable(t.currencies, buildable)
    ensures |Run(t, n, buildable).1| == n
    ensures forall k :: 0 <= k < n ==> Run(t, n, buildable).1[k] == t.currencies[(t.index + k) % |t.currencies|]
    ensures Run(t, n, buildable).0.index == (t.index + n) % |t.currencies|
    decreases n
  {
    if n > 0 {
      var next := t.(index := (t.index + 1) % |t.currencies|);
      assert FetchTick(t, buildable) == Tick(next, Some(t.currencies[t.index]));
      var tail := Run(next, n - 1, buildable);
      assert Run(t, n, buildable) == (tail.0, [t.currencies[t.index]] + tail.1);
      RunIsRoundRobin(next, n - 1, buildable);
      RoundRobinStep(t.currencies, t.index, n, [t.currencies[t.index]] + tail.1, tail.1);
      ShiftMod(|t.currencies|, t.index, n - 1);
    }
  }

  /** Prepending the cursor's currency to the rotation from the next cursor is the rotation from the cursor. */
  lemma RoundRobinStep(cs: seq<string>, i: int, n: nat, r: seq<string>, rest: seq<string>)
    requires 0 <= i < |cs| && n > 0
    requires |rest| == n - 1
    requires forall k :: 0 <= k < n - 1 ==> rest[k] == cs[((i + 1) % |cs| + k) % |cs|]
    requires r == [cs[i]] + rest
    ensures forall k :: 0 <= k < n ==> r[k] == cs[(i + k) % |cs|]
  {
    forall k | 0 < k < n
      ensures r[k] == cs[(i + k) % |cs|]
    {
      assert r[k] == rest[k - 1];
      ShiftMod(|cs|, i, k - 1);
    }
  }

  /** One step of the cursor followed by `j` more lands where `j + 1` steps from the start do. */
  lemma ShiftMod(m: int, i: int, j: nat)
    requires 0 <= i < m
    ensures ((i + 1) % m + j) % m == (i + j + 1) % m
  {
    if i + 1 < m {
      ModOfSmall(i + 1, m);
    } else {
      ModOfSmall(0, m);
      assert (i + 1) % m == 0 by { ModUnique(m, m, 1, 0); }
      ModUnique(j + m, m, j / m + 1, j % m);
    }
  }

  lemma ModOfSmall(a: int, m: int)
    requires 0 <= a < m
    ensures a % m == a
  {
    ModUnique(a, m, 0, a);
  }

  /** The remainder is the only `r` in `[0, m)` with `a == q * m + r`. */
  lemma ModUnique(a: int, m: int, q: int, r: int)
    requires m > 0 && 0 <= r < m && a == q * m + r
    ensures a % m == r
  {
    var q', r' := a / m, a % m;
    assert a == q' * m + r';
    assert (q - q') * m == r' - r;
    if q > q' {
      assert (q - q') * m >= m by { MulAtLeast(q - q', m); }
    } else if q < q' {
      assert (q' - q) * m >= m by { MulAtLeast(q' - q, m); }
    }
  }

  lemma MulAtLeast(k: int, m: int)
    requires k >= 1 && m > 0
    ensures k * m >= m
  {
  }

  /** From launch the k-th request is `allCurrencies[k % 5]`. */
  lemma RequestsFromLaunch(n: nat, buildable: string -> bool, k: nat)
    requires AllUrlsBuildable(AllCurrencies, buildable)
    requires k < n
    ensures |Run(Launched, n, buildable).1| == n
    ensures Run(Launched, n, buildable).1[k] == AllCurrencies[k % |AllCurrencies|]
  {
    RunIsRoundRobin(Launched, n, buildable);
  }

  /** Requests from launch repeat with period five. */
  lemma RequestsRepeatFromLaunch(n: nat, buildable: string -> bool, k: nat)
    requires AllUrlsBuildable(AllCurrencies, buildable)
    requires k + |AllCurrencies| < n
    ensures |Run(Launched, n, buildable).1| == n
    ensures Run(Launched, n, buildable).1[k + |AllCurrencies|] == Run(Launched, n, buildable).1[k]
  {
    RunIsRoundRobin(Launched, n, buildable);
    assert |AllCurrencies| == 5;
    assert (k + 5) % 5 == k % 5;
  }

  /** A currency whose URL cannot be built halts the rotation: the cursor never moves again. */
  lemma {:induction false} UnbuildableUrlStopsRotation(t: Ticker, n: nat, buildable: string -> bool)
    requires Valid(t)
    requires !buildable(CryptoApi.UrlFor(t.currencies[t.index]))
    ensures Run(t, n, buildable) == (t, [])
    decreases n
  {
    if n > 0 {
      UnbuildableUrlStopsRotation(t, n - 1, buildable);
    }
  }

  /**
   * The checks of the reply handler, stated on their own: no transfer error,
   * a JSON object whose `data` member is an object with string `symbol` and
   * `rateUsd`, and a rate that parses.
   */
  predicate CarriesQuote(reply: Reply, parse: string -> Option<real>) {
    && reply.error.None?
    && reply.data.Some?
    && reply.data.value.Parsed?
    && var top := reply.data.value.json;
       && Member(top, "data").Some?
       && StringMember(top.fields["data"], "symbol").Some?
       && StringMember(top.fields["data"], "rateUsd").Some?
       && parse(StringMember(top.fields["data"], "rateUsd").value).Some?
  }

  /** The handler's chain of optional casts, all or nothing. */
  function ExtractQuote(reply: Reply, parse: string -> Option<real>): (r: Option<Title>)
    ensures r.Some? <==> CarriesQuote(reply, parse)
    ensures r.Some? ==> r.value.Quote?
  {
    if reply.error.Some? || reply.data.None? || reply.data.value.NotJson? then None
    else
      var data :- Member(reply.data.value.json, "data");
      var symbol :- StringMember(data, "symbol");
      var rateText :- StringMember(data, "rateUsd");
      var rate :- parse(rateText);
      Some(Quote(symbol, rate))
  }

  /**
   * The data task's completion handler: the title becomes the quote when the
   * reply carries one and is otherwise left as it was; the cursor is never touched.
   */
  function OnReply(t: Ticker, reply: Reply, parse: string -> Option<real>): (r: Ticker)
    ensures r.currencies == t.currencies && r.index == t.index
    ensures !CarriesQuote(reply, parse) ==> r.title == t.title
    ensures CarriesQuote(reply, parse) ==>
      var data := reply.data.value.json.fields["data"];
      r.title == Quote(StringMember(data, "symbol").value, parse(StringMember(data, "rateUsd").value).value)
  {
    match ExtractQuote(reply, parse)
    case Some(q) => t.(title := q)
    case None => t
  }

  /** Whenever the price service would deliver a quote with a price, the ticker shows that quote. */
  lemma ServiceQuoteReachesTitle(t: Ticker, currency: string, buildable: string -> bool, reply: Reply, parse: string -> Option<real>)
    requires CryptoApi.Outcome(currency, buildable, reply).Success?
    requires CryptoApi.Price(CryptoApi.Outcome(currency, buildable, reply).data, parse).Some?
    ensures OnReply(t, reply, parse).title == Quote(
      CryptoApi.Outcome(currency, buildable, reply).data.symbol,
      CryptoApi.Price(CryptoApi.Outcome(currency, buildable, reply).data, parse).value)
  {
  }

  /**
   * The ticker is laxer than the service: every reply that carries a quote but
   * lacks the full response shape (no `id`, `type` or integer `timestamp`, say)
   * sets the title, although the service reports a decoding error for it.
   */
  lemma TickerAcceptsWhatServiceRejects(t: Ticker, currency: string, buildable: string -> bool,
                                        reply: Reply, parse: string -> Option<real>)
    requires buildable(CryptoApi.UrlFor(currency))
    requires CarriesQuote(reply, parse)
    requires !CryptoApi.IsResponseShape(reply.data.value.json)
    ensures OnReply(t, reply, parse).title.Quote?
    ensures CryptoApi.Outcome(currency, buildable, reply) == CryptoApi.Failure(CryptoApi.DecodingError)
  {
  }

  /** Such replies exist: one with only `symbol` and `rateUsd` in `data`. */
  lemma SymbolAndRateOnlyReply(parse: string -> Option<real>)
    requires parse("65000.5").Some?
    ensures
      var reply := Reply(None, Some(Parsed(JObject(map["data" := JObject(map["symbol" := JString("BTC"), "rateUsd" := JString("65000.5")])]))));
      CarriesQuote(reply, parse) && !CryptoApi.IsResponseShape(reply.data.value.json)
  {
  }
}
