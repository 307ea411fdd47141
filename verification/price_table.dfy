/**
 * The list window of BiPrice/ViewController.swift: the quote cache kept per
 * lower-cased currency id, the completion and notification handlers that
 * write it, and the flattened row index of the grouped table.
 */
module PriceTable {
  import opened Common
  import opened Text
  import opened CryptoApi
  import StatusTicker

  /** `groups`: the table's single section. */
  const Groups: seq<string> := ["Cryptocurrencies"]

  /**
   * The view controller's model: `items[g]` labels the rows of group `g`,
   * `cryptoData` and `lastUpdateTime` are the cache. Times are the clock value
   * the handler read, passed in.
   */
  datatype Table = Table(items: seq<seq<string>>, cryptoData: map<string, CryptoData>, lastUpdateTime: map<string, int>)

  /** The declared initial state: one empty group of labels and an empty cache. */
  const Loaded: Table := Table([[]], map[], map[])

  /** Row labels for a list of currency identifiers: `allCurrencies.map { $0.capitalized }`. */
  function Labels(currencies: seq<string>): (labels: seq<string>)
    ensures |labels| == |currencies|
    ensures forall i :: 0 <= i < |labels| ==> labels[i] == Capitalize(currencies[i])
  {
    seq(|currencies|, i requires 0 <= i < |currencies| => Capitalize(currencies[i]))
  }

  // ---------------------------------------------------------------------------
  // Writing the cache

  /**
   * `updateCryptoCurrencies()` up to the requests it issues: relabel group 0
   * from the delegate's currency list and request every currency in order.
   * `delegate` is `None` when the application delegate is not an `AppDelegate`,
   * in which case nothing happens.
   */
  function UpdateCryptoCurrencies(tbl: Table, delegate: Option<seq<string>>): (r: (Table, seq<string>))
    requires |tbl.items| >= 1
    ensures |r.0.items| == |tbl.items| && r.0.items[1..] == tbl.items[1..]
    ensures delegate.None? ==> r == (tbl, [])
    ensures delegate.Some? ==> r.1 == delegate.value
    ensures delegate.Some? ==> |r.0.items[0]| == |delegate.value|
    ensures delegate.Some? ==> forall i :: 0 <= i < |delegate.value| ==> r.0.items[0][i] == Capitalize(delegate.value[i])
    ensures r.0.cryptoData == tbl.cryptoData && r.0.lastUpdateTime == tbl.lastUpdateTime
  {
    match delegate
    case None => (tbl, [])
    case Some(currencies) => (tbl.(items := tbl.items[0 := Labels(currencies)]), currencies)
  }

  /**
   * One request's completion on the main queue. A success caches the quote and
   * the time under the quote's lower-cased id; a failure drops the cached quote
   * of the requested currency but keeps its last update time.
   */
  function Complete(tbl: Table, currency: string, result: ApiResult, now: int): (r: Table)
    ensures r.items == tbl.items
    ensures result.Success? ==>
      && Lookup(r.cryptoData, Key(result.data)) == Some(result.data)
      && Lookup(r.lastUpdateTime, Key(result.data)) == Some(now)
      && (forall k :: k != Key(result.data) ==> Lookup(r.cryptoData, k) == Lookup(tbl.cryptoData, k))
      && (forall k :: k != Key(result.data) ==> Lookup(r.lastUpdateTime, k) == Lookup(tbl.lastUpdateTime, k))
    ensures result.Failure? ==>
      && currency !in r.cryptoData
      && (forall k :: k != currency ==> Lookup(r.cryptoData, k) == Lookup(tbl.cryptoData, k))
      && r.lastUpdateTime == tbl.lastUpdateTime
  {
    match result
    case Success(data) =>
      tbl.(cryptoData := tbl.cryptoData[Key(data) := data],
           lastUpdateTime := tbl.lastUpdateTime[Key(data) := now])
    case Failure(_) =>
      tbl.(cryptoData := tbl.cryptoData - {currency})
  }

  /** A completion as it reaches the main queue: the requested currency, the result, the clock. */
  datatype Completion = Completion(currency: string, result: ApiResult, at: int)

  /**
   * Completions applied in the order they ran. Labels never change; an update
   * time is recorded under every successful key and never dropped; a quote is
   * only ever cached under a key that was cached before or that a success carried.
   */
  function ApplyAll(tbl: Table, cs: seq<Completion>): (r: Table)
    ensures r.items == tbl.items
    ensures r.lastUpdateTime.Keys == tbl.lastUpdateTime.Keys + SuccessKeys(Results(cs))
    ensures r.cryptoData.Keys <= tbl.cryptoData.Keys + SuccessKeys(Results(cs))
    decreases |cs|
  {
    if |cs| == 0 then tbl
    else
      var prefix := cs[..|cs| - 1];
      var last := cs[|cs| - 1];
      assert Results(cs)[..|cs| - 1] == Results(prefix);
      SuccessKeysSnoc(Results(cs));
      Complete(ApplyAll(tbl, prefix), last.currency, last.result, last.at)
  }

  function Results(cs: seq<Completion>): (rs: seq<ApiResult>)
    ensures |rs| == |cs|
    ensures forall i :: 0 <= i < |cs| ==> rs[i] == cs[i].result
  {
    seq(|cs|, i requires 0 <= i < |cs| => cs[i].result)
  }

  /**
   * When every request succeeds, the window's cache ends up exactly as the
   * batch fetch's result laid over the previous cache: both key by lower-cased
   * id and let the last completion win.
   */
  lemma {:induction false} SuccessfulCompletionsMatchBatch(tbl: Table, cs: seq<Completion>)
    requires forall i :: 0 <= i < |cs| ==> cs[i].result.Success?
    ensures ApplyAll(tbl, cs).cryptoData == tbl.cryptoData + Accumulate(Results(cs))
    decreases |cs|
  {
    if |cs| > 0 {
      var prefix := cs[..|cs| - 1];
      var data := cs[|cs| - 1].result.data;
      SuccessfulCompletionsMatchBatch(tbl, prefix);
      assert Results(cs)[..|cs| - 1] == Results(prefix);
      OverlayUpdate(tbl.cryptoData, Accumulate(Results(prefix)), Key(data), data);
    }
  }

  /** Updating a key after laying one map over another is updating the upper map. */
  lemma OverlayUpdate<K, V>(base: map<K, V>, top: map<K, V>, k: K, v: V)
    ensures (base + top)[k := v] == base + top[k := v]
  {
  }

  /**
   * A failure after a success for the same currency leaves no quote behind,
   * only the time of the earlier success.
   */
  lemma FailureClearsEarlierQuote(tbl: Table, data: CryptoData, error: ApiError, t1: int, t2: int)
    ensures
      var r := Complete(Complete(tbl, Key(data), Success(data), t1), Key(data), Failure(error), t2);
      && Key(data) !in r.cryptoData
      && Lookup(r.lastUpdateTime, Key(data)) == Some(t1)
  {
  }

  /** A value in a notification's `userInfo`, as far as the handler's casts can tell. */
  datatype UserValue = UString(s: string) | UDouble(d: real) | UOther

  /** The handler's guard: `symbol`, `id`, `type` strings and `price` a double. */
  predicate IsCompleteNotice(userInfo: Option<map<string, UserValue>>) {
    && userInfo.Some?
    && "symbol" in userInfo.value && userInfo.value["symbol"].UString?
    && "price" in userInfo.value && userInfo.value["price"].UDouble?
    && "id" in userInfo.value && userInfo.value["id"].UString?
    && "type" in userInfo.value && userInfo.value["type"].UString?
  }

  /**
   * `handlePriceUpdate(_:)`: a complete notice caches a quote rebuilt from it
   * under its `symbol` (not under the lower-cased id); anything else is ignored.
   * `describe` renders the double back to text, as `String(price)` does.
   */
  function HandlePriceUpdate(tbl: Table, userInfo: Option<map<string, UserValue>>, now: int, describe: real -> string): (r: Table)
    ensures !IsCompleteNotice(userInfo) ==> r == tbl
    ensures IsCompleteNotice(userInfo) ==>
      var info := userInfo.value;
      var symbol := info["symbol"].s;
      && r.items == tbl.items
      && Lookup(r.cryptoData, symbol) == Some(CryptoData(info["id"].s, symbol, None, describe(info["price"].d), info["type"].s))
      && Lookup(r.lastUpdateTime, symbol) == Some(now)
      && (forall k :: k != symbol ==> Lookup(r.cryptoData, k) == Lookup(tbl.cryptoData, k))
      && (forall k :: k != symbol ==> Lookup(r.lastUpdateTime, k) == Lookup(tbl.lastUpdateTime, k))
  {
    match userInfo
    case None => tbl
    case Some(info) =>
      if !IsCompleteNotice(userInfo) then tbl
      else
        var symbol := info["symbol"].s;
        var data := CryptoData(info["id"].s, symbol, None, describe(info["price"].d), info["type"].s);
        tbl.(cryptoData := tbl.cryptoData[symbol := data],
             lastUpdateTime := tbl.lastUpdateTime[symbol := now])
  }

  // ---------------------------------------------------------------------------
  // Reading the cache

  /** The price column's content for an item row. */
  datatype Cell =
    | Blank
    | Heading(text: string)
    | Label(text: string)
    | PriceLine(price: real, updated: Option<int>, assetType: string, id: string)
    | FailedToFetch

  /**
   * The price column of the row labelled `name`: the quote cached under the
   * lower-cased label with its parsed price and update time, or "Failed to fetch"
   * when no quote is cached or its rate does not parse.
   */
  function PriceCell(tbl: Table, name: string, parse: string -> Option<real>): (c: Cell)
    ensures c.PriceLine? || c.FailedToFetch?
    ensures c.FailedToFetch? <==> Lower(name) !in tbl.cryptoData || Price(tbl.cryptoData[Lower(name)], parse).None?
    ensures c.PriceLine? ==>
      var data := tbl.cryptoData[Lower(name)];
      && c.price == Price(data, parse).value
      && c.updated == Lookup(tbl.lastUpdateTime, Lower(name))
      && c.assetType == data.assetType && c.id == data.id
  {
    var key := Lower(name);
    if key in tbl.cryptoData && Price(tbl.cryptoData[key], parse).Some? then
      var data := tbl.cryptoData[key];
      PriceLine(Price(data, parse).value, Lookup(tbl.lastUpdateTime, key), data.assetType, data.id)
    else FailedToFetch
  }

  /** Every tracked identifier is lower case, so it is its own cache key. */
  lemma AllCurrenciesLowerCase()
    ensures forall i :: 0 <= i < |StatusTicker.AllCurrencies| ==> IsLowerCase(StatusTicker.AllCurrencies[i])
  {
  }

  /** The labels the window shows for the tracked currencies. */
  predicate ShowsTrackedCurrencies(tbl: Table) {
    |tbl.items| >= 1 && tbl.items[0] == Labels(StatusTicker.AllCurrencies)
  }

  /** After a refresh, row label `i` lower-cases back to `allCurrencies[i]`, the key fetches write. */
  lemma RefreshedLabelsReadFetchKeys(tbl: Table, i: nat)
    requires |tbl.items| >= 1
    requires i < |StatusTicker.AllCurrencies|
    ensures ShowsTrackedCurrencies(UpdateCryptoCurrencies(tbl, Some(StatusTicker.AllCurrencies)).0)
    ensures Lower(UpdateCryptoCurrencies(tbl, Some(StatusTicker.AllCurrencies)).0.items[0][i]) == StatusTicker.AllCurrencies[i]
  {
    AllCurrenciesLowerCase();
    LowerCapitalizeRoundTrip(StatusTicker.AllCurrencies[i]);
  }

  /**
   * `viewDidLoad`'s refresh of the declared initial state: the group shows the
   * five tracked currencies, every one of them is requested in order, and the
   * cache is still empty until the first completion.
   */
  lemma LaunchShowsTrackedCurrencies()
    ensures var r := UpdateCryptoCurrencies(Loaded, Some(StatusTicker.AllCurrencies));
      && ShowsTrackedCurrencies(r.0)
      && |r.0.items| == 1
      && r.1 == StatusTicker.AllCurrencies
      && r.0.cryptoData == map[] && r.0.lastUpdateTime == map[]
  {
  }

  /** A failed request for a tracked currency turns its row into "Failed to fetch", whatever was cached. */
  lemma FailedFetchShowsFailure(tbl: Table, i: nat, error: ApiError, now: int, parse: string -> Option<real>)
    requires ShowsTrackedCurrencies(tbl)
    requires i < |StatusTicker.AllCurrencies|
    ensures
      var r := Complete(tbl, StatusTicker.AllCurrencies[i], Failure(error), now);
      PriceCell(r, r.items[0][i], parse) == FailedToFetch
  {
    AllCurrenciesLowerCase();
    LowerCapitalizeRoundTrip(StatusTicker.AllCurrencies[i]);
  }

  /**
   * A successful request whose quote id lower-cases to a tracked currency shows
   * that quote's price and the completion time on the currency's row.
   */
  lemma SuccessfulFetchShowsPrice(tbl: Table, i: nat, data: CryptoData, now: int, parse: string -> Option<real>)
    requires ShowsTrackedCurrencies(tbl)
    requires i < |StatusTicker.AllCurrencies|
    requires Key(data) == StatusTicker.AllCurrencies[i]
    requires Price(data, parse).Some?
    ensures
      var r := Complete(tbl, StatusTicker.AllCurrencies[i], Success(data), now);
      PriceCell(r, r.items[0][i], parse) == PriceLine(Price(data, parse).value, Some(now), data.assetType, data.id)
  {
    AllCurrenciesLowerCase();
    LowerCapitalizeRoundTrip(StatusTicker.AllCurrencies[i]);
  }

  /**
   * A notice whose symbol has an upper-case letter (as tickers such as "BTC" do)
   * is stored under a key no row label lower-cases to, so no row changes.
   */
  lemma UpperCaseSymbolNoticeNeverShown(tbl: Table, userInfo: Option<map<string, UserValue>>, now: int,
                                        describe: real -> string, name: string, parse: string -> Option<real>)
    requires IsCompleteNotice(userInfo)
    requires !IsLowerCase(userInfo.value["symbol"].s)
    ensures PriceCell(HandlePriceUpdate(tbl, userInfo, now, describe), name, parse) == PriceCell(tbl, name, parse)
  {
  }

  // ---------------------------------------------------------------------------
  // The flattened row index

  /** `items.reduce(0) { $0 + $1.count }`, folded from the left. */
  function SumLengths(items: seq<seq<string>>): nat
    decreases |items|
  {
    if |items| == 0 then 0 else SumLengths(items[..|items| - 1]) + |items[|items| - 1]|
  }

  /**
   * `numberOfRows(in:)`: one header row per group plus one row per item, so the
   * count ends exactly where a header after the last group would start.
   */
  function NumberOfRows(groups: seq<string>, items: seq<seq<string>>): (n: nat)
    ensures n >= |groups|
    ensures |items| == |groups| ==> n == Offset(items, |items|)
  {
    OffsetIsPrefixCount(items, |items|);
    assert items[..|items|] == items;
    |groups| + SumLengths(items)
  }

  /** The row of group `g`'s header: every earlier group takes its header and its items. */
  function Offset(items: seq<seq<string>>, g: nat): int
    requires g <= |items|
    decreases g
  {
    if g == 0 then 0 else Offset(items, g - 1) + 1 + |items[g - 1]|
  }

  /** Header rows move strictly down the table, each group's items lying between two headers. */
  lemma {:induction false} OffsetGrows(items: seq<seq<string>>, a: nat, b: nat)
    requires a <= b <= |items|
    ensures Offset(items, a) <= Offset(items, b)
    ensures a < b ==> Offset(items, a) + 1 + |items[a]| <= Offset(items, b)
    decreases b - a
  {
    if a < b - 1 {
      OffsetGrows(items, a, b - 1);
    }
  }

  /** The header row of group `g` is preceded by `g` headers and all items of earlier groups. */
  lemma {:induction false} OffsetIsPrefixCount(items: seq<seq<string>>, g: nat)
    requires g <= |items|
    ensures Offset(items, g) == g + SumLengths(items[..g])
    decreases g
  {
    if g > 0 {
      OffsetIsPrefixCount(items, g - 1);
      assert items[..g][..g - 1] == items[..g - 1];
    }
  }

  /** Whether `row` is the header row of one of the groups. */
  ghost predicate IsHeaderRow(groups: seq<string>, items: seq<seq<string>>, row: int)
    requires |items| >= |groups|
  {
    exists g :: 0 <= g < |groups| && Offset(items, g) == row
  }

  /** With the single group, the header is row 0 and only row 0. */
  lemma SingleGroupHeaderIsRowZero(items: seq<seq<string>>, row: int)
    requires |items| >= |Groups|
    ensures IsHeaderRow(Groups, items, row) <==> row == 0
  {
    assert Offset(items, 0) == 0;
  }

  /** Where the row walk of `tableView(_:viewFor:row:)` stops. */
  datatype RowKind = GroupHeader(group: nat) | ItemRow(group: nat, item: nat) | PastEnd

  /**
   * The row walk of `tableView(_:viewFor:row:)`: skip whole groups until `row`
   * falls on a group's header or inside its items. Rows inside the table never
   * fall past the end, and only header rows stop on a header.
   */
  method WalkRow(groups: seq<string>, items: seq<seq<string>>, row: int) returns (k: RowKind)
    requires |items| >= |groups|
    requires row >= 0
    ensures k.GroupHeader? ==> k.group < |groups| && row == Offset(items, k.group)
    ensures k.ItemRow? ==> k.group < |groups| && k.item < |items[k.group]| && row == Offset(items, k.group) + 1 + k.item
    ensures k.PastEnd? <==> row >= Offset(items, |groups|)
    ensures k.GroupHeader? <==> IsHeaderRow(groups, items, row)
    ensures |items| == |groups| && row < NumberOfRows(groups, items) ==> !k.PastEnd?
  {
    var currentRow := row;
    var groupIndex := 0;
    while groupIndex < |groups|
      invariant 0 <= groupIndex <= |groups|
      invariant currentRow == row - Offset(items, groupIndex)
      invariant currentRow >= 0
      decreases |groups| - groupIndex
    {
      if currentRow == 0 {
        OffsetGrows(items, groupIndex, |groups|);
        k := GroupHeader(groupIndex);
        return;
      }
      currentRow := currentRow - 1;
      if currentRow < |items[groupIndex]| {
        OffsetGrows(items, groupIndex, |groups|);
        forall h | 0 <= h < |groups|
          ensures Offset(items, h) != row
        {
          if h <= groupIndex {
            OffsetGrows(items, h, groupIndex);
          } else {
            OffsetGrows(items, groupIndex, h);
          }
        }
        k := ItemRow(groupIndex, currentRow);
        return;
      }
      currentRow := currentRow - |items[groupIndex]|;
      groupIndex := groupIndex + 1;
    }
    forall h | 0 <= h < |groups|
      ensures Offset(items, h) != row
    {
      OffsetGrows(items, h, |groups|);
    }
    k := PastEnd;
  }

  /**
   * `tableView(_:isGroupRow:)`: its own walk, subtracting a whole group per step.
   * It answers true exactly for the header rows, the rows `WalkRow` stops on a header for.
   */
  method IsGroupRow(groups: seq<string>, items: seq<seq<string>>, row: int) returns (b: bool)
    requires |items| >= |groups|
    ensures b <==> IsHeaderRow(groups, items, row)
  {
    var currentRow := row;
    var groupIndex := 0;
    while groupIndex < |groups|
      invariant 0 <= groupIndex <= |groups|
      invariant currentRow == row - Offset(items, groupIndex)
      invariant forall h :: 0 <= h < groupIndex ==> Offset(items, h) != row
      decreases |groups| - groupIndex
    {
      if currentRow == 0 {
        return true;
      }
      currentRow := currentRow - (1 + |items[groupIndex]|);
      groupIndex := groupIndex + 1;
    }
    return false;
  }

  /** The two walks agree: `isGroupRow` answers true exactly where the `viewFor` walk stops on a header. */
  method WalksAgree(groups: seq<string>, items: seq<seq<string>>, row: int) returns (isHeader: bool, kind: RowKind)
    requires |items| >= |groups|
    requires row >= 0
    ensures isHeader <==> kind.GroupHeader?
  {
    isHeader := IsGroupRow(groups, items, row);
    kind := WalkRow(groups, items, row);
  }

  /** `tableColumn?.identifier`: the name column, or anything else. */
  datatype Column = NameColumn | OtherColumn

  /**
   * `tableView(_:viewFor:row:)` on the window's single group: row 0 is the
   * group title, rows 1 to the item count show one currency each, later rows stay blank.
   */
  method ViewFor(tbl: Table, column: Column, row: int, parse: string -> Option<real>) returns (c: Cell)
    requires |tbl.items| >= |Groups|
    requires row >= 0
    ensures row == 0 ==> c == (if column == NameColumn then Heading(Groups[0]) else Blank)
    ensures 1 <= row <= |tbl.items[0]| && column == NameColumn ==> c == Label("    " + tbl.items[0][row - 1])
    ensures 1 <= row <= |tbl.items[0]| && column == OtherColumn ==> c == PriceCell(tbl, tbl.items[0][row - 1], parse)
    ensures row > |tbl.items[0]| ==> c == Blank
  {
    assert Offset(tbl.items, 1) == 1 + |tbl.items[0]|;
    var kind := WalkRow(Groups, tbl.items, row);
    match kind
    case GroupHeader(g) =>
      c := if column == NameColumn then Heading(Groups[g]) else Blank;
    case ItemRow(g, i) =>
      var currency := tbl.items[g][i];
      c := if column == NameColumn then Label("    " + currency) else PriceCell(tbl, currency, parse);
    case PastEnd =>
      c := Blank;
  }
}
