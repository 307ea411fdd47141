# BiPrice price ticker, modelled in Dafny

BiPrice is a macOS menu-bar utility that polls the CoinCap rates endpoint
(`https://api.coincap.io/v2/rates/<currency>`) and shows the latest price in
the status bar and in a grouped list window. This project models its logic
with the I/O taken out:

- `crypto_api.dfy` (module `CryptoApi`, from `BiPrice/CryptoAPIService.swift`):
  the `CryptoData` / `CryptoResponse` shape and how `JSONDecoder` accepts it.
  It also covers the fixed order in which `fetchPrice` picks `invalidURL`,
  `networkError`, `noData`, `decodingError` or success. The control flow is
  modelled as a method that records each `completion` call. Last comes the
  `fetchPrices` fold into a map keyed by lower-cased id.
- `status_ticker.dfy` (module `StatusTicker`, from `BiPrice/AppDelegate.swift`):
  the round-robin cursor over the five tracked currencies, and the
  all-or-nothing extraction that decides whether the status title changes.
- `price_table.dfy` (module `PriceTable`, from `BiPrice/ViewController.swift`):
  the quote cache written by request completions and by the price-update
  notification. It also covers the price cell's "Failed to fetch" decision and
  the flattened row index shared by `numberOfRows`, `isGroupRow` and the row
  walk of `tableView(_:viewFor:row:)`.
- `json.dfy` (module `Json`): JSON values, response bodies, and the
  `(data, error)` pair a data task delivers.
- `text.dfy` (module `Text`): Foundation's `lowercased()` and `capitalized`,
  defined on ASCII letters.
- `common.dfy` (module `Common`): `Option` and map lookup.

Parameters stand in for what cannot be seen or is floating point:
- `parse: string -> Option<real>` is `Double(String)`.
- `buildable: string -> bool` is whether `URL(string:)` accepts the URL text.
- `describe: real -> string` is `String(Double)`.
- `now: int` is the `Date()` a handler reads.
- A completion that runs on a queue becomes an input: the `Reply` a data task
  delivers, or a sequence of completions in the order they ran.

Two behaviours of the code worth stating up front:
- A failed request in the list window removes the cached quote for that
  currency (`ViewController.swift:86`) and keeps its update time, so no stale
  quote survives.
- Decoding never checks that `rateUsd` is a number. Any string decodes, and an
  unparsable one only makes `price` absent.

## Model

| member | source | states |
|---|---|---|
| `CryptoApi.Price` | BiPrice/CryptoAPIService.swift:12-14 | for any JSON object a quote was decoded from, `price` is the number parser's reading of that object's `rateUsd` text, absent exactly when the text does not parse |
| `CryptoApi.KeyIsStable` | BiPrice/CryptoAPIService.swift:83 | the key `data.id.lowercased()` that `Key` computes has the id's length, is lower case and lower-cases to itself, and an id already in lower case is its own key |
| `CryptoApi.DecodeCryptoData` | BiPrice/CryptoAPIService.swift:5-15 | decodes exactly when `id`, `symbol`, `rateUsd` and `type` are JSON strings and `currencySymbol` is missing, null or a string; the result carries those members unchanged |
| `CryptoApi.DecodeOptionalString` | BiPrice/CryptoAPIService.swift:8 | an optional member that is missing or null decodes to nil, a string decodes to itself, anything else fails the decode |
| `CryptoApi.DecodeInt64` | BiPrice/CryptoAPIService.swift:19 | `timestamp` decodes exactly when it is an integer literal within the 64-bit `Int` range, keeping its value |
| `CryptoApi.DecodeResponse` | BiPrice/CryptoAPIService.swift:17-20 | a response decodes exactly when it is an object with a well-shaped `data` object and an integer `timestamp`; the decoded quote mirrors `data` field for field, letter case preserved |
| `CryptoApi.DecodeBody` | BiPrice/CryptoAPIService.swift:61-68 | a body decodes exactly when it is JSON of the response shape; bytes that are not JSON fail |
| `CryptoApi.DecodeEncodeRoundTrip` | BiPrice/CryptoAPIService.swift:5-20 | every response, with or without `currencySymbol`, decodes back from its encoding unchanged |
| `CryptoApi.DecodeAcceptsAnyRateText` | BiPrice/CryptoAPIService.swift:9-14 | replacing `rateUsd` by any text still decodes, with that text; `price` is absent exactly when the text does not parse |
| `CryptoApi.Outcome` | BiPrice/CryptoAPIService.swift:43-69 | `invalidURL` exactly when the URL cannot be built; otherwise a transport error wins even when data is present; then missing data gives `noData`, an undecodable body `decodingError`, and success returns the decoded `data`; `invalidResponse` is never produced |
| `CryptoApi.FetchPrice` | BiPrice/CryptoAPIService.swift:43-71 | every path through `fetchPrice` calls `completion` exactly once, with the classified outcome |
| `CryptoApi.Accumulate` | BiPrice/CryptoAPIService.swift:80-86 | the keys are exactly the lower-cased ids of the successful results; failures add nothing; there are at most as many entries as results; each quote sits under its own lower-cased id |
| `CryptoApi.AccumulateLastWins` | BiPrice/CryptoAPIService.swift:78-83 | the quote left under a key is the one from the last success with that key |
| `CryptoApi.FetchPrices` | BiPrice/CryptoAPIService.swift:74-95 | whatever order the completions run in, the map handed over is keyed by exactly the successes' lower-cased ids and has at most `currencies.count` entries; no error reaches the caller |
| `CryptoApi.FetchPricesOrderIrrelevant` | BiPrice/CryptoAPIService.swift:78-94 | when the successes' lower-cased ids are distinct, every success is in the result under its key, whatever the completion order |
| `CryptoApi.FailedRequestAddsNoKey` | BiPrice/CryptoAPIService.swift:81-86 | a failed request leaves the keys those of the other requests' successes |
| `StatusTicker.FetchTick` | BiPrice/AppDelegate.swift:40-71 | the tick requests `allCurrencies[currentCurrencyIndex]` exactly when its URL can be built. It then advances the cursor by one modulo five without waiting for the reply. Otherwise nothing changes. The cursor stays in `[0, 5)` |
| `StatusTicker.Run` | BiPrice/AppDelegate.swift:26-29 | over any number of timer firings the cursor stays in range, the title is untouched, and at most one request is made per tick |
| `StatusTicker.RunIsRoundRobin` | BiPrice/AppDelegate.swift:41-71 | with every URL buildable, the k-th tick requests the currency k places past the cursor, and the cursor ends n places on modulo five |
| `StatusTicker.RequestsFromLaunch` | BiPrice/AppDelegate.swift:13-14 | starting at index 0 with every URL buildable, the k-th request is `allCurrencies[k % 5]` for every k below the number of ticks |
| `StatusTicker.RequestsRepeatFromLaunch` | BiPrice/AppDelegate.swift:14-71 | starting at index 0 with every URL buildable, requests repeat with period five |
| `StatusTicker.UnbuildableUrlStopsRotation` | BiPrice/AppDelegate.swift:42 | if the current currency's URL cannot be built, the guard returns before the advance, so no later tick moves the cursor or requests anything |
| `StatusTicker.ExtractQuote` | BiPrice/AppDelegate.swift:46-55 | a quote is extracted exactly when there is no error and `data` is an object with string `symbol` and string `rateUsd` whose rate parses |
| `StatusTicker.OnReply` | BiPrice/AppDelegate.swift:45-67 | the title becomes `symbol` and the parsed rate when the reply carries a quote, otherwise keeps its previous value ("Loading..." at launch); the currency list and the cursor are never changed |
| `StatusTicker.ServiceQuoteReachesTitle` | BiPrice/AppDelegate.swift:52-61 | every reply the price service decodes successfully, with a parsable rate, sets the title to that quote's symbol and price |
| `StatusTicker.TickerAcceptsWhatServiceRejects` | BiPrice/AppDelegate.swift:52-55 | every reply that passes the ticker's checks but lacks the full response shape (no `id`, `type` or integer `timestamp`) sets the title, while the service classifies the same reply as a decoding error |
| `StatusTicker.SymbolAndRateOnlyReply` | BiPrice/AppDelegate.swift:52-55 | a reply whose `data` holds only `symbol` and `rateUsd` is such a reply |
| `PriceTable.Labels` | BiPrice/ViewController.swift:73 | one label per identifier, in order, each the identifier's capitalized form |
| `PriceTable.UpdateCryptoCurrencies` | BiPrice/ViewController.swift:71-76 | `items[0]` becomes the element-wise capitalization of `allCurrencies`, same length; every currency is requested in order; the cache is untouched; without an `AppDelegate` nothing happens |
| `PriceTable.LaunchShowsTrackedCurrencies` | BiPrice/ViewController.swift:16-24 | from the declared initial state, `viewDidLoad`'s refresh labels the single group with the five tracked currencies, requests all five in order, and leaves the cache empty |
| `PriceTable.Complete` | BiPrice/ViewController.swift:79-89 | a success sets both maps under the quote's lower-cased id and leaves every other key; a failure removes only the requested currency's quote and leaves `lastUpdateTime` untouched |
| `PriceTable.ApplyAll` | BiPrice/ViewController.swift:79-89 | completions applied in the order they ran never change the labels; the update-time keys become the earlier ones plus every successful lower-cased id, none ever removed; a quote is cached only under a key cached before or carried by a success |
| `PriceTable.SuccessfulCompletionsMatchBatch` | BiPrice/ViewController.swift:81-83 | when every completion succeeds, the cache is the batch fold of the results laid over the previous cache |
| `PriceTable.FailureClearsEarlierQuote` | BiPrice/ViewController.swift:84-86 | a failure after a success for the same currency leaves no quote, only the earlier update time |
| `PriceTable.HandlePriceUpdate` | BiPrice/ViewController.swift:47-68 | without string `symbol`, `id`, `type` and a double `price` the notice changes nothing; otherwise both maps are written under `symbol`, not the lower-cased id, and no other key changes |
| `PriceTable.UpperCaseSymbolNoticeNeverShown` | BiPrice/ViewController.swift:66-67 | a notice whose symbol has an upper-case letter changes no price cell, since cells read lower-cased keys |
| `PriceTable.PriceCell` | BiPrice/ViewController.swift:160-183 | "Failed to fetch" exactly when no quote is cached under the lower-cased label or its price is absent; otherwise the parsed price, update time, type and id of that quote |
| `PriceTable.AllCurrenciesLowerCase` | BiPrice/AppDelegate.swift:14 | every tracked identifier is already lower case |
| `PriceTable.RefreshedLabelsReadFetchKeys` | BiPrice/ViewController.swift:73 | after a refresh, each row label lower-cases back to the identifier that was fetched for it |
| `PriceTable.FailedFetchShowsFailure` | BiPrice/ViewController.swift:84-86 | a failed request for a tracked currency makes its row show "Failed to fetch" |
| `PriceTable.SuccessfulFetchShowsPrice` | BiPrice/ViewController.swift:81-83 | a success whose id lower-cases to a tracked currency, with a parsable rate, shows that price and the completion time on its row |
| `PriceTable.OffsetIsPrefixCount` | BiPrice/ViewController.swift:131-133 | the header row of group g comes after g headers and all items of the earlier groups |
| `PriceTable.NumberOfRows` | BiPrice/ViewController.swift:131-133 | the row count is at least the number of groups and, with one item list per group, is exactly the row a header after the last group's items would take |
| `PriceTable.OffsetGrows` | BiPrice/ViewController.swift:142-191 | header rows increase strictly, with each group's items between its header and the next |
| `PriceTable.SingleGroupHeaderIsRowZero` | BiPrice/ViewController.swift:16 | with the single group, row 0 is the only header row |
| `PriceTable.WalkRow` | BiPrice/ViewController.swift:142-191 | for every non-negative row the walk stops on a group header or on an item with `0 <= currentRow < items[group].count`; it stops on a header exactly for header rows and never runs past the end inside `numberOfRows` |
| `PriceTable.IsGroupRow` | BiPrice/ViewController.swift:200-212 | true exactly for header rows, which are exactly the rows the `viewFor` walk classifies as headers |
| `PriceTable.WalksAgree` | BiPrice/ViewController.swift:200-212 | `isGroupRow` answers true for a row exactly when the `viewFor` walk stops on a group header for it |
| `PriceTable.ViewFor` | BiPrice/ViewController.swift:135-198 | row 0 shows the group title in the name column; rows 1 to the item count show the indented label or the price cell; later rows stay blank |
| `Text.Lower` | BiPrice/CryptoAPIService.swift:83 | `lowercased()` keeps the length and maps each character on its own: an upper-case letter becomes its lower-case letter, anything else stays |
| `Text.Capitalize` | BiPrice/ViewController.swift:73 | `capitalized` keeps the length, upper-cases the first character of every word and lower-cases every other character |
| `Text.LowerIdempotent` | BiPrice/CryptoAPIService.swift:83 | lower-casing is idempotent and yields lower case, so cache keys are stable |
| `Text.LowerOfCapitalize` | BiPrice/ViewController.swift:161 | capitalizing a label does not change what it lower-cases to |
| `Text.LowerCapitalizeRoundTrip` | BiPrice/ViewController.swift:161 | a lower-case identifier is recovered by lower-casing its capitalized label |

## Left out

- URLSession, `Timer`, `NotificationCenter`, `DispatchQueue` and `DispatchGroup` are I/O and scheduling. Completions are inputs, given in the order they ran.
- The unsynchronised writes to `results` in `fetchPrices` from concurrent completions are a data race. The fold assumes the completions ran one after another.
- Floating point is not modelled: `Double(rateUsd)`, `String(format: "%.4f")`, `String(price)` and the `$ %.4f` cell text. Parsing and rendering are parameters, and prices are exact reals.
- `DateFormatter` "HH:mm:ss" rendering is not modelled; update times are plain clock values.
- `JSONSerialization` and `JSONDecoder` byte parsing is not modelled; a body is either not JSON or a `Json` value.
- Duplicate JSON object keys are not modelled, because objects are maps.
- A number written with a fraction or exponent never decodes as `Int`, even when its value is integral.
- `URL(string:)` validity is a parameter; it is applied to the URL text.
- `Text.Lower`: only ASCII letters are case-mapped; Unicode case mapping is not modelled.
- `Text.Capitalize`: only ASCII letters are case-mapped; word breaks are spaces, tabs and line ends only.
- `Text.LowerIdempotent`: proved for the ASCII lower-casing only.
- String keys compare as character sequences, with no Unicode normalization. Swift compares `String` values and dictionary keys by canonical equivalence, so ids that differ only in normalization (precomposed vs decomposed "é") are one key in Swift but two in the model.
- `CryptoApi.Accumulate`: its key set and size bound are stated for keys compared as character sequences, not under Swift's canonical equivalence.
- `CryptoApi.FetchPrices`: the same holds for its keys and its `currencies.count` bound.
- `PriceTable.Complete`: the success write and the `removeValue(forKey:)` of a failure are stated for exact character-sequence keys.
- `PriceTable.PriceCell`: the lookup under the lower-cased label matches exact character-sequence keys only.
- AppKit plumbing is not modelled: `setupTableView`, columns, fonts, colours, frames, status-item creation, `deinit`, `applicationWillTerminate` and `applicationSupportsSecureRestorableState`. A `FailedToFetch` cell stands for the red text and a `Heading` for the bold group title.
- `print` logging is not modelled.
- No code in `CryptoAPIService.swift`, `AppDelegate.swift` or `ViewController.swift` posts `.currencyPriceUpdated`. `PriceTable.HandlePriceUpdate` models only the observer.
