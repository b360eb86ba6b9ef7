# Upbit ticker stream client and price store, modelled in Dafny

This project models the core of a front end that shows live cryptocurrency
prices from the Upbit exchange. It covers two pieces.

* The **Upbit streaming client**, the `useUpbitWebSocket` composable:
  * it loads the market catalog once and keys it by instrument code;
  * it chooses the codes to subscribe to and builds the subscribe request;
  * it normalises every ticker element of an inbound frame into a price record;
  * it writes each record to the store and signals a flash when the price moved;
  * it keeps the connection flag and reconnects after a close, but only when
    the current socket handle is closed when the timer fires.
* The **price store** (`useCoinStore`): a two-level table from exchange to
  (symbol to record), updated in place, plus the connection flag.

## Layout

| file | module | what it holds |
|---|---|---|
| `wrappers.dfy` | `Wrappers` | `Option`, standing for `undefined` and for failed calls |
| `text.dfy` | `Text` | decimal rendering of a count and its parser; `split` on one character and its inverse `join` |
| `coin_store.dfy` | `CoinStore` | `CoinPrice`; `Put`/`Lookup` on the table's contents; the `PriceStore` class |
| `trade_amount.dfy` | `TradeAmount` | `FormatTradeAmount` (the 억/조 label) and what a label means |
| `market_catalog.dfy` | `MarketCatalog` | catalog entries; the `reduce` into a keyed object; choice of subscription codes |
| `ticker_feed.dfy` | `TickerFeed` | ticker elements; normalisation; the effect of one frame on the store; flashes |
| `upbit_websocket.dfy` | `UpbitWebSocket` | the subscribe request; the `StreamClient` class with the connect/open/message/error/close/timer/disconnect handlers |

## How the model reads the program

* Numbers (prices, rates, amounts) are `real`, so the model has no float
  rounding. `Math.floor` is `.Floor`. Timestamps are `int`.
* A JavaScript object keyed by code (the catalog) is a `MarketIndex`. It
  holds the keys in first-insertion order, plus the entry under each key.
  Assigning to an existing key replaces its entry but keeps its place.
  `Object.values` visits string keys in that order. Keys that look like
  array indices (such as "123") come first, in ascending numeric order;
  the model does not reorder those. The subscription list is unaffected:
  it holds only "KRW-" codes, which are never index-like, so their
  relative order is insertion order.
* A socket is a value `Socket(id, readyState)`. The id is the number of the
  `connect` call that opened it. What that call's handlers capture (its
  `symbols` and the chosen codes) is recorded as `sessions[id]`.
* Transport events are methods: `OnOpen(id, ticket)`, `OnMessage(frame)`,
  `OnError()`, `OnClose(id)`. Only `OnOpen` and `OnClose` name the socket
  they come from, because only their handlers use what that socket's
  `connect` call captured; the message and error handlers act the same
  for every socket.
  A frame arrives already decoded, as a `seq<Ticker>`.
* Each `setTimeout` reconnect is an entry in a first-in-first-out queue.
  The entry holds the captured `symbols`, and `FireReconnect` runs the
  oldest one. The catalog response (`Option<seq<Market>>`) and the ticket
  string are parameters.
* Points where the model follows the code rather than a looser reading:
  * the base code is the segment after the first `-`. The raw code is used
    when that segment is missing or EMPTY (`split('-')[1] || cd`);
  * the display name falls back to the raw code also when the catalog's
    Korean name is the empty string;
  * an empty `symbols` list is used as given (an empty array is truthy),
    so `None` alone triggers the domestic-quote selection;
  * `onopen` sends the request on the CURRENT handle (`webSocket?.send`).
    That may not be the socket that opened; `OnOpen` reports which socket
    the request went to;
  * `disconnect` keeps no "intentionally disconnected" flag. The reconnect
    guard is only the check that the current handle exists and is
    `CLOSED`, exactly as written.

## Model

| member | source | states |
|---|---|---|
| `TradeAmount.FormatTradeAmount` | src/composables/useUpbitWebSocket.ts:20-33 | the three branches of `formatTradeAmount`; their meaning is stated by `FormatTradeAmountMeaning` |
| `TradeAmount.FormatTradeAmountMeaning` | src/composables/useUpbitWebSocket.ts:20-33 | below 10^8 the label is exactly "1억"; at or above 10^12 it reads back as n조 with n·10^12 ≤ amount < (n+1)·10^12; in between as n억 with n·10^8 ≤ amount < (n+1)·10^8 and 1 ≤ n ≤ 9999 |
| `TradeAmount.WholeUnits` | src/composables/useUpbitWebSocket.ts:27-31 | `Math.floor(amount / unit)` for amount ≥ unit is the whole count n ≥ 1 with n·unit ≤ amount < (n+1)·unit |
| `TradeAmount.LabelRoundTrip` | src/composables/useUpbitWebSocket.ts:28-32 | a count rendered with 억 or 조 reads back as that count and unit |
| `TradeAmount.FormatTradeAmountExamples` | src/composables/useUpbitWebSocket.ts:20-33 | 5×10^7 gives "1억", 2.5×10^8 gives "2억", 1.5×10^12 gives "1조" |
| `Text.Decimal` | src/composables/useUpbitWebSocket.ts:28-32 | the rendering of a count is a non-empty digit string, of two or more digits exactly when the count is at least 10, and starts with '0' only for the count 0 (no leading zeros) |
| `Text.ParseDecimal` | src/composables/useUpbitWebSocket.ts:28-32 | reading a rendering back succeeds exactly on non-empty all-digit strings |
| `Text.DecimalRoundTrip` | src/composables/useUpbitWebSocket.ts:28-32 | reading back the rendering of n gives n |
| `Text.DecimalInjective` | src/composables/useUpbitWebSocket.ts:28-32 | different counts render differently |
| `Text.Split` | src/composables/useUpbitWebSocket.ts:94 | `split` gives at least one piece and no piece contains the separator |
| `Text.JoinSplit` | src/composables/useUpbitWebSocket.ts:94 | joining the pieces of a split with the separator gives back the string |
| `Text.SplitWithoutSeparator` | src/composables/useUpbitWebSocket.ts:94 | a string without the separator splits into itself alone |
| `Text.SplitAtFirstSeparator` | src/composables/useUpbitWebSocket.ts:94 | the first piece is everything before the first separator, the rest is the split of what follows |
| `CoinStore.Lookup` | src/stores/coin.ts:29-31 | `getPrice` on the table's contents: absent when the exchange or the symbol is missing; read-back and frame are stated by `Put` |
| `CoinStore.ExchangeTable` | src/stores/coin.ts:33-35 | `getExchangePrices` on the table's contents: absent until the first update for the exchange, as `ExchangeTableAbsentUntilFirstWrite` states |
| `CoinStore.Put` | src/stores/coin.ts:22-27 | after an update the pair reads back the record; every other (exchange, symbol) entry is unchanged; the exchange keys grow by exactly that exchange; its symbol keys grow by exactly that symbol (starting empty when the exchange was absent); no symbol of any exchange is removed |
| `CoinStore.PutIdempotent` | src/stores/coin.ts:26 | the same update twice equals doing it once |
| `CoinStore.PutLastWins` | src/stores/coin.ts:26 | a later update of the same pair fully replaces the earlier record |
| `CoinStore.ExchangeTableAbsentUntilFirstWrite` | src/stores/coin.ts:29-35 | an absent exchange table has no prices; after an update it is still absent exactly when the update was for another exchange |
| `CoinStore.PriceStore.constructor` | src/stores/coin.ts:19-20 | the store starts with an empty table and the flag down |
| `CoinStore.PriceStore.UpdatePrice` | src/stores/coin.ts:22-27 | the table becomes `Put` of the old table; read-back; all other pairs unchanged; no exchange removed; the flag is outside its frame |
| `CoinStore.PriceStore.GetPrice` | src/stores/coin.ts:29-31 | `getPrice` on the store object: `Lookup` of its table |
| `CoinStore.PriceStore.GetExchangePrices` | src/stores/coin.ts:33-35 | `getExchangePrices` on the store object: `ExchangeTable` of its table |
| `CoinStore.PriceStore.SetConnected` | src/stores/coin.ts:37-39 | the flag becomes the argument; the table is outside its frame |
| `MarketCatalog.Assign` | src/composables/useUpbitWebSocket.ts:43 | `acc[market.market] = market`; specified by `AssignSpec` |
| `MarketCatalog.IndexByMarket` | src/composables/useUpbitWebSocket.ts:42-45 | the `reduce` over the response; specified by `IndexByMarketSpec` and `IndexByMarketLastWins` |
| `MarketCatalog.AssignSpec` | src/composables/useUpbitWebSocket.ts:43 | one assignment keeps the keys ordered once each and every entry under its own code, and adds exactly the entry's code |
| `MarketCatalog.IndexByMarketSpec` | src/composables/useUpbitWebSocket.ts:42-45 | the loaded catalog's keys are exactly the `market` fields of the response, listed once each, and each key maps to an entry whose `market` is that key |
| `MarketCatalog.IndexByMarketLastWins` | src/composables/useUpbitWebSocket.ts:42-45 | for a code repeated in the response, the entry kept is the last one |
| `MarketCatalog.BuildIndex` | src/composables/useUpbitWebSocket.ts:42-45 | the accumulator loop produces exactly the keyed index of the response |
| `MarketCatalog.Values` | src/composables/useUpbitWebSocket.ts:62 | `Object.values` lists the entry of each key in key order |
| `MarketCatalog.ValuesAreMarkets` | src/composables/useUpbitWebSocket.ts:62 | in the loaded catalog the i-th value carries the i-th key as its `market` |
| `MarketCatalog.KrwCodes` | src/composables/useUpbitWebSocket.ts:63-64 | the `filter`/`map` to "KRW-" codes; specified by `KrwCodesMembers` and `KrwCodesDistinct` |
| `MarketCatalog.CodesToSubscribe` | src/composables/useUpbitWebSocket.ts:62-64 | `symbols` or else the "KRW-" codes of the catalog; specified by `CodesToSubscribeSpec` |
| `MarketCatalog.KrwCodesMembers` | src/composables/useUpbitWebSocket.ts:62-64 | a code is selected exactly when some entry carries it and it starts with "KRW-" |
| `MarketCatalog.KrwCodesDistinct` | src/composables/useUpbitWebSocket.ts:62-64 | selecting from entries with distinct codes yields distinct codes |
| `MarketCatalog.CodesToSubscribeSpec` | src/composables/useUpbitWebSocket.ts:62-64 | given symbols are used verbatim; otherwise the codes are exactly the catalog codes with prefix "KRW-", each once, each with the prefix |
| `TickerFeed.BaseCode` | src/composables/useUpbitWebSocket.ts:94 | the second piece of `cd.split('-')`, or `cd` when that piece is missing or empty; specified by `BaseCodeSpec` |
| `TickerFeed.DisplayName` | src/composables/useUpbitWebSocket.ts:95 | the catalog's Korean name for the code, or the code when it is unknown or the name is empty; its fallbacks are stated by `NormalizeSpec` |
| `TickerFeed.Normalize` | src/composables/useUpbitWebSocket.ts:92-102 | the record written for one ticker element; specified by `NormalizeSpec` and stored as `FrameLastWins` states |
| `TickerFeed.OldPrice` | src/composables/useUpbitWebSocket.ts:90 | the price already stored for the code, if any; used by `FrameFlashes` and pinned down in `TwoFramesForOneCode` |
| `TickerFeed.ApplyFrame` | src/composables/useUpbitWebSocket.ts:87-119 | the store after the frame's elements, in order; specified by `FrameLastWins`, `FrameLeavesOthers`, `FrameKeepsKeys`, `ApplyFrameConcat` |
| `TickerFeed.FrameFlashes` | src/composables/useUpbitWebSocket.ts:87-119 | the flashes of the frame's elements, in order; specified by `FlashDirection`, `FlashesComeFromTickers`, `FrameFlashesConcat`, `TwoFramesForOneCode` |
| `TickerFeed.BaseCodeSpec` | src/composables/useUpbitWebSocket.ts:94 | "QUOTE-BASE" gives BASE; a code without '-' gives itself; "QUOTE-" falls back to the raw code |
| `TickerFeed.NormalizeSpec` | src/composables/useUpbitWebSocket.ts:92-102 | the record has symbol = code, price = trade price, change24h = signed change, percent change = 100 × signed rate, timestamp = tms, raw amount = amount, label = `FormatTradeAmount` of the amount (a well-formed 억/조 label), no flash hint, the base code after '-', and the Korean name, or the raw code when the code is unknown or its Korean name is empty |
| `TickerFeed.FlashDirection` | src/composables/useUpbitWebSocket.ts:105-110 | a flash exists iff an old price exists and differs from the new one; it is up iff the new price is higher, down iff lower |
| `TickerFeed.FrameLastWins` | src/composables/useUpbitWebSocket.ts:87-102 | after a frame, the store holds for each ticker code the record of the last ticker element with that code |
| `TickerFeed.FrameLeavesOthers` | src/composables/useUpbitWebSocket.ts:87-92 | other exchanges, and codes that appear in no ticker element, are untouched by a frame |
| `TickerFeed.FrameKeepsKeys` | src/composables/useUpbitWebSocket.ts:87-102 | a frame never removes an exchange or a symbol |
| `TickerFeed.NonTickerFrameIsIgnored` | src/composables/useUpbitWebSocket.ts:88 | elements whose type is not "ticker" change nothing and flash nothing |
| `TickerFeed.ApplyFrameConcat` | src/composables/useUpbitWebSocket.ts:87-119 | a frame acts on the store as its first part followed by the rest, so elements are applied strictly in order |
| `TickerFeed.FrameFlashesConcat` | src/composables/useUpbitWebSocket.ts:87-119 | a frame's flashes are its first part's flashes followed by the rest's, judged against the store the first part left |
| `TickerFeed.FlashesComeFromTickers` | src/composables/useUpbitWebSocket.ts:87-117 | at most one flash per element, and each names the code of a ticker element of the frame |
| `TickerFeed.TwoFramesForOneCode` | src/composables/useUpbitWebSocket.ts:87-110 | two frames for one code: the store keeps only the second record, and the second frame flashes iff the price moved, up iff it rose |
| `UpbitWebSocket.SubscribeMessage` | src/composables/useUpbitWebSocket.ts:73-77 | the three-part request; specified by `SubscribeMessageSpec` |
| `UpbitWebSocket.SubscribeMessageSpec` | src/composables/useUpbitWebSocket.ts:73-77 | the request has three parts: ticket, ticker subscription, SIMPLE_LIST format; it subscribes to exactly the given codes; apart from the ticket it depends only on them |
| `UpbitWebSocket.StreamClient.constructor` | src/composables/useUpbitWebSocket.ts:14-17 | no socket, empty catalog not loaded, no sessions or timers |
| `UpbitWebSocket.StreamClient.FetchMarkets` | src/composables/useUpbitWebSocket.ts:36-53 | once loaded: no request, cached catalog returned, nothing changes; on success: the catalog is the keyed response and is marked loaded; on failure: `{}` is returned and the catalog stays unloaded, so a later call retries |
| `UpbitWebSocket.StreamClient.Connect` | src/composables/useUpbitWebSocket.ts:55-65 | loads the catalog only if not loaded; records a new session with the symbols and the codes chosen from them; the new socket, connecting, becomes the current handle |
| `UpbitWebSocket.StreamClient.OnOpen` | src/composables/useUpbitWebSocket.ts:68-79 | the flag goes up; the opened socket, if current, becomes open; the subscribe request for that session's codes goes to the current handle, or nowhere when there is none |
| `UpbitWebSocket.StreamClient.OnMessage` | src/composables/useUpbitWebSocket.ts:81-120 | the store becomes the frame applied in order to the old store, and the flashes are those of the frame, element by element |
| `UpbitWebSocket.StreamClient.OnError` | src/composables/useUpbitWebSocket.ts:122-125 | the flag goes down |
| `UpbitWebSocket.StreamClient.OnClose` | src/composables/useUpbitWebSocket.ts:127-137 | the flag goes down; the closed socket, if current, becomes closed; a reconnect timer carrying that session's symbols is queued |
| `UpbitWebSocket.StreamClient.FireReconnect` | src/composables/useUpbitWebSocket.ts:132-136 | the oldest timer is consumed; it reconnects iff a current handle exists and is closed, then with the timer's own symbols, loading the catalog first when it is not loaded (loaded and keyed on success, still unloaded on failure); otherwise nothing else changes |
| `UpbitWebSocket.StreamClient.Disconnect` | src/composables/useUpbitWebSocket.ts:140-145 | the current socket, if any, is closed and the handle becomes empty |
| `UpbitWebSocket.DisconnectSuppressesReconnect` | src/composables/useUpbitWebSocket.ts:127-145 | after disconnect, the dropped socket's close (when there was a socket) and every timer already pending fire without reconnecting; the flag goes down through that close, and is left as it was when there was no socket |
| `UpbitWebSocket.ReconnectSameList` | src/composables/useUpbitWebSocket.ts:62-78 | connect with a list, disconnect, connect with the same list: both requests subscribe to that list and differ at most in the ticket |

## Left out

- The WebSocket transport, `send`, `blob.text()`, `JSON.parse` and `JSON.stringify` are not modelled. A frame is an already-decoded `seq<Ticker>` and a request is a `seq<RequestPart>`. A frame that fails to parse is not modelled.
- What `send` does on a socket that is not open is not modelled. A browser throws while the socket is CONNECTING and silently discards the data once it is CLOSING or CLOSED. `OnOpen` only reports which handle the request goes to.
- `UpbitWebSocket.ReadyState` has no CLOSING state. A server-initiated close leaves the current handle CLOSING until `onclose` fires, but the client's only test of the state is `readyState === WebSocket.CLOSED` (useUpbitWebSocket.ts:133), which CLOSING fails just as CONNECTING and OPEN do.
- The HTTP request for the market list is not modelled. Its outcome is the `Option<seq<Market>>` parameter, and the error log is dropped. `src/stores/exchange.ts` is not part of this model.
- `short.generate()` is not modelled: the ticket is an arbitrary string parameter.
- The DOM flash is not modelled (`window.upbitPriceRefs`, `classList`, the 300 ms removal timer). A flash is returned as an event `(code, direction)` whether or not an element is registered for the code.
- Wall-clock time is not modelled: the 1000 ms reconnect delay is reduced to timers that fire in the order they were set.
- `TradeAmount.FormatTradeAmount` renders the count as plain digits, without the thousands separators of `toLocaleString` (for example "1234억", not "1,234억").
- Floating-point behaviour is not modelled: `scr * 100`, the divisions and the comparisons are exact on `real` (NaN and infinities are excluded).
- Vue/Pinia reactivity and `ref` wrappers are not modelled. The `onUnmounted` hook only calls `disconnect`, which is `StreamClient.Disconnect`.
- Async scheduling is sequential in the model: `connect` awaits the catalog load before opening the socket.
- UpbitWebSocket.DisconnectSuppressesReconnect covers only timers that fire after `disconnect`. `StreamClient.Connect` is atomic, so the model misses one window. A timer that passed its CLOSED check while the catalog was unloaded is suspended at `await fetchMarkets()` (src/composables/useUpbitWebSocket.ts:58). A `disconnect()` during that wait does not stop it: it still opens a new socket at line 65.
- `CoinStore.PriceStore.GetExchangePrices` returns a copy of the exchange's table, while `getExchangePrices` returns the live inner `Map`; that aliasing is not modelled.
- `console.log`/`console.error` output is not modelled.
- `src/types/upbit.ts` is reduced to the ticker fields the client reads (`ty`, `cd`, `tp`, `scp`, `scr`, `atp24h`, `tms`). `src/main.ts` and `vite.config.ts` are not part of this model.
