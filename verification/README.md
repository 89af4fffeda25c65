# Hummingbot configuration validators and BitMEX metadata caches, in Dafny

This project models two small pieces of Hummingbot, the trading-bot framework:

- **The liquidity-mining strategy's configuration helpers**
  (`liquidity_mining_config_map.py`):
  - `token_validate` accepts a token exactly when its upper-cased form is one of the
    `-`-separated pieces of one of the `,`-separated entries of the configured `markets`
    string. Otherwise it returns an error message.
  - `exchange_on_validated` appends the chosen exchange to the shared list of required
    exchanges.
  - `order_size_prompt` builds the prompt text around the configured token.
- **The BitMEX instrument-metadata lookups** (`bitmex_utils.py`), with their two
  process-wide caches:
  - `get_trading_pair_multipliers` reads a pair's settlement multipliers from one request
    by symbol.
  - `get_trading_pair_index_and_tick_size` pages through the exchange's instrument
    listing, 500 instruments per request. It counts instruments until it finds the pair
    or reads a short page.
  - Both lookups answer a cached pair without a request. A success is stored in the
    cache. A failure leaves the cache as it was.

Files:

- `wrappers.dfy`: `Option` and `Result`.
- `string_ops.dfy`: Python's `str.split` with a one-character separator. Empty fields
  are kept, and `"".split(x)` is `[""]`. The file also has `sep.join` and `str.upper`.
  `Split` and `Join` are proved inverse in both directions.
- `liquidity_mining_config.dfy`: the token validator as a loop that builds the token
  set, the exchange callback over a shared list object, and the prompt.
- `bitmex_utils.dfy`: the paging search as a loop, proved against a reference definition
  (`IndexSpec`: the first match in the listing up to the first short page). The two
  caches are a class with `map` fields, and its methods state the cache discipline.
  Lemmas show what happens when the exchange pages a fixed listing: page k is the slice
  starting at `500 * k`, and the index found is the pair's position in the whole listing.

The network is a parameter. The index lookup takes `pages`, where `pages[k]` answers the
k-th page request and any request past the end of `pages` gets an empty page. The
multiplier lookup takes the answer to its one request. Each lookup returns the requests
it sent.

## Model

| member | source | states |
|---|---|---|
| `StringOps.Upper` | hummingbot/strategy/liquidity_mining/liquidity_mining_config_map.py:19 | The upper-cased value has the same length, holds no lower-case letter, and matches the input character by character when case is ignored. |
| `StringOps.Split` | hummingbot/strategy/liquidity_mining/liquidity_mining_config_map.py:20-23 | Splitting always gives at least one field, and no field contains the separator. |
| `StringOps.Join` | hummingbot/strategy/liquidity_mining/liquidity_mining_config_map.py:25 | Joining puts the first part at the start of the result, and joining no parts gives the empty string. With `SplitJoin` the parts can be read back when none holds the separator. |
| `StringOps.JoinCons` | hummingbot/strategy/liquidity_mining/liquidity_mining_config_map.py:25 | Joining with a field put in front gives that field, one separator, then the join of the rest. |
| `StringOps.JoinExtendFirst` | hummingbot/strategy/liquidity_mining/liquidity_mining_config_map.py:25 | Putting a character in front of the first field puts it in front of the joined string. |
| `StringOps.JoinSplit` | hummingbot/strategy/liquidity_mining/liquidity_mining_config_map.py:20-23 | Joining the fields of a split with the separator gives back the original string, so no character is lost or added. |
| `StringOps.SplitJoin` | hummingbot/strategy/liquidity_mining/liquidity_mining_config_map.py:20-23 | Splitting a join of separator-free fields gives back exactly those fields, empty ones included. |
| `StringOps.SplitNoSeparator` | hummingbot/strategy/liquidity_mining/liquidity_mining_config_map.py:20-23 | A string without the separator splits into a single field, itself. |
| `StringOps.SplitField` | hummingbot/strategy/liquidity_mining/liquidity_mining_config_map.py:20-23 | A separator-free field followed by the separator splits off as one field before the split of the rest. |
| `StringOps.SplitTrailingSeparator` | hummingbot/strategy/liquidity_mining/liquidity_mining_config_map.py:20-23 | A string ending in the separator splits into at least two fields, and the last one is empty. |
| `LiquidityMiningConfig.Pieces` | hummingbot/strategy/liquidity_mining/liquidity_mining_config_map.py:23 | The pieces of one entry are never empty as a set, none holds the `-` separator, and an entry without a `-` is its own single token. |
| `LiquidityMiningConfig.TokensOf` | hummingbot/strategy/liquidity_mining/liquidity_mining_config_map.py:21-23 | The set built from a non-empty list of entries is non-empty, holds no token with a `-`, and contains the pieces of every entry. |
| `LiquidityMiningConfig.TokensOfMembership` | hummingbot/strategy/liquidity_mining/liquidity_mining_config_map.py:21-23 | The token set that the loop builds holds a string exactly when it is a `-`-piece of one of the market entries. |
| `LiquidityMiningConfig.TokensDependOnlyOnEntries` | hummingbot/strategy/liquidity_mining/liquidity_mining_config_map.py:20-23 | Reordering or repeating market entries leaves the token set, and so the verdict, unchanged. |
| `LiquidityMiningConfig.ListTokens` | hummingbot/strategy/liquidity_mining/liquidity_mining_config_map.py:25 | Iterating over the token set for the message lists every token exactly once, in an order the model leaves open. |
| `LiquidityMiningConfig.TokenValidate` | hummingbot/strategy/liquidity_mining/liquidity_mining_config_map.py:18-25 | No error exactly when the upper-cased value is a piece of some market entry. On rejection the message starts with "Invalid token. " and the upper-cased value, and ends with the tokens joined by commas in some order that lists each token once. |
| `LiquidityMiningConfig.InvalidTokenMessage` | hummingbot/strategy/liquidity_mining/liquidity_mining_config_map.py:25 | The rejection message opens with "Invalid token. ", the token and " is not one of ". Splitting the rest on commas gives back the listing, when the listing is non-empty and no token in it holds a comma. |
| `LiquidityMiningConfig.LowercasePieceNeverMatches` | hummingbot/strategy/liquidity_mining/liquidity_mining_config_map.py:19-24 | Only the input is upper-cased, so a piece that holds a lower-case letter never equals any upper-cased input. |
| `LiquidityMiningConfig.LowercaseMarketsRejectEverything` | hummingbot/strategy/liquidity_mining/liquidity_mining_config_map.py:19-24 | If every piece of every market entry holds a lower-case letter, the validator accepts no value at all. |
| `LiquidityMiningConfig.LowercaseMarketExample` | hummingbot/strategy/liquidity_mining/liquidity_mining_config_map.py:19-24 | The markets string "ltc-usdt" accepts no value, "ltc" included. |
| `LiquidityMiningConfig.TrailingSeparatorAcceptsEmpty` | hummingbot/strategy/liquidity_mining/liquidity_mining_config_map.py:20-24 | A markets string ending in a comma ("LTC-USDT,") puts the empty token in the set, so the empty input is accepted. |
| `LiquidityMiningConfig.EveryPieceCounts` | hummingbot/strategy/liquidity_mining/liquidity_mining_config_map.py:20-24 | Every piece of every entry counts, a third or later piece included: a value whose upper-cased form is any piece is accepted. |
| `LiquidityMiningConfig.OrderSizePrompt` | hummingbot/strategy/liquidity_mining/liquidity_mining_config_map.py:28-30 | The prompt has the fixed head and tail, and the configured token can be read back verbatim from between them. |
| `LiquidityMiningConfig.RequiredExchanges.constructor` | hummingbot/strategy/liquidity_mining/liquidity_mining_config_map.py:9-11 | The shared list of required exchanges starts empty. |
| `LiquidityMiningConfig.ExchangeOnValidated` | hummingbot/strategy/liquidity_mining/liquidity_mining_config_map.py:14-15 | The required-exchanges list afterwards is the old list with exactly `value` appended. Its length grows by one and earlier entries are unchanged. |
| `BitmexUtils.FirstShortFrom` | hummingbot/connector/exchange/bitmex/bitmex_utils.py:107-110 | The result is the first page at or after k with fewer than 500 instruments. It always exists, because a request past the answered pages returns an empty page. |
| `BitmexUtils.FirstMatch` | hummingbot/connector/exchange/bitmex/bitmex_utils.py:98-106 | The result is the position of the first instrument with the symbol, and no earlier instrument has it. None means no instrument has the symbol. |
| `BitmexUtils.FetchedPrefix` | hummingbot/connector/exchange/bitmex/bitmex_utils.py:88-110 | Reading more pages only extends the instruments already read. |
| `BitmexUtils.FirstMatchOnPage` | hummingbot/connector/exchange/bitmex/bitmex_utils.py:98-106 | On a page read after instruments without a match, the first matching instrument is the first match of the whole listing. Its position counts every instrument before it. |
| `BitmexUtils.NoMatchExtends` | hummingbot/connector/exchange/bitmex/bitmex_utils.py:98-106 | A page without a match, read after pages without a match, keeps everything read so far free of matches. |
| `BitmexUtils.FoundOnPage` | hummingbot/connector/exchange/bitmex/bitmex_utils.py:98-104 | The first match on a page the search reaches is the reference definition's answer: the index counts all instruments before it, and the tick size is the matching instrument's. |
| `BitmexUtils.NotFoundAtShortPage` | hummingbot/connector/exchange/bitmex/bitmex_utils.py:107-108 | A short page reached without a match is the first short page, and the reference answer is not found. |
| `BitmexUtils.SearchInstrumentPages` | hummingbot/connector/exchange/bitmex/bitmex_utils.py:86-110 | Page k is requested with count 500 and start 500·k, in order. The result is the first match in the visible listing: its index is the number of instruments before it, and its tick size comes with it. The match lies on the last page requested, so no page after it is read. Every earlier page was full. Without a match, the search stops exactly at the first short page. |
| `BitmexUtils.BitmexCaches.constructor` | hummingbot/connector/exchange/bitmex/bitmex_utils.py:59-62 | Both caches start empty. |
| `BitmexUtils.BitmexCaches.GetTradingPairMultipliers` | hummingbot/connector/exchange/bitmex/bitmex_utils.py:65-79 | A hit returns the stored pair, sends no request and changes nothing. A miss sends one request by symbol. An empty answer raises and leaves the cache unchanged. Otherwise the first instrument's two multipliers are stored under the key, with all other keys untouched, and returned. The index cache is never touched. |
| `BitmexUtils.BitmexCaches.GetTradingPairIndexAndTickSize` | hummingbot/connector/exchange/bitmex/bitmex_utils.py:82-110 | A hit returns the stored (index, tick size) and sends no request. A miss runs the page search, with the same guarantees: the answer is the reference answer, pages are requested in order with count 500 and start 500·k, every page before the last one requested was full, a match lies on the last page requested, and without a match the lookup reads exactly up to the first short page. A found record is stored under the key with other keys untouched. Not found leaves the cache unchanged. The multiplier cache is never touched. |
| `BitmexUtils.IndexLookupIsMemoised` | hummingbot/connector/exchange/bitmex/bitmex_utils.py:82-104 | After a successful index lookup, a second call returns the same record with no request, whatever the pages would now say. After a failed lookup the next call searches again, with the page requests in order, and reads up to the first short page if the pair is still not listed. The client starts from empty caches; the general case follows from the contracts of the cache methods. |
| `BitmexUtils.MultipliersLookupIsMemoised` | hummingbot/connector/exchange/bitmex/bitmex_utils.py:65-79 | After a successful multiplier lookup, a second call returns the same pair with no request. After a failed lookup the next call sends its request again and answers from the new response, failing again only if that one is empty too. The client starts from empty caches; the general case follows from the contracts of the cache methods. |
| `BitmexUtils.PagedServesRequests` | hummingbot/connector/exchange/bitmex/bitmex_utils.py:89-97 | For an exchange that pages a fixed listing, page k is exactly what it serves for count 500 and start 500·k. |
| `BitmexUtils.FetchedCons` | hummingbot/connector/exchange/bitmex/bitmex_utils.py:98-110 | Reading pages behind a first page yields that page followed by the instruments of the rest. |
| `BitmexUtils.PagedShape` | hummingbot/connector/exchange/bitmex/bitmex_utils.py:107-110 | A paged listing has full pages except the last, which is short (empty when the length is a multiple of 500). Read in order, the pages are the listing. |
| `BitmexUtils.PagedListingIsVisible` | hummingbot/connector/exchange/bitmex/bitmex_utils.py:98-110 | Against an exchange that pages a fixed listing, the search can see the whole listing. |
| `BitmexUtils.IndexOverListing` | hummingbot/connector/exchange/bitmex/bitmex_utils.py:86-108 | Against such an exchange, the lookup finds the position of the first instrument with the symbol in the whole listing, with its tick size. It reports not found exactly when no instrument has the symbol. |

## Left out

- The triangular-arbitrage constraint solver is outside this model.
- The network and the `async` layer (`web_utils.api_request`, `await`) become the `pages` and `response` parameters. Each lookup is modelled as one atomic step, so an interleaving is lost: two concurrent lookups of the same pair can both miss the cache before their `await` (`bitmex_utils.py` lines 69 and 90), both send requests, and the later store overwrites the earlier one. The hard-coded `bitmex_testnet` domain and the endpoint path are plumbing and are not modelled.
- The original's `while True` loop never ends if every page is full. The model answers any request past the given pages with an empty page, so it always ends. A live endpoint that never returns a short page is outside the model.
- The model indexes `pages` by request number and does not check that the answers are consistent with each other. The consistent case, an exchange that slices one fixed listing, is covered by `Paged`, `PagedServesRequests` and `IndexOverListing`.
- Transport and parse failures of the requests are not modelled. A JSON instrument without `symbol` or `tickSize` is not modelled either: the original raises `KeyError` there. A missing multiplier field becomes `None`, as `dict.get` returns.
- `tickSize` is a `real` and the multipliers are integers. JSON float rounding is not modelled.
- `StringOps.Upper`: maps only the ASCII letters `a`–`z` to upper case. Python's full Unicode case mapping (for example `ß` to `SS`, which changes the length) is not modelled.
- `LiquidityMiningConfig.TokenValidate`: the error message's token order is left open. The original uses Python's set iteration order, which depends on string hashing and differs between runs.
- The global configuration lookups `liquidity_mining_config_map["markets"]` and `["token"]` become parameters. The `ConfigVar` declarations, prompts and default values (lines 33-111) are declarative data and are not modelled.
- `validate_exchange`, `validate_decimal` and `validate_int`, and the lambdas that wrap them, are not part of this model.
- `required_exchanges` lives in the client's settings module. Here it is the `RequiredExchanges` object passed to `ExchangeOnValidated`.
- `KEYS`, `OTHER_DOMAINS*`, `EXAMPLE_PAIR` and `DEFAULT_FEES` in `bitmex_utils.py` are static tables and are not modelled.
- The original stores a found index record from inside the paging loop and returns at once. The model stores it right after the search returns. Nothing can observe the difference.
