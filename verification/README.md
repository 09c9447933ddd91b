# jubi-cli portfolio pass, modelled in Dafny

jubi-cli polls the Jubi exchange and draws a table of the user's holdings.
One pass has three steps: `finance()`, `getCost()` and `format()`.

- `finance()` reads the account's balance keys. It joins the holdings with the market listing and yesterday's prices, and keeps every asset worth more than 5.
- `getCost()` works out the average cost of a coin from its trade history. It keeps the result in a per-process cache.
- `format()` turns each entry into a table row. Today's profit is clamped to the total profit. The two percentage columns show `-` for 0.

This project models that data logic and proves what it promises.

- `wrappers.dfy`, module `Wrappers`: `Option`, `Result`, the error values of a pass, and `Distinct`.
- `numeric.dfy`, module `Numeric`: `toFixed(k)` followed by `parseFloat`, taken on exact reals. It is rounding to the nearest multiple of 10^-k, with ties away from zero.
- `holdings.dfy`, module `Holdings`: the balance-key parsing. A key's suffix is matched against `balance`, `lock` and `rate` in that order. The value is recorded under the asset name, kept in first-appearance order. It holds the specification functions and the two nested loops as methods.
- `market.dfy`, module `Market`: the price record of each listed coin. Its `todayRate` is `(price - yprice) / yprice`, or `None` where `yprice` is 0. The building loop is a method.
- `costs.dfy`, module `Costs`: the two `reduce` folds of `getCost`, the rounded average, and the cache as a value.
- `valuation.dfy`, module `Valuation`: the filter-and-join loop as a specification function `Resolve`, plus the lemmas about a whole pass of `finance()`.
- `rows.dfy`, module `Rows`: the row of one entry, the clamp, and the percentage formatter.
- `jubi.dfy`, module `App`: the class `Jubi`.
  - Its field `cost` is the cache.
  - A ghost log `tradeRequests` records every trade-history request.
  - Its methods `GetCost`, `Finance` and `Format` mirror the source's statements. The filter loop of `Finance` is `FilterListed`. Its body is `Visit`, which hands a kept coin to `Keep` (today's rate) and `Push` (the cost and the push).
  - Each method is proved against the specification functions above.

The source's network requests become inputs:
- a `FinanceResponse` (status and keys in key order);
- the market listing, as a sequence of coin and ticker pairs in key order;
- the trends, as a map from coin to yesterday's price;
- the trade-history request, as a function `fetch` from coin to its trade records.

JavaScript's number-to-text conversion is the parameter `show` of `PercentCell`.

The model has no NaN and no Infinity. Every division the source may do by zero is an explicit case:
- A zero net quantity in `getCost` gives `None`, and the pass fails with `NoPosition(coin)`.
- A zero yesterday price gives a price record whose `todayRate` is `None`. Only a kept coin with such a record stops the pass, with `ZeroYesterdayPrice(coin)`. Such a record on a coin the user does not hold, or does not keep, changes nothing.
- A coin without a trend record gives `MissingTrend`. In the source this is the `TypeError` thrown when a missing trend is read.
- A zero cost price gives a row with no profit rate (`None`).

## Model

| member | source | states |
|---|---|---|
| Holdings.FirstMatch | app.js:205-213 | the flag found is one of those tried and ends the key; when none is found, no tried flag ends the key |
| Holdings.NameOf | app.js:207 | the name is the key minus the flag and one separator character; a key no longer than the flag gives the empty name |
| Holdings.KeyParse | app.js:205-207 | a parsed key ends with the flag found, and its name is the part in front of it; an unparsed key ends with no flag at all |
| Holdings.SuffixesExclusive | app.js:201-213 | no key ends with two different flags, so stopping at the first match in the order balance, lock, rate loses nothing |
| Holdings.KeyParseFlag | app.js:205-207 | a key is recorded under flag f if and only if it ends with f's text |
| Holdings.KeyParseRoundTrip | app.js:206-207 | name, one separator character and flag give back the key |
| Holdings.Touch | app.js:208-210 | a name with a row keeps it and everything else is unchanged; a new name gets an empty row and is appended to the order |
| Holdings.AddKey | app.js:204-212 | one key never removes or reorders the names already listed, and adds at most one |
| Holdings.AddKeyField | app.js:211 | one key sets exactly the field of its name and flag to its value; every other field is unchanged; an unmatched key changes nothing |
| Holdings.AddKeyOrder | app.js:208-210 | one key appends its name only when the name is new; names stay distinct and each has a row |
| Holdings.ParseFrom | app.js:204-215 | continuing the loop keeps the names already listed at the front and adds at most one name per key |
| Holdings.Parse | app.js:201-215 | `my_coins` lists at most one name per key |
| Holdings.ParseFromFields | app.js:204-215 | after the loop each field holds the value of the last key recorded under its name and flag, or keeps its earlier value if no key is |
| Holdings.KeyNamesMembers | app.js:204-207 | a name is in `KeyNames` exactly when some key parses to it |
| Holdings.ParseFromOrder | app.js:204-215 | the loop keeps names distinct and lists exactly the earlier names plus the names of parsed keys |
| Holdings.ParseWellFormed | app.js:201-215 | the parsed holdings list distinct names, each with a row |
| Holdings.ParseField | app.js:211 | a later key with the same name and flag overwrites an earlier one: each field is the last such key's value |
| Holdings.ParseSpec | app.js:201-215 | the parsed holdings: distinct names, exactly the names of keys ending with a flag, each field the last matching key's value |
| Holdings.FirstIndex | app.js:204-208 | the index found is that of a key recorded under the name, and no earlier key is; it is the length of the keys when none is |
| Holdings.ParseFromFirst | app.js:204-210 | names the loop appends come in the order of their first keys |
| Holdings.ParseOrderFirst | app.js:204-210 | every listed name has a key, and of two listed names the earlier one's first key comes first |
| Holdings.ParseHoldings | app.js:204-215 | the nested loops build exactly `Parse(entries)` |
| Holdings.RecordKey | app.js:205-214 | the inner loop over the suffixes, with its `break`, performs exactly one `AddKey` |
| Market.Record | app.js:223-229 | a record copies name, price, day high and day low; its today's rate is finite if and only if the yesterday price is not 0 |
| Market.RecordSpec | app.js:228 | a finite today's rate satisfies `yprice * (1 + todayRate) == price` |
| Market.PricesFrom | app.js:218-230 | the loop fails only with `MissingTrend`, and never loses a record it started from |
| Market.Prices | app.js:218-230 | building `all_coins` fails only with `MissingTrend` |
| Market.PricesFromOk | app.js:218-230 | the loop finishes if and only if every listed coin has a trend record |
| Market.PricesFromKeys | app.js:218-230 | a finished loop has a record for exactly the listed coins, besides the records it started from |
| Market.PricesFromRecords | app.js:218-230 | each listed coin's record is built from its own ticker and trend; records of unlisted coins are untouched |
| Market.PricesSpec | app.js:218-230 | price records exist if and only if every listed coin has a trend record, whatever its yesterday price; then there is one per listed coin, built from its own ticker and trend |
| Market.BuildPrices | app.js:218-230 | the loop returns exactly `Prices(market, trends)` |
| Costs.Net | app.js:161-175 | each fold is the buys' total minus the total of all other records |
| Costs.AverageCost | app.js:177 | a cost exists if and only if the net quantity is not 0 |
| Costs.AverageCostRounding | app.js:177 | the cost is a whole number of hundredths, within half a hundredth of net amount over net quantity |
| Costs.AverageCostExample | app.js:161-177 | buying 10 for 100 and selling 4 for 50 gives a cost of 8.33 |
| Costs.LookupCost | app.js:151-183 | a truthy cached value is returned as it is; a cost exists exactly when the cache hits or the fetched trades leave a net quantity other than 0 |
| Costs.CacheHit | app.js:153 | the truthiness test of `this.cost[coin]`: present and not 0; `LookupTwice` states that a cached 0 is computed again, `Misses` which coins a pass fetches |
| Costs.AfterLookup | app.js:153-180 | the cache then holds the cost returned; it is unchanged when no cost exists; other coins' entries are untouched |
| Costs.LookupTwice | app.js:151-183 | a second call returns the same; it hits the cache exactly when the first result was a non-zero number, and changes nothing |
| Numeric.RoundHalfAway | app.js:177 | the integer chosen is within 0.5 of its argument, has the argument's sign, and breaks ties away from zero |
| Numeric.RoundTo | app.js:243 | `parseFloat(x.toFixed(k))` on exact reals, with `unit` 10^-k; what it computes is stated by `RoundToSpec` |
| Numeric.RoundToSpec | app.js:243 | rounding to a unit gives a whole multiple of the unit within half a unit of the argument |
| Numeric.RoundToWhole | app.js:259-261 | rounding to whole units gives a whole number within 0.5 of the argument |
| Valuation.Included | app.js:234-236 | the filter's two conditions; `FinanceInclusion` states them in terms of the keys |
| Valuation.MakeEntry | app.js:237-245 | the entry literal; `FinanceEntries` states its fields |
| Valuation.Selected | app.js:233-236 | the names the filter keeps, in the order visited; `SelectedMembers` states which names they are and that they are distinct, `SelectedKeepsOrder` that their order is kept |
| Valuation.SelectedMembers | app.js:233-236 | a coin is kept if and only if it is held and included; over distinct names the kept names are distinct |
| Valuation.SelectedKeepsOrder | app.js:233-236 | filtering keeps order: names that rise in a ranking still do once filtered |
| Valuation.Resolve | app.js:233-248 | the filter loop stops only with `ZeroYesterdayPrice` or `NoPosition`, and pushes at most one entry per name |
| Valuation.ResolveFrame | app.js:233-248 | the loop leaves the cache entry of every coin it does not keep as it was |
| Valuation.LookupElsewhere | app.js:151-183 | looking up one coin changes neither another coin's result nor whether it hits the cache |
| Valuation.ResolveFailure | app.js:233-248 | the pass stops only at a kept coin whose today's rate is not finite, or that misses the cache and has no net position; only kept coins that miss the cache are fetched |
| Valuation.ResolveLength | app.js:233-248 | a pass that does not stop pushes one entry per kept coin |
| Valuation.ResolveHead | app.js:237-245 | the first entry belongs to the first name, when that name is kept |
| Valuation.ResolveEntry | app.js:237-245 | the k-th entry belongs to the k-th kept coin, has a finite today's rate, and carries that coin's cost, which the cache now holds |
| Valuation.Misses | app.js:153 | the coins the cache misses are exactly the names without a truthy cached cost; over distinct names they are distinct |
| Valuation.ResolveFetched | app.js:151-183 | a pass that does not stop fetches exactly the kept coins that miss the cache, once each, in the order visited |
| Valuation.FinanceOutcome | app.js:185-251 | one pass of `finance()`: result, cache and requests; `FinanceFailure` and `FinanceSpec` state what it yields |
| Valuation.FinanceFailure | app.js:193-248 | a status other than 1 alone gives StatusNotOk, with no effect; a missing trend alone gives MissingTrend, with no effect; any other failure names a kept coin with a zero yesterday price or no net position |
| Valuation.FinanceInclusion | app.js:233-237 | an asset is listed if and only if its last balance key exists, it has a price record with a non-zero price, and price times balance exceeds 5 |
| Valuation.FinanceEntries | app.js:237-245 | a successful pass gives one entry per listed asset, with balance, name, prices, today's rate rounded to 2 decimals, and the cost the cache now holds |
| Valuation.FinanceOrder | app.js:204-236 | the listed assets come in the order their names first appear among the keys |
| Valuation.FinanceFetches | app.js:151-183 | a successful pass leaves unlisted coins' cache entries as they were and fetches exactly the listed coins that miss the cache, once each, in list order |
| Valuation.FinanceSpec | app.js:197-250 | a successful pass: entries, their first-appearance order, and the cache and request effects, together |
| Rows.EstimatedTodayProfit | app.js:259 | today's profit before the clamp; `TodayProfitRounding` states it is a whole number within 0.5 of price times today's rate over 100 times balance |
| Rows.TotalProfit | app.js:261 | the total profit; `TotalProfitRounding` states it is a whole number within 0.5 of (price - cost) times balance |
| Rows.ProfitRate | app.js:267 | a profit rate exists if and only if the cost price is not 0 |
| Rows.TodayProfitRounding | app.js:259 | today's estimate is a whole number within 0.5 of price times today's rate over 100 times balance |
| Rows.TotalProfitRounding | app.js:261 | the total profit is a whole number within 0.5 of (price - cost) times balance |
| Rows.ProfitRateRounding | app.js:267 | the profit rate has 4 decimals, within half of the last one of (price - cost) / cost times 100 |
| Rows.RowOf | app.js:257-269 | the row has the entry's name, balance, price, cost price and today's rate in column order; today's profit never exceeds the total |
| Rows.ClampRule | app.js:263-265 | today's profit is the smaller of the estimate and the total profit |
| Rows.PercentCell | app.js:50-55 | `-` exactly for 0, otherwise the number's text followed by `%`; the profit-rate column (app.js:71-76) is the same function |
| Rows.RowExample | app.js:257-269 | balance 10 at price 2 with cost 1 and no move today: total 10, today 0, cell `-` |
| App.Jubi.constructor | app.js:22-23 | the cost cache starts empty |
| App.Jubi.GetCost | app.js:151-183 | returns `LookupCost` of the old cache, leaves the cache at `AfterLookup`, and logs one request exactly on a miss |
| App.Jubi.Finance | app.js:185-251 | the result, cache and request log are those of `FinanceOutcome` |
| App.Jubi.FilterListed | app.js:233-250 | the filter loop's result, cache and request log are those of `Resolve` over the held names in order |
| App.Jubi.Visit | app.js:234-247 | one iteration keeps the rest of the loop's outcome in step with `Resolve` |
| App.Jubi.Keep | app.js:237-245 | at a kept coin, a today's rate that is not finite ends the pass before any request; otherwise the loop stays in step with `Resolve` |
| App.Jubi.Push | app.js:244-245 | the cost lookup and the push keep the loop in step with `Resolve`; a missing cost ends the pass |
| App.Jubi.Format | app.js:253-273 | one row per entry, in order, each `RowOf` the entry, today's profit at most the total |

## Left out

- `request()` with its unbounded retry, `login()` and its cookie file (app.js:100-149): network and file I/O. The three responses and the trade-history request are inputs.
- `run()`, `render()`, the `tty-table` styling and `clearAndConsole` (app.js:80-108, 275-287): terminal output.
- The `setInterval` poll (app.js:293-301) and the overlap it allows between passes: timing and concurrency.
- The `moment()` timestamps in the request URLs and the `config` loading: environment inputs.
- IEEE-754 numbers: NaN, Infinity, `toFixed`'s exponential notation for large values and the binary rounding of `toFixed`/`parseFloat`. The model works on exact reals.
- Valuation.FinanceOrder: the model takes the names of `my_coins` in first-appearance order. `Object.keys(my_coins)` (app.js:233) lists names that are array indices first, in ascending numeric order, so the stated order matches the source only for names that are not array indices. For example, with the keys "10_balance" then "9_balance" the source visits "9" first, and the model visits "10" first.
- The order `Object.keys` gives the keys of the three responses: the model takes it as given in its inputs.
- Prototype-named keys such as `constructor`, and string-valued numbers in the JSON: all values are reals.
- The number-to-text conversion of the percentage formatter: a parameter.
- Costs.AverageCost: where the net quantity is 0 the source stores NaN or Infinity in the cache and goes on. The model returns `None` and leaves the cache unchanged.
- App.Jubi.GetCost: for the same case it returns `None` instead of NaN or Infinity, and a later call fetches again. The source does so only for a stored NaN (a net amount of 0 too). A stored +Infinity or -Infinity (a net amount other than 0) is truthy: the source serves every later call from the cache, without a request, for the life of the process.
- App.Jubi.Finance: a coin with no net position ends the pass with `NoPosition(coin)`. The source would push an entry with a NaN or Infinity cost.
- Valuation.Resolve: a kept coin whose yesterday price is 0 ends the pass with `ZeroYesterdayPrice(coin)`, before its cost is looked up. The source would push an entry with an infinite `today_rate`, call `getCost` for it and go on with the loop.
- Holdings.NameOf: JavaScript's `length`, `substring` and `endsWith` count UTF-16 code units; the model counts characters. The two differ for keys with characters outside the Basic Multilingual Plane. For example, "😀balance" gives the name "\uD83D" in the source and "" in the model.
- Rows.ProfitRate: with a cost price of 0 it is `None`. The source would show Infinity or NaN.
- Valuation.Included: a held asset without a `balance` field is not kept. The source gets the same result from `NaN > 5` being false.
- The 100-record page size of the trade-history request: it belongs to `fetch`.
