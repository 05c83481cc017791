# dexbot risk strategy — a Dafny model

This project models the trading decision of dexbot's risk strategy
(`strategies/riskstrategy.js`). One cycle of the strategy looks up the
configured market, reads the account's open orders, the order book, the
recent trade history and the balances, and passes them through a fixed
sequence of gates:

1. the market named by the symbol must exist;
2. the account must have no open order in that market;
3. the traded volume of the history must reach the configured fraction of the
   average volume per trade;
4. balances must be returned;
5. the volatility of the prices (standard deviation over mean) must not exceed
   the configured maximum;
6. the trend of the last two prices must not be sideways;
7. the account must hold a non-zero amount of the token the trade spends (the
   quote token of `base_quote` for a BUY, the base token for a SELL).

When every gate passes, exactly one limit order is submitted. It is on the
side of the trend. Its quantity is the smaller of a volatility-scaled risk
quantity and the number of whole units the capital buys. Its price is the
level of the first book entry, on the side of the trend, at which the running
depth reaches a tenth of the traded volume.

The model has one module per component:

- `Market` holds the records the strategy reads: trades, book entries,
  balances and open orders, plus the trend and the order side.
- `Statistics` holds the mean, the standard deviation, the volatility, the
  traded volume and the trend. The three accumulating loops are methods,
  each proved equal to a recursive specification function.
- `Liquidity` holds the volume gate.
- `Sizing` holds the order quantity.
- `Depth` holds the depth search: a loop with an early exit, proved equal to
  a function whose result is characterised as the first reaching entry.
- `Symbols` splits the symbol on `_` and selects the bid and ask tokens.
- `Strategy` holds the cycle. `Decide` is the decision as a function of a
  snapshot of the exchange's answers. `Trade` is the step-by-step cycle,
  proved to return `Decide`'s outcome. `DecideGuarded` is the decision with
  the two missing guards described under Findings.

The exchange calls are replaced by the `Snapshot` they would return, and the
order submission by the returned `Outcome`. `Math.sqrt` in the standard
deviation is a parameter `sqrt` constrained by `Statistics.SquareRootLaws`:
the root of 0 is 0 and the root of a positive number is positive.
`Math.sqrt(252)` is the constant `Sizing.Sqrt252`.

In these edge cases the model follows JavaScript's semantics:

- An empty balance list passes the balances gate, because an empty array is
  truthy. Only absent balances end the cycle.
- An empty history fails the volume gate, because the average divides 0 by 0
  and `0 >= NaN` is false.
- If a one-trade history passes the volume and balances gates, the trend
  computation then reads a missing element and throws. The cycle ends with
  `Error(HistoryTooShort)`.
- A symbol without `_` has an undefined bid token. A BUY then finds no balance
  and ends with `Error(NoTokenBalance(None))`.

## Model

| member | source | states |
|---|---|---|
| Statistics.CalculateAverage | strategies/riskstrategy.js:13-19 | The accumulated sum divided by the length is the mean of the field over the whole sample |
| Statistics.CalculateStandardDeviation | strategies/riskstrategy.js:21-27 | The accumulated squared deviations, averaged and rooted, give the population standard deviation around the given average |
| Statistics.Volatility | strategies/riskstrategy.js:29-31 | The volatility times the mean is the standard deviation; for a positive mean it is positive exactly when the deviation is |
| Statistics.CalculateTradingVolume | strategies/riskstrategy.js:33-39 | The accumulated total is the sum of bid amount plus ask amount over every trade |
| Statistics.VolumeAdditive | strategies/riskstrategy.js:33-39 | The volume of two concatenated histories is the sum of their volumes |
| Statistics.FieldSumBounds | strategies/riskstrategy.js:13-19 | A field bounded by lo and hi in every trade has a sum between N*lo and N*hi |
| Statistics.MeanWithinBounds | strategies/riskstrategy.js:13-19 | The mean lies between any lower and upper bound of the field |
| Statistics.MeanPositive | strategies/riskstrategy.js:13-19 | The mean of a positive field over a non-empty sample is positive, so the volatility's division is defined |
| Statistics.SquaredDeviationsNonNegative | strategies/riskstrategy.js:21-27 | The sum of squared deviations is never negative |
| Statistics.ConstantSampleHasNoSpread | strategies/riskstrategy.js:13-31 | A constant sample has the constant as mean, no squared deviation, standard deviation 0, and volatility 0 when the constant is not 0 |
| Statistics.SpreadPositiveWhenLastTwoDiffer | strategies/riskstrategy.js:21-27 | When the last two values differ, the squared deviations around any average are positive |
| Statistics.DetermineTrend | strategies/riskstrategy.js:53-61 | BUY iff the last price exceeds the one before, SELL iff it is below, SIDEWAYS iff they are equal |
| Liquidity.AverageTradingVolume | strategies/riskstrategy.js:41-43 | The average times the number of trades is the total traded volume |
| Liquidity.MinimumTradingVolume | strategies/riskstrategy.js:45-47 | The floor times the number of trades is the configured percentage of the total traded volume |
| Liquidity.IsTradingVolumeSufficient | strategies/riskstrategy.js:41-51 | An empty history never passes; a non-empty history with no volume always passes |
| Liquidity.SufficientIffPercentageAtMostCount | strategies/riskstrategy.js:41-51 | For a history with positive volume the gate passes exactly when the configured percentage is at most the number of trades |
| Sizing.OrderQuantity | strategies/riskstrategy.js:63-66 | The quantity is at most both floors and equal to one of them, and its notional at the current price is at most the capital |
| Sizing.NotionalWithinCapital | strategies/riskstrategy.js:65 | Any whole quantity within the affordability floor costs at most the capital |
| Depth.LevelFrom | strategies/riskstrategy.js:68-86 | A level is returned only from an entry whose running total reaches the threshold with no earlier entry reaching it; none is returned iff no entry reaches it |
| Depth.OptimalLevel | strategies/riskstrategy.js:68-86 | The level is that of the first entry on the trend's side (bids for BUY, asks otherwise) whose running total reaches a tenth of the volume; none iff no entry does |
| Depth.GetOptimalLevel | strategies/riskstrategy.js:68-86 | The scan with early exit returns exactly the optimal level |
| Depth.CumulativeMonotone | strategies/riskstrategy.js:70-84 | With no negative entries the running total over a prefix never exceeds the total over the whole side |
| Depth.NoLevelIffDepthInsufficient | strategies/riskstrategy.js:68-86 | With no negative entries, no level is found iff the side is empty or its whole depth stays below the threshold |
| Symbols.BidToken | strategies/riskstrategy.js:10 | The bid token is undefined exactly when the symbol has no separator, and otherwise holds no separator |
| Symbols.AskToken | strategies/riskstrategy.js:11 | The ask token is the longest prefix of the symbol without a separator |
| Symbols.SplitHasSeveralPartsIffSeparator | strategies/riskstrategy.js:10 | The split has a second part exactly when the symbol holds a separator |
| Symbols.SplitHead | strategies/riskstrategy.js:11 | The first part is a prefix of the symbol, followed by a separator whenever it is shorter |
| Symbols.Split | strategies/riskstrategy.js:10-11 | The split yields at least one part and no part contains the separator |
| Symbols.JoinSplit | strategies/riskstrategy.js:10-11 | Joining the parts with the separator gives back the symbol |
| Symbols.SplitPlain | strategies/riskstrategy.js:10-11 | A string without separator splits into itself alone |
| Symbols.SplitPrefix | strategies/riskstrategy.js:10-11 | A separator-free prefix becomes the head of the first part |
| Symbols.SplitPair | strategies/riskstrategy.js:10-11 | `base_quote` with separator-free tokens splits into exactly the two tokens |
| Symbols.TokensOfPair | strategies/riskstrategy.js:10-11 | For `base_quote` the bid token is the quote and the ask token the base |
| Symbols.TokensOfPlainSymbol | strategies/riskstrategy.js:10-11 | A symbol without separator has no bid token and is its own ask token |
| Market.OrderSideOf | strategies/riskstrategy.js:88-91 | The order is a BUY order exactly when the trend is BUY |
| Strategy.OrdersForMarket | strategies/riskstrategy.js:93-103 | An order is kept iff it belongs to the market, each as many times as the account has it; none is added |
| Strategy.SelectedToken | strategies/riskstrategy.js:163-164 | No token is selected exactly for a BUY on a symbol without separator; a selected token holds no separator |
| Strategy.MarketVolatility | strategies/riskstrategy.js:141-143 | The mean price is positive, the volatility times the mean price is the standard deviation, and with a lawful square root the volatility is not negative |
| Strategy.FindAmount | strategies/riskstrategy.js:139-140 | No amount iff no balance has the token's currency; otherwise the amount of the first balance that has it |
| Strategy.Decide | strategies/riskstrategy.js:105-187 | Gate by gate, in the source's order: an unknown market is an error; open orders end the cycle reporting their number; then insufficient volume, absent balances, a history too short for the trend, excess volatility, a sideways trend and an absent or zero balance of the selected token each end it with their own outcome; an order is submitted iff every gate passes, on the trend's side, sized by the order quantity within the capital, at the optimal level |
| Strategy.Trade | strategies/riskstrategy.js:105-187 | The gate-by-gate cycle returns exactly the outcome of the decision |
| Strategy.VolatilityPositiveWhenTrending | strategies/riskstrategy.js:141-176 | With positive prices and a trend that is not sideways, the volatility is positive, so the sizing division is defined |
| Strategy.CapitalTokenOfPair | strategies/riskstrategy.js:163-164 | For `base_quote` a BUY spends the quote token and a SELL the base token |
| Strategy.DecideGuarded | strategies/riskstrategy.js:181-183 | It submits iff the decision submits with a level and a positive quantity, and then submits the same order; a decision without a level ends with no executable level, one with a non-positive quantity with a non-positive quantity; any other decision stands |
| Strategy.FallingHistoryPassesAllGates | strategies/riskstrategy.js:105-176 | Under a configuration with percentage 1 whose volatility ceiling is that history's own volatility, a history falling from 100 to 90, with any non-zero holding of the base token, passes every gate and sells |
| Strategy.UnpricedOrderIsSubmitted | strategies/riskstrategy.js:181-183 | With an empty ask side the cycle as written submits a sell order with no level; the guarded decision does not |
| Strategy.CapitalBelowOneUnitSizesZero | strategies/riskstrategy.js:63-66 | 5 units of capital at a price of 90 size to 0 whatever the volatility |
| Strategy.GuardedDecisionSubmits | strategies/riskstrategy.js:176-183 | With 100 units of the base token and one ask at 95, the guarded decision sells one unit at 95 |
| Strategy.ZeroQuantityIsSubmitted | strategies/riskstrategy.js:176-183 | The cycle as written submits a sell order for 0 units; the guarded decision does not |

## Left out

- The exchange and RPC calls (market lookup, open orders, order book, trades, balances, order submission) are not modelled; their results are the `Snapshot` fields and the submission is the returned `Outcome`.
- `async`/`await`, `Promise.all` and the try/catch are not modelled. Only the two throws the decision itself causes are `Error` outcomes: the unknown market and the history too short for the trend.
- A failed exchange fetch (order book, trades, balances) and a rejected order submission are caught and logged by the source; the model gives them no outcome.
- Logging and configuration loading are not modelled; the configuration is the immutable `Config` value.
- The fetch sizes (100 book levels, `historicalDataCount` trades) are not modelled; the snapshot holds whatever was fetched.
- Floating point is not modelled: values are exact reals, `Math.floor` is `.Floor`, and NaN and Infinity do not arise.
- Strategy.Decide: requires positive prices, so the division by the mean and the sizing division are defined; histories with a zero or negative price, where the source would compute NaN or Infinity, are outside the model.
- Strategy.Trade: requires positive prices, for the same reason as `Strategy.Decide`.
- Statistics.StandardDeviation: `Math.sqrt` is a parameter, and the model knows only that the root of 0 is 0 and the root of a positive number is positive.
- `Number(amount)` and the truthiness of string amounts are not modelled; an amount is an `Option<real>`, and absent or zero ends the cycle.
- The book entries' `bid` and `ask` fields are one `amount` field; `getOptimalLevel`'s two copies of the loop are one loop over the chosen side.
- Trade timestamps are not modelled, since no decision reads them.

## Findings

| source | as written | input that shows it | evidently intended | confidence | as-written member | corrected member |
|---|---|---|---|---|---|---|
| strategies/riskstrategy.js:181-183 | the level returned by `getOptimalLevel` is passed to the order submission even when it is undefined | prices 100 then 90, 5 units of the base token, an empty ask side | no order when no book level absorbs the volume | not executed | Strategy.UnpricedOrderIsSubmitted | Strategy.DecideGuarded |
| strategies/riskstrategy.js:176-183 | the order quantity is submitted without checking that it is positive | prices 100 then 90, 5 units of the base token, one ask at 95 | no order for 0 units | not executed | Strategy.ZeroQuantityIsSubmitted | Strategy.DecideGuarded |
