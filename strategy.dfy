/**
 * The risk strategy's decision cycle. One cycle reads the account's open
 * orders, the order book, the trade history and the balances, passes them
 * through a fixed sequence of gates, and either ends without an order or
 * submits one limit order.
 *
 * The exchange calls are replaced by a snapshot of what they return, and the
 * submission by the returned outcome. `Decide` is the decision as a function
 * of the snapshot; `Trade` is the step-by-step cycle, proved to reach it.
 */
module Strategy {

  import opened Wrappers
  import opened Market
  import opened Statistics
  import opened Liquidity
  import opened Sizing
  import opened Depth
  import opened Symbols

  /** The strategy's configuration, read once and never changed. */
  datatype Config = Config(
    symbol: string,
    riskManagementFactor: real,
    minimumTradingVolumePercentage: real,
    maximumVolatility: real)

  /** What the exchange calls of one cycle return. */
  datatype Snapshot = Snapshot(
    market: Option<nat>,               // the id of the market named by the symbol, if it exists
    openOrders: seq<OpenOrder>,        // every open order of the account
    book: OrderBook,                   // the order book of the market
    history: seq<TradeRecord>,               // the recent trades, oldest first
    balances: Option<seq<Balance>>)    // the account's balances, when any are returned

  /** Why a cycle ended without an order, as an expected outcome. */
  datatype Abstention =
    | OrdersOnBooks(count: nat)
    | InsufficientVolume
    | VolatilityTooHigh
    | SidewaysTrend
    | NoExecutableLevel
    | NonPositiveQuantity

  /** Why a cycle ended without an order, as an error. */
  datatype Failure =
    | UnknownMarket
    | NoBalances
    | HistoryTooShort
    | NoTokenBalance(token: Option<string>)

  /** The end of a cycle. */
  datatype Outcome =
    | NoAction(reason: Abstention)
    | Error(failure: Failure)
    | Submit(side: OrderSide, quantity: int, level: Option<real>)

  // ---------------------------------------------------------------------------
  // Inputs of the decision

  /** The open orders of the account in the given market, in order. */
  function OrdersForMarket(orders: seq<OpenOrder>, marketId: nat): (r: seq<OpenOrder>)
    ensures forall o :: o in r <==> o in orders && o.marketId == marketId
    ensures forall o :: multiset(r)[o] == if o.marketId == marketId then multiset(orders)[o] else 0
    ensures |r| <= |orders|
  {
    if orders == [] then []
    else
      var rest := OrdersForMarket(orders[1..], marketId);
      assert orders == [orders[0]] + orders[1..];
      if orders[0].marketId == marketId then [orders[0]] + rest else rest
  }

  /** The amount of the first balance whose currency is the token; none for an undefined token. */
  function FindAmount(balances: seq<Balance>, token: Option<string>): (r: Option<real>)
    ensures r.None? <==> forall i :: 0 <= i < |balances| ==> Some(balances[i].currency) != token
    ensures r.Some? ==> exists i :: 0 <= i < |balances| && Some(balances[i].currency) == token
                                    && balances[i].amount == r.value
                                    && forall j :: 0 <= j < i ==> Some(balances[j].currency) != token
  {
    if balances == [] then None
    else if Some(balances[0].currency) == token then Some(balances[0].amount)
    else
      var r := FindAmount(balances[1..], token);
      assert forall i :: 1 <= i < |balances| ==> balances[i] == balances[1..][i - 1];
      r
  }

  /** The token capital is drawn from: the bid token for a BUY, the ask token otherwise. */
  function SelectedToken(trend: Trend, symbol: string): (token: Option<string>)
    ensures token.None? <==> trend == Buy && Separator !in symbol
    ensures token.Some? ==> Separator !in token.value
  {
    if trend == Buy then BidToken(symbol) else Some(AskToken(symbol))
  }

  /** Prices on the exchange are positive. */
  predicate PricesPositive(history: seq<TradeRecord>)
  {
    forall i :: 0 <= i < |history| ==> history[i].price > 0.0
  }

  /** The price of the most recent trade. */
  function LastPrice(history: seq<TradeRecord>): (price: real)
    requires |history| > 0
  {
    history[|history| - 1].price
  }

  /** The volatility of the history's prices. */
  function MarketVolatility(history: seq<TradeRecord>, sqrt: real -> real): (volatility: real)
    requires |history| > 0 && PricesPositive(history)
    ensures Mean(history, Price) > 0.0
    ensures volatility * Mean(history, Price) == StandardDeviation(history, Mean(history, Price), Price, sqrt)
    ensures SquareRootLaws(sqrt) ==> volatility >= 0.0
  {
    assert forall i :: 0 <= i < |history| ==> Value(history[i], Price) > 0.0;
    MeanPositive(history, Price);
    var average := Mean(history, Price);
    SquaredDeviationsNonNegative(history, average, Price);
    Volatility(average, StandardDeviation(history, average, Price, sqrt))
  }

  /** The account has an open order in the market. */
  ghost predicate HasOpenOrders(s: Snapshot)
  {
    s.market.Some? && exists o :: o in s.openOrders && o.marketId == s.market.value
  }

  /** The cycle gets past the market lookup and the open-order gate. */
  ghost predicate ReachesVolumeGate(s: Snapshot)
  {
    s.market.Some? && !HasOpenOrders(s)
  }

  /** The cycle gets past the volume gate too. */
  ghost predicate ReachesBalancesGate(s: Snapshot, c: Config)
  {
    ReachesVolumeGate(s) && IsTradingVolumeSufficient(s.history, c.minimumTradingVolumePercentage)
  }

  /** The cycle has balances and a history long enough for the trend. */
  ghost predicate ReachesVolatilityGate(s: Snapshot, c: Config)
  {
    ReachesBalancesGate(s, c) && s.balances.Some? && |s.history| >= 2
  }

  /** The cycle gets past the volatility gate too. */
  ghost predicate ReachesTrendGate(s: Snapshot, c: Config, sqrt: real -> real)
    requires PricesPositive(s.history)
  {
    ReachesVolatilityGate(s, c) && MarketVolatility(s.history, sqrt) <= c.maximumVolatility
  }

  /** The cycle gets past the trend gate and looks up the selected token's balance. */
  ghost predicate ReachesTokenGate(s: Snapshot, c: Config, sqrt: real -> real)
    requires PricesPositive(s.history)
  {
    ReachesTrendGate(s, c, sqrt) && DetermineTrend(s.history) != Sideways
  }

  /** Every gate of the cycle lets it through. */
  ghost predicate AllGatesPass(s: Snapshot, c: Config, sqrt: real -> real)
    requires PricesPositive(s.history)
  {
    && ReachesTokenGate(s, c, sqrt)
    && var amount := FindAmount(s.balances.value, SelectedToken(DetermineTrend(s.history), c.symbol));
       amount.Some? && amount.value != 0.0
  }

  // ---------------------------------------------------------------------------
  // The decision

  /**
   * The outcome of one cycle, as the source decides it. Each gate can end the
   * cycle; when all of them pass exactly one order is submitted, on the side
   * of the trend, sized from the balance of the selected token and priced at
   * the optimal level, which may be undefined.
   */
  function Decide(s: Snapshot, c: Config, sqrt: real -> real): (r: Outcome)
    requires SquareRootLaws(sqrt) && PricesPositive(s.history)
    ensures s.market.None? ==> r == Error(UnknownMarket)
    ensures HasOpenOrders(s) ==> r == NoAction(OrdersOnBooks(|OrdersForMarket(s.openOrders, s.market.value)|))
    ensures ReachesVolumeGate(s) && !IsTradingVolumeSufficient(s.history, c.minimumTradingVolumePercentage)
            ==> r == NoAction(InsufficientVolume)
    ensures ReachesBalancesGate(s, c) && s.balances.None? ==> r == Error(NoBalances)
    ensures ReachesBalancesGate(s, c) && s.balances.Some? && |s.history| < 2 ==> r == Error(HistoryTooShort)
    ensures ReachesVolatilityGate(s, c) && MarketVolatility(s.history, sqrt) > c.maximumVolatility
            ==> r == NoAction(VolatilityTooHigh)
    ensures ReachesTrendGate(s, c, sqrt) && DetermineTrend(s.history) == Sideways ==> r == NoAction(SidewaysTrend)
    ensures ReachesTokenGate(s, c, sqrt) ==>
              var token := SelectedToken(DetermineTrend(s.history), c.symbol);
              var amount := FindAmount(s.balances.value, token);
              amount.None? || amount.value == 0.0 ==> r == Error(NoTokenBalance(token))
    ensures !IsTradingVolumeSufficient(s.history, c.minimumTradingVolumePercentage) ==> !r.Submit?
    ensures s.balances.None? ==> !r.Submit?
    ensures |s.history| >= 2 && MarketVolatility(s.history, sqrt) > c.maximumVolatility ==> !r.Submit?
    ensures |s.history| >= 2 && DetermineTrend(s.history) == Sideways ==> !r.Submit?
    ensures r.Submit? <==> AllGatesPass(s, c, sqrt)
    ensures r.Submit? ==>
              var trend := DetermineTrend(s.history);
              var capital := FindAmount(s.balances.value, SelectedToken(trend, c.symbol)).value;
              && r.side == OrderSideOf(trend)
              && r.quantity <= AffordableQuantity(capital, LastPrice(s.history)).Floor
              && r.quantity as real * LastPrice(s.history) <= capital
              && MarketVolatility(s.history, sqrt) > 0.0
              && r.quantity == OrderQuantity(c.riskManagementFactor, capital, LastPrice(s.history),
                                             MarketVolatility(s.history, sqrt))
              && r.level == OptimalLevel(trend, s.book, Volume(s.history))
  {
    if s.market.None? then Error(UnknownMarket)
    else
      var openOrders := OrdersForMarket(s.openOrders, s.market.value);
      if |openOrders| > 0 then
        assert openOrders[0] in openOrders;
        NoAction(OrdersOnBooks(|openOrders|))
      else if !IsTradingVolumeSufficient(s.history, c.minimumTradingVolumePercentage) then
        NoAction(InsufficientVolume)
      else if s.balances.None? then Error(NoBalances)
      else if |s.history| < 2 then Error(HistoryTooShort)
      else
        var trend := DetermineTrend(s.history);
        var volatility := MarketVolatility(s.history, sqrt);
        if volatility > c.maximumVolatility then NoAction(VolatilityTooHigh)
        else if trend == Sideways then NoAction(SidewaysTrend)
        else
          var token := SelectedToken(trend, c.symbol);
          var amount := FindAmount(s.balances.value, token);
          if amount.None? || amount.value == 0.0 then Error(NoTokenBalance(token))
          else
            VolatilityPositiveWhenTrending(s.history, sqrt);
            Submit(OrderSideOf(trend),
                   OrderQuantity(c.riskManagementFactor, amount.value, LastPrice(s.history), volatility),
                   OptimalLevel(trend, s.book, Volume(s.history)))
  }

  /** The cycle, gate by gate, with the statistics accumulated as the source does. */
  method Trade(s: Snapshot, c: Config, sqrt: real -> real) returns (outcome: Outcome)
    requires SquareRootLaws(sqrt) && PricesPositive(s.history)
    ensures outcome == Decide(s, c, sqrt)
  {
    if s.market.None? {
      return Error(UnknownMarket);
    }
    var openOrders := OrdersForMarket(s.openOrders, s.market.value);
    if |openOrders| > 0 {
      return NoAction(OrdersOnBooks(|openOrders|));
    }
    var orderBookData, historyData := s.book, s.history;
    var tradingVolume := CalculateTradingVolume(historyData);
    if !IsTradingVolumeSufficient(historyData, c.minimumTradingVolumePercentage) {
      return NoAction(InsufficientVolume);
    }
    if s.balances.None? {
      return Error(NoBalances);
    }
    var balances := s.balances.value;
    var bidToken, askToken := BidToken(c.symbol), AskToken(c.symbol);
    var bidAmount := FindAmount(balances, bidToken);
    var askAmount := FindAmount(balances, Some(askToken));
    var averagePrice := CalculateAverage(historyData, Price);
    var standardDeviation := CalculateStandardDeviation(historyData, averagePrice, Price, sqrt);
    assert forall i :: 0 <= i < |historyData| ==> Value(historyData[i], Price) > 0.0;
    MeanPositive(historyData, Price);
    var volatility := Volatility(averagePrice, standardDeviation);
    if |historyData| < 2 {
      return Error(HistoryTooShort);
    }
    var trend := DetermineTrend(historyData);
    if volatility > c.maximumVolatility {
      return NoAction(VolatilityTooHigh);
    }
    if trend == Sideways {
      return NoAction(SidewaysTrend);
    }
    var amount := if trend == Buy then bidAmount else askAmount;
    var token := if trend == Buy then bidToken else Some(askToken);
    if amount.None? || amount.value == 0.0 {
      return Error(NoTokenBalance(token));
    }
    var capital := amount.value;
    var currentPrice := historyData[|historyData| - 1].price;
    VolatilityPositiveWhenTrending(historyData, sqrt);
    var orderQuantity := OrderQuantity(c.riskManagementFactor, capital, currentPrice, volatility);
    var optimalLevel := GetOptimalLevel(trend, orderBookData, tradingVolume);
    return Submit(OrderSideOf(trend), orderQuantity, optimalLevel);
  }

  // ---------------------------------------------------------------------------
  // Properties

  /** Once the trend is not sideways the volatility is positive, so sizing is defined. */
  lemma VolatilityPositiveWhenTrending(history: seq<TradeRecord>, sqrt: real -> real)
    requires SquareRootLaws(sqrt) && |history| >= 2 && PricesPositive(history)
    requires DetermineTrend(history) != Sideways
    ensures MarketVolatility(history, sqrt) > 0.0
  {
    assert forall i :: 0 <= i < |history| ==> Value(history[i], Price) > 0.0;
    MeanPositive(history, Price);
    var average := Mean(history, Price);
    SpreadPositiveWhenLastTwoDiffer(history, average, Price);
    var spread := SquaredDeviations(history, average, Price);
    var n := |history| as real;
    assert spread / n > 0.0;
    assert StandardDeviation(history, average, Price, sqrt) > 0.0;
  }

  /** For a symbol `base_quote`, a BUY spends the quote token and a SELL the base token. */
  lemma CapitalTokenOfPair(base: string, quote: string, trend: Trend)
    requires Separator !in base && Separator !in quote
    ensures SelectedToken(trend, base + [Separator] + quote)
            == if trend == Buy then Some(quote) else Some(base)
  {
    TokensOfPair(base, quote);
  }

  // ---------------------------------------------------------------------------
  // The two gaps of the cycle as written, and the guarded decision

  /**
   * The decision with the two missing guards in place: a cycle whose depth
   * search found no level, or whose sized quantity is not positive, ends
   * without an order instead of submitting it.
   */
  function DecideGuarded(s: Snapshot, c: Config, sqrt: real -> real): (r: Outcome)
    requires SquareRootLaws(sqrt) && PricesPositive(s.history)
    ensures r.Submit? ==> r.level.Some? && r.quantity > 0
    ensures r.Submit? <==> Decide(s, c, sqrt).Submit? && Decide(s, c, sqrt).level.Some?
                           && Decide(s, c, sqrt).quantity > 0
    ensures r.Submit? ==> r == Decide(s, c, sqrt)
    ensures !Decide(s, c, sqrt).Submit? ==> r == Decide(s, c, sqrt)
    ensures Decide(s, c, sqrt).Submit? && Decide(s, c, sqrt).level.None? ==> r == NoAction(NoExecutableLevel)
    ensures Decide(s, c, sqrt).Submit? && Decide(s, c, sqrt).level.Some? && Decide(s, c, sqrt).quantity <= 0
            ==> r == NoAction(NonPositiveQuantity)
  {
    var decision := Decide(s, c, sqrt);
    match decision
    case Submit(side, quantity, level) =>
      if level.None? then NoAction(NoExecutableLevel)
      else if quantity <= 0 then NoAction(NonPositiveQuantity)
      else decision
    case _ => decision
  }

  /** A two-trade history whose last price fell from 100 to 90. */
  function FallingHistory(): (history: seq<TradeRecord>)
  {
    [TradeRecord(100.0, 1.0, 1.0), TradeRecord(90.0, 1.0, 1.0)]
  }

  /** A configuration for `XPR_XMD` whose volatility ceiling is the falling history's volatility. */
  function WitnessConfig(sqrt: real -> real): (c: Config)
  {
    Config("XPR_XMD", 1.0, 1.0, MarketVolatility(FallingHistory(), sqrt))
  }

  /** The balances of an account holding `amount` XPR. */
  function WitnessBalances(amount: real): (balances: seq<Balance>)
  {
    [Balance("XPR", amount)]
  }

  /** The cycle on the falling history passes every gate and sells from the XPR held. */
  lemma FallingHistoryPassesAllGates(book: OrderBook, amount: real, sqrt: real -> real)
    requires SquareRootLaws(sqrt) && amount != 0.0
    ensures var s := Snapshot(Some(1), [], book, FallingHistory(), Some(WitnessBalances(amount)));
            && PricesPositive(s.history)
            && AllGatesPass(s, WitnessConfig(sqrt), sqrt)
            && DetermineTrend(s.history) == Sell
            && LastPrice(s.history) == 90.0
            && Volume(s.history) == 4.0
            && FindAmount(WitnessBalances(amount), SelectedToken(Sell, WitnessConfig(sqrt).symbol)) == Some(amount)
  {
    var h := FallingHistory();
    assert h[..1][..0] == [];
    assert h[..1] == [h[0]];
    assert Volume(h) == 4.0;
    SufficientIffPercentageAtMostCount(h, 1.0);
    assert "XPR_XMD" == "XPR" + [Separator] + "XMD";
    CapitalTokenOfPair("XPR", "XMD", Sell);
    assert FindAmount(WitnessBalances(amount), Some("XPR")) == Some(amount);
  }

  /** As written, the cycle submits an order without a price when the book side is empty. */
  lemma UnpricedOrderIsSubmitted(sqrt: real -> real)
    requires SquareRootLaws(sqrt)
    ensures var s := Snapshot(Some(1), [], OrderBook([], []), FallingHistory(), Some(WitnessBalances(5.0)));
            var r := Decide(s, WitnessConfig(sqrt), sqrt);
            r.Submit? && r.side == SellOrder && r.level == None
            && DecideGuarded(s, WitnessConfig(sqrt), sqrt) == NoAction(NoExecutableLevel)
  {
    FallingHistoryPassesAllGates(OrderBook([], []), 5.0, sqrt);
  }

  /** 5 units of capital at a price of 90 buy no whole unit, whatever the volatility. */
  lemma CapitalBelowOneUnitSizesZero(volatility: real)
    requires volatility > 0.0
    ensures OrderQuantity(1.0, 5.0, 90.0, volatility) == 0
  {
    var divisor := 90.0 * volatility * Sqrt252;
    ProductOfPositives(90.0 * volatility, Sqrt252, divisor);
    assert RiskQuantity(1.0, 5.0, 90.0, volatility) == 5.0 / divisor;
    assert 5.0 / divisor > 0.0;
    assert AffordableQuantity(5.0, 90.0).Floor == 0;
  }

  /** As written, the cycle submits an order for 0 units when the capital buys less than one unit. */
  lemma ZeroQuantityIsSubmitted(sqrt: real -> real)
    requires SquareRootLaws(sqrt)
    ensures var book := OrderBook([], [BookEntry(95.0, 1.0, 1.0)]);
            var s := Snapshot(Some(1), [], book, FallingHistory(), Some(WitnessBalances(5.0)));
            var r := Decide(s, WitnessConfig(sqrt), sqrt);
            r == Submit(SellOrder, 0, Some(95.0))
            && DecideGuarded(s, WitnessConfig(sqrt), sqrt) == NoAction(NonPositiveQuantity)
  {
    var book := OrderBook([], [BookEntry(95.0, 1.0, 1.0)]);
    FallingHistoryPassesAllGates(book, 5.0, sqrt);
    assert book.asks[..1] == book.asks;
    assert Reaches(book.asks, 4.0 * DepthParticipation, 0);
    VolatilityPositiveWhenTrending(FallingHistory(), sqrt);
    CapitalBelowOneUnitSizesZero(MarketVolatility(FallingHistory(), sqrt));
  }

  /** With a root that gives 5 for 25, the falling history's volatility is 5/95. */
  lemma FallingHistoryVolatility(sqrt: real -> real)
    requires SquareRootLaws(sqrt) && sqrt(25.0) == 5.0
    ensures MarketVolatility(FallingHistory(), sqrt) == 5.0 / 95.0
  {
    var h := FallingHistory();
    assert h[..1][..0] == [];
    assert h[..1] == [h[0]];
    assert FieldSum(h[..1], Price) == 100.0;
    assert FieldSum(h, Price) == 190.0;
    assert Mean(h, Price) == 95.0;
    assert SquaredDeviations(h[..1], 95.0, Price) == Square(5.0);
    assert Square(5.0) == 25.0 && Square(-5.0) == 25.0;
    assert SquaredDeviations(h, 95.0, Price) == 50.0;
    assert StandardDeviation(h, 95.0, Price, sqrt) == 5.0;
  }

  /** 100 units of capital at a price of 90 and a volatility of 5/95 size to one unit. */
  lemma HundredUnitsOfCapitalSizeOne()
    ensures OrderQuantity(1.0, 100.0, 90.0, 5.0 / 95.0) == 1
  {
    var divisor := 90.0 * (5.0 / 95.0) * Sqrt252;
    assert RiskQuantity(1.0, 100.0, 90.0, 5.0 / 95.0) == 100.0 / divisor;
    assert 1.0 <= 100.0 / divisor < 2.0;
    assert AffordableQuantity(100.0, 90.0) == 100.0 / 90.0;
    assert 1.0 <= 100.0 / 90.0 < 2.0;
  }

  /** The guarded decision still trades: with 100 XPR and one ask at 95 it sells one unit there. */
  lemma GuardedDecisionSubmits(sqrt: real -> real)
    requires SquareRootLaws(sqrt) && sqrt(25.0) == 5.0
    ensures var book := OrderBook([], [BookEntry(95.0, 1.0, 1.0)]);
            var s := Snapshot(Some(1), [], book, FallingHistory(), Some(WitnessBalances(100.0)));
            DecideGuarded(s, WitnessConfig(sqrt), sqrt) == Submit(SellOrder, 1, Some(95.0))
  {
    var book := OrderBook([], [BookEntry(95.0, 1.0, 1.0)]);
    FallingHistoryPassesAllGates(book, 100.0, sqrt);
    assert book.asks[..1] == book.asks;
    assert Reaches(book.asks, 4.0 * DepthParticipation, 0);
    FallingHistoryVolatility(sqrt);
    HundredUnitsOfCapitalSizeOne();
  }
}
