/**
 * Position sizing: a volatility-scaled risk quantity, capped by what the
 * capital can buy at the current price, both floored to whole units.
 */
module Sizing {

  /** `Math.sqrt(252)` as the platform evaluates it: the annualisation over 252 trading days. */
  const Sqrt252: real := 15.874507866387544

  /** The risk-scaled quantity before flooring. */
  function RiskQuantity(riskFactor: real, capital: real, currentPrice: real, volatility: real): (quantity: real)
    requires currentPrice > 0.0 && volatility > 0.0
  {
    (riskFactor * capital) / (currentPrice * volatility * Sqrt252)
  }

  /** The affordability cap: how many whole units the capital buys. */
  function AffordableQuantity(capital: real, currentPrice: real): (quantity: real)
    requires currentPrice > 0.0
  {
    capital / currentPrice
  }

  /**
   * The order quantity: the smaller of the floored risk quantity and the
   * floored affordability cap. Its notional never exceeds the capital.
   */
  function OrderQuantity(riskFactor: real, capital: real, currentPrice: real, volatility: real): (q: int)
    requires currentPrice > 0.0 && volatility > 0.0
    ensures q <= AffordableQuantity(capital, currentPrice).Floor
    ensures q <= RiskQuantity(riskFactor, capital, currentPrice, volatility).Floor
    ensures q == AffordableQuantity(capital, currentPrice).Floor
         || q == RiskQuantity(riskFactor, capital, currentPrice, volatility).Floor
    ensures q as real * currentPrice <= capital
  {
    var risk := RiskQuantity(riskFactor, capital, currentPrice, volatility).Floor;
    var cap := AffordableQuantity(capital, currentPrice).Floor;
    var q := if risk <= cap then risk else cap;
    NotionalWithinCapital(q, capital, currentPrice);
    q
  }

  /** Any whole quantity within the affordability cap costs at most the capital. */
  lemma NotionalWithinCapital(q: int, capital: real, currentPrice: real)
    requires currentPrice > 0.0
    requires q <= AffordableQuantity(capital, currentPrice).Floor
    ensures q as real * currentPrice <= capital
  {
    var a := AffordableQuantity(capital, currentPrice);
    assert q as real <= a;
    assert a * currentPrice == capital;
    assert q as real * currentPrice <= a * currentPrice;
  }
}
