/**
 * The liquidity gate: the history's total traded volume must reach a
 * configured fraction of the average volume of a single trade.
 */
module Liquidity {

  import opened Market
  import opened Statistics

  /** The traded volume per trade of the history. */
  function AverageTradingVolume(data: seq<TradeRecord>): (average: real)
    requires |data| > 0
    ensures average * |data| as real == Volume(data)
  {
    Volume(data) / |data| as real
  }

  /** The volume floor: `percentage` times the average volume per trade. */
  function MinimumTradingVolume(data: seq<TradeRecord>, percentage: real): (minimum: real)
    requires |data| > 0
    ensures minimum * |data| as real == percentage * Volume(data)
  {
    percentage * AverageTradingVolume(data)
  }

  /**
   * Whether the volume of the history reaches the floor. On an empty history
   * the source divides 0 by 0 and compares 0 with NaN, which is false: the
   * empty history never passes.
   */
  function IsTradingVolumeSufficient(data: seq<TradeRecord>, percentage: real): (ok: bool)
    ensures ok ==> |data| > 0
    ensures |data| > 0 && Volume(data) == 0.0 ==> ok
  {
    |data| > 0 && Volume(data) >= MinimumTradingVolume(data, percentage)
  }

  /**
   * The floor is loose: once a history has traded anything, the gate passes
   * exactly when the configured percentage is at most the number of trades
   * (the total is compared with a fraction of one trade's average).
   */
  lemma SufficientIffPercentageAtMostCount(data: seq<TradeRecord>, percentage: real)
    requires |data| > 0 && Volume(data) > 0.0
    ensures IsTradingVolumeSufficient(data, percentage) <==> percentage <= |data| as real
  {
    var n := |data| as real;
    var a := AverageTradingVolume(data);
    assert a * n == Volume(data);
    ScaledByPositive(n, percentage, a, Volume(data), MinimumTradingVolume(data, percentage));
  }

  /** Scaling by a positive factor keeps the order of two numbers. */
  lemma ScaledByPositive(x: real, y: real, a: real, xa: real, ya: real)
    requires a > 0.0 && xa == x * a && ya == y * a
    ensures xa >= ya <==> x >= y
  {
    if x >= y {
      assert xa - ya == (x - y) * a;
    } else {
      assert ya - xa == (y - x) * a;
    }
  }
}
