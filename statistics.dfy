/**
 * Market statistics over the trade history: the sum and mean of a field, the
 * population standard deviation, the volatility (coefficient of variation),
 * the total traded volume and the trend of the last two prices.
 *
 * The source accumulates each sum in a loop; those loops are the methods
 * below, each proved against the recursive function that specifies it.
 */
module Statistics {

  import opened Market

  /** What the model needs of the platform's square root (`Math.sqrt`). */
  ghost predicate SquareRootLaws(sqrt: real -> real)
  {
    && sqrt(0.0) == 0.0
    && forall x: real :: x > 0.0 ==> sqrt(x) > 0.0
  }

  /** The sum of one field over a sample, accumulated oldest to newest. */
  function FieldSum(data: seq<TradeRecord>, key: Field): (sum: real)
  {
    if data == [] then 0.0
    else FieldSum(data[..|data| - 1], key) + Value(data[|data| - 1], key)
  }

  /** The arithmetic mean of one field. */
  function Mean(data: seq<TradeRecord>, key: Field): (average: real)
    requires |data| > 0
  {
    FieldSum(data, key) / |data| as real
  }

  /** The sum of the squared deviations of one field from `average`. */
  function SquaredDeviations(data: seq<TradeRecord>, average: real, key: Field): (sum: real)
  {
    if data == [] then 0.0
    else
      SquaredDeviations(data[..|data| - 1], average, key) + Square(Value(data[|data| - 1], key) - average)
  }

  /** `Math.pow(x, 2)`. */
  function Square(x: real): (square: real)
  {
    x * x
  }

  /** The population standard deviation (divided by N) around `average`. */
  function StandardDeviation(data: seq<TradeRecord>, average: real, key: Field, sqrt: real -> real): (deviation: real)
    requires |data| > 0
  {
    sqrt(SquaredDeviations(data, average, key) / |data| as real)
  }

  /** The volatility is the standard deviation relative to the mean. */
  function Volatility(average: real, standardDeviation: real): (v: real)
    requires average != 0.0
    ensures v * average == standardDeviation
    ensures average > 0.0 ==> (v > 0.0 <==> standardDeviation > 0.0)
  {
    standardDeviation / average
  }

  /** The total traded volume: the sum of `bid_amount + ask_amount` over the trades. */
  function Volume(data: seq<TradeRecord>): (volume: real)
  {
    if data == [] then 0.0
    else Volume(data[..|data| - 1]) + (data[|data| - 1].bidAmount + data[|data| - 1].askAmount)
  }

  /** The trend of the two most recent prices. */
  function DetermineTrend(data: seq<TradeRecord>): (t: Trend)
    requires |data| >= 2
    ensures t == Buy <==> data[|data| - 1].price > data[|data| - 2].price
    ensures t == Sell <==> data[|data| - 1].price < data[|data| - 2].price
    ensures t == Sideways <==> data[|data| - 1].price == data[|data| - 2].price
  {
    var length := |data|;
    if data[length - 1].price > data[length - 2].price then Buy
    else if data[length - 1].price < data[length - 2].price then Sell
    else Sideways
  }

  // ---------------------------------------------------------------------------
  // The accumulating loops

  method CalculateAverage(data: seq<TradeRecord>, key: Field) returns (average: real)
    requires |data| > 0
    ensures average == Mean(data, key)
  {
    var sum := 0.0;
    for i := 0 to |data|
      invariant sum == FieldSum(data[..i], key)
    {
      assert data[..i + 1][..i] == data[..i];
      sum := sum + Value(data[i], key);
    }
    assert data[..|data|] == data;
    average := sum / |data| as real;
  }

  method CalculateStandardDeviation(data: seq<TradeRecord>, average: real, key: Field, sqrt: real -> real)
    returns (standardDeviation: real)
    requires |data| > 0
    ensures standardDeviation == StandardDeviation(data, average, key, sqrt)
  {
    var sum := 0.0;
    for i := 0 to |data|
      invariant sum == SquaredDeviations(data[..i], average, key)
    {
      assert data[..i + 1][..i] == data[..i];
      sum := sum + Square(Value(data[i], key) - average);
    }
    assert data[..|data|] == data;
    standardDeviation := sqrt(sum / |data| as real);
  }

  method CalculateTradingVolume(data: seq<TradeRecord>) returns (volume: real)
    ensures volume == Volume(data)
  {
    volume := 0.0;
    for i := 0 to |data|
      invariant volume == Volume(data[..i])
    {
      assert data[..i + 1][..i] == data[..i];
      volume := volume + (data[i].bidAmount + data[i].askAmount);
    }
    assert data[..|data|] == data;
  }

  // ---------------------------------------------------------------------------
  // Properties

  /** The volume of two consecutive samples is the sum of their volumes. */
  lemma {:induction false} VolumeAdditive(a: seq<TradeRecord>, b: seq<TradeRecord>)
    ensures Volume(a + b) == Volume(a) + Volume(b)
    decreases |b|
  {
    if b == [] {
      assert a + b == a;
    } else {
      var front := b[..|b| - 1];
      assert (a + b)[..|a + b| - 1] == a + front;
      assert (a + b)[|a + b| - 1] == b[|b| - 1];
      VolumeAdditive(a, front);
    }
  }

  /** A field bounded by `lo` and `hi` in every trade has its sum bounded by N*lo and N*hi. */
  lemma {:induction false} FieldSumBounds(data: seq<TradeRecord>, key: Field, lo: real, hi: real)
    requires forall i :: 0 <= i < |data| ==> lo <= Value(data[i], key) <= hi
    ensures |data| as real * lo <= FieldSum(data, key) <= |data| as real * hi
  {
    if data != [] {
      var front, v := data[..|data| - 1], Value(data[|data| - 1], key);
      var m := |front| as real;
      FieldSumBounds(front, key, lo, hi);
      assert FieldSum(data, key) == FieldSum(front, key) + v;
      assert lo <= v <= hi;
      assert |data| as real == m + 1.0;
      assert (m + 1.0) * lo == m * lo + lo && (m + 1.0) * hi == m * hi + hi;
    }
  }

  /** The mean lies between any lower and upper bound of the field. */
  lemma MeanWithinBounds(data: seq<TradeRecord>, key: Field, lo: real, hi: real)
    requires |data| > 0
    requires forall i :: 0 <= i < |data| ==> lo <= Value(data[i], key) <= hi
    ensures lo <= Mean(data, key) <= hi
  {
    FieldSumBounds(data, key, lo, hi);
    var n := |data| as real;
    assert Mean(data, key) * n == FieldSum(data, key);
  }

  /** A non-empty sample of a positive field has a positive sum. */
  lemma {:induction false} FieldSumPositive(data: seq<TradeRecord>, key: Field)
    requires |data| > 0
    requires forall i :: 0 <= i < |data| ==> Value(data[i], key) > 0.0
    ensures FieldSum(data, key) > 0.0
  {
    if |data| > 1 {
      FieldSumPositive(data[..|data| - 1], key);
    }
  }

  /** A non-empty sample of a positive field has a positive mean. */
  lemma MeanPositive(data: seq<TradeRecord>, key: Field)
    requires |data| > 0
    requires forall i :: 0 <= i < |data| ==> Value(data[i], key) > 0.0
    ensures Mean(data, key) > 0.0
  {
    FieldSumPositive(data, key);
  }

  /** A sum of squares is never negative. */
  lemma {:induction false} SquaredDeviationsNonNegative(data: seq<TradeRecord>, average: real, key: Field)
    ensures SquaredDeviations(data, average, key) >= 0.0
  {
    if data != [] {
      SquaredDeviationsNonNegative(data[..|data| - 1], average, key);
      SquareNonNegative(Value(data[|data| - 1], key) - average);
    }
  }

  /** A sample whose field is constant has no spread: its mean is the constant,
      its standard deviation 0, and so is its volatility when the constant is not 0. */
  lemma {:induction false} ConstantSampleHasNoSpread(data: seq<TradeRecord>, key: Field, c: real, sqrt: real -> real)
    requires |data| > 0
    requires SquareRootLaws(sqrt)
    requires forall i :: 0 <= i < |data| ==> Value(data[i], key) == c
    ensures Mean(data, key) == c
    ensures SquaredDeviations(data, c, key) == 0.0
    ensures StandardDeviation(data, c, key, sqrt) == 0.0
    ensures c != 0.0 ==> Volatility(c, StandardDeviation(data, c, key, sqrt)) == 0.0
  {
    MeanWithinBounds(data, key, c, c);
    NoDeviationFromConstant(data, key, c);
  }

  lemma {:induction false} NoDeviationFromConstant(data: seq<TradeRecord>, key: Field, c: real)
    requires forall i :: 0 <= i < |data| ==> Value(data[i], key) == c
    ensures SquaredDeviations(data, c, key) == 0.0
  {
    if data != [] {
      NoDeviationFromConstant(data[..|data| - 1], key, c);
    }
  }

  /** When the last two values differ, the sample has a positive spread
      around any average. */
  lemma SpreadPositiveWhenLastTwoDiffer(data: seq<TradeRecord>, average: real, key: Field)
    requires |data| >= 2
    requires Value(data[|data| - 1], key) != Value(data[|data| - 2], key)
    ensures SquaredDeviations(data, average, key) > 0.0
  {
    var n := |data|;
    var front := data[..n - 1];
    assert front[..n - 2] == data[..n - 2];
    assert front[n - 2] == data[n - 2];
    SquaredDeviationsNonNegative(data[..n - 2], average, key);
    SquareNonNegative(Value(data[n - 1], key) - average);
    SquareNonNegative(Value(data[n - 2], key) - average);
    if Value(data[n - 1], key) != average {
      SquarePositive(Value(data[n - 1], key) - average);
    } else {
      SquarePositive(Value(data[n - 2], key) - average);
    }
  }

  /** A square is never negative. */
  lemma SquareNonNegative(x: real)
    ensures Square(x) >= 0.0
  {
    if x != 0.0 {
      SquarePositive(x);
    }
  }

  /** The square of a non-zero number is positive. */
  lemma SquarePositive(x: real)
    requires x != 0.0
    ensures Square(x) > 0.0
  {
    if x > 0.0 {
      ProductOfPositives(x, x, Square(x));
    } else {
      ProductOfPositives(-x, -x, Square(x));
    }
  }

  /** The product of two positive numbers is positive; the product is passed
      as `p` so that callers keep the fact about their own term. */
  lemma ProductOfPositives(a: real, b: real, p: real)
    requires a > 0.0 && b > 0.0 && p == a * b
    ensures p > 0.0
  {
  }
}
