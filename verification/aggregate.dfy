/** The soft-weighted consensus year of a bucket (aioracle/scraper.py:254-268): the mean of
    the points' years, each weighted by the square root of max(1, forecaster count). */
module Aggregate {
  import opened Forecast

  /** What the model knows of the square root the caller supplies for `x ** 0.5`: it is
      non-negative on non-negative inputs and at least 1 from 1 on. */
  ghost predicate SqrtBounds(root: real -> real)
  {
    forall x: real :: 0.0 <= x ==> 0.0 <= root(x) && (1.0 <= x ==> 1.0 <= root(x))
  }

  /** `max(1, n) ** 0.5` */
  function Weight(root: real -> real, n: int): real
  {
    root(if n < 1 then 1.0 else n as real)
  }

  /** `total_weight` after the loop. */
  function TotalWeight(root: real -> real, points: seq<ForecastPoint>): real
    decreases |points|
  {
    if |points| == 0 then 0.0
    else Weight(root, points[0].numForecasters) + TotalWeight(root, points[1..])
  }

  /** `weighted_sum` after the loop. */
  function WeightedSum(root: real -> real, points: seq<ForecastPoint>): real
    decreases |points|
  {
    if |points| == 0 then 0.0
    else points[0].medianYear * Weight(root, points[0].numForecasters) + WeightedSum(root, points[1..])
  }

  /** Years added to the current year for the "unknown" placeholder of an empty bucket. */
  const PlaceholderOffset: int := 25

  /** `aggregate_forecasts`; `currentYear` stands for `datetime.now().year`. */
  function AggregateForecasts(root: real -> real, points: seq<ForecastPoint>, currentYear: int): (r: real)
    ensures |points| == 0 ==> r == (currentYear + PlaceholderOffset) as real
  {
    if |points| == 0 then (currentYear + PlaceholderOffset) as real
    else if TotalWeight(root, points) != 0.0 then WeightedSum(root, points) / TotalWeight(root, points)
    else points[0].medianYear
  }

  /** The smallest year of a non-empty list. */
  function MinYear(points: seq<ForecastPoint>): real
    requires 0 < |points|
    decreases |points|
  {
    if |points| == 1 then points[0].medianYear
    else
      var rest := MinYear(points[1..]);
      if points[0].medianYear <= rest then points[0].medianYear else rest
  }

  /** The largest year of a non-empty list. */
  function MaxYear(points: seq<ForecastPoint>): real
    requires 0 < |points|
    decreases |points|
  {
    if |points| == 1 then points[0].medianYear
    else
      var rest := MaxYear(points[1..]);
      if points[0].medianYear >= rest then points[0].medianYear else rest
  }

  lemma {:induction false} MinMaxBound(points: seq<ForecastPoint>)
    requires 0 < |points|
    ensures YearsWithin(points, MinYear(points), MaxYear(points))
    decreases |points|
  {
    if 1 < |points| {
      MinMaxBound(points[1..]);
      forall i | 1 <= i < |points|
        ensures MinYear(points) <= points[i].medianYear <= MaxYear(points)
      {
        assert points[i] == points[1..][i - 1];
      }
    }
  }

  /** Every weight is at least 1, so the total weight is at least the number of points. */
  lemma {:induction false} TotalWeightAtLeastCount(root: real -> real, points: seq<ForecastPoint>)
    requires SqrtBounds(root)
    ensures TotalWeight(root, points) >= |points| as real
    decreases |points|
  {
    if 0 < |points| {
      TotalWeightAtLeastCount(root, points[1..]);
      var n := points[0].numForecasters;
      assert 1.0 <= (if n < 1 then 1.0 else n as real);
    }
  }

  lemma MulMonotone(a: real, b: real, w: real)
    requires a <= b
    requires 0.0 <= w
    ensures a * w <= b * w
  {
  }

  lemma WeightNonNegative(root: real -> real, n: int)
    requires SqrtBounds(root)
    ensures 0.0 <= Weight(root, n)
  {
    assert 1.0 <= (if n < 1 then 1.0 else n as real);
  }

  /** Every point's weight is non-negative. */
  predicate WeightsNonNegative(root: real -> real, points: seq<ForecastPoint>)
  {
    forall i :: 0 <= i < |points| ==> 0.0 <= Weight(root, points[i].numForecasters)
  }

  lemma AllWeightsNonNegative(root: real -> real, points: seq<ForecastPoint>)
    requires SqrtBounds(root)
    ensures WeightsNonNegative(root, points)
  {
    forall i | 0 <= i < |points|
      ensures 0.0 <= Weight(root, points[i].numForecasters)
    {
      WeightNonNegative(root, points[i].numForecasters);
    }
  }

  /** The tail of a list of non-negative weights has non-negative weights. */
  lemma WeightsNonNegativeTail(root: real -> real, points: seq<ForecastPoint>)
    requires 0 < |points|
    requires WeightsNonNegative(root, points)
    ensures WeightsNonNegative(root, points[1..])
    ensures 0.0 <= Weight(root, points[0].numForecasters)
  {
    forall i | 0 <= i < |points[1..]|
      ensures 0.0 <= Weight(root, points[1..][i].numForecasters)
    {
      assert points[1..][i] == points[i + 1];
    }
  }

  /** Years of at least lo keep the weighted sum at least lo times the total weight. */
  lemma {:induction false} WeightedSumLower(root: real -> real, points: seq<ForecastPoint>, lo: real)
    requires WeightsNonNegative(root, points)
    requires forall i :: 0 <= i < |points| ==> lo <= points[i].medianYear
    ensures lo * TotalWeight(root, points) <= WeightedSum(root, points)
    decreases |points|
  {
    if 0 < |points| {
      WeightsNonNegativeTail(root, points);
      assert forall i :: 0 <= i < |points[1..]| ==> points[1..][i] == points[i + 1];
      WeightedSumLower(root, points[1..], lo);
      var y, w := points[0].medianYear, Weight(root, points[0].numForecasters);
      var total, sum := TotalWeight(root, points[1..]), WeightedSum(root, points[1..]);
      StepLower(lo, y, w, total, sum);
      assert TotalWeight(root, points) == w + total;
      assert WeightedSum(root, points) == y * w + sum;
    } else {
      assert lo * 0.0 == 0.0;
    }
  }

  /** Years of at most hi keep the weighted sum at most hi times the total weight. */
  lemma {:induction false} WeightedSumUpper(root: real -> real, points: seq<ForecastPoint>, hi: real)
    requires WeightsNonNegative(root, points)
    requires forall i :: 0 <= i < |points| ==> points[i].medianYear <= hi
    ensures WeightedSum(root, points) <= hi * TotalWeight(root, points)
    decreases |points|
  {
    if 0 < |points| {
      WeightsNonNegativeTail(root, points);
      assert forall i :: 0 <= i < |points[1..]| ==> points[1..][i] == points[i + 1];
      WeightedSumUpper(root, points[1..], hi);
      var y, w := points[0].medianYear, Weight(root, points[0].numForecasters);
      var total, sum := TotalWeight(root, points[1..]), WeightedSum(root, points[1..]);
      StepUpper(hi, y, w, total, sum);
      assert TotalWeight(root, points) == w + total;
      assert WeightedSum(root, points) == y * w + sum;
    } else {
      assert hi * 0.0 == 0.0;
    }
  }

  /** One loop step keeps the weighted sum at least lo times the total weight. */
  lemma StepLower(lo: real, y: real, w: real, total: real, sum: real)
    requires lo <= y
    requires 0.0 <= w
    requires lo * total <= sum
    ensures lo * (w + total) <= y * w + sum
  {
    MulMonotone(lo, y, w);
    assert lo * (w + total) == lo * w + lo * total;
  }

  /** One loop step keeps the weighted sum at most hi times the total weight. */
  lemma StepUpper(hi: real, y: real, w: real, total: real, sum: real)
    requires y <= hi
    requires 0.0 <= w
    requires sum <= hi * total
    ensures y * w + sum <= hi * (w + total)
  {
    MulMonotone(y, hi, w);
    assert hi * (w + total) == hi * w + hi * total;
  }

  lemma DivideBounds(lo: real, hi: real, sum: real, total: real)
    requires 0.0 < total
    requires lo * total <= sum <= hi * total
    ensures lo <= sum / total <= hi
  {
    assert sum / total * total == sum;
    if sum / total < lo {
      MulMonotone(sum / total, lo, total);
    }
    if hi < sum / total {
      MulMonotone(hi, sum / total, total);
    }
  }

  /** For a non-empty bucket the total weight is positive, so the division is always taken
      and the `points[0]` fallback is never reached; the result is a weighted mean. */
  lemma AggregateIsWeightedMean(root: real -> real, points: seq<ForecastPoint>, currentYear: int)
    requires SqrtBounds(root)
    requires 0 < |points|
    ensures 0.0 < TotalWeight(root, points)
    ensures AggregateForecasts(root, points, currentYear) == WeightedSum(root, points) / TotalWeight(root, points)
  {
    TotalWeightAtLeastCount(root, points);
  }

  /** If every year lies in [lo, hi], so does the consensus year. */
  lemma AggregateWithin(root: real -> real, points: seq<ForecastPoint>, currentYear: int, lo: real, hi: real)
    requires SqrtBounds(root)
    requires 0 < |points|
    requires YearsWithin(points, lo, hi)
    ensures lo <= AggregateForecasts(root, points, currentYear) <= hi
  {
    AggregateIsWeightedMean(root, points, currentYear);
    AllWeightsNonNegative(root, points);
    WeightedSumLower(root, points, lo);
    WeightedSumUpper(root, points, hi);
    DivideBounds(lo, hi, WeightedSum(root, points), TotalWeight(root, points));
  }

  /** A non-empty bucket aggregates to a year between its smallest and largest year. */
  lemma AggregateBetweenMinAndMax(root: real -> real, points: seq<ForecastPoint>, currentYear: int)
    requires SqrtBounds(root)
    requires 0 < |points|
    ensures MinYear(points) <= AggregateForecasts(root, points, currentYear) <= MaxYear(points)
  {
    MinMaxBound(points);
    AggregateWithin(root, points, currentYear, MinYear(points), MaxYear(points));
  }

  /** A bucket whose years are all equal, in particular a single point, aggregates to that year. */
  lemma AggregateOfEqualYears(root: real -> real, points: seq<ForecastPoint>, currentYear: int, y: real)
    requires SqrtBounds(root)
    requires 0 < |points|
    requires forall i :: 0 <= i < |points| ==> points[i].medianYear == y
    ensures AggregateForecasts(root, points, currentYear) == y
  {
    AggregateWithin(root, points, currentYear, y, y);
  }
}
