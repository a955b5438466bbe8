/** Confidence metrics of a bucket and the probability derived from them
    (aioracle/backend.py:75-92, 279-310, 333-349). */
module Metrics {
  import opened Forecast
  import opened Aggregate

  function Min(a: real, b: real): real { if a <= b then a else b }
  function Max(a: real, b: real): real { if a >= b then a else b }

  /** Statistics over the years of a bucket plus the derived `confidenceScore`, which
      `__post_init__` fills in from the other fields. */
  datatype ConfidenceMetrics = ConfidenceMetrics(
    meanYear: real,
    medianYear: real,
    stdDeviation: real,
    sampleSize: int,
    sourceDiversity: int,
    confidenceScore: real)

  /** 100 × (0.3·min(1, size/50) + 0.3·min(1, diversity/3) + 0.4·max(0.3, 1 − spread/30)). */
  function ConfidenceScore(sampleSize: int, sourceDiversity: int, stdDeviation: real): (score: real)
    ensures 0 <= sampleSize && 0 <= sourceDiversity && 0.0 <= stdDeviation ==> 12.0 <= score <= 100.0
  {
    var sizeFactor := Min(1.0, sampleSize as real / 50.0);
    var diversityFactor := Min(1.0, sourceDiversity as real / 3.0);
    var spreadFactor := Max(0.3, 1.0 - stdDeviation / 30.0);
    (sizeFactor * 0.3 + diversityFactor * 0.3 + spreadFactor * 0.4) * 100.0
  }

  /** Building a metrics record: the score is computed from the other fields. */
  function NewConfidenceMetrics(meanYear: real, medianYear: real, stdDeviation: real,
                                sampleSize: int, sourceDiversity: int): (m: ConfidenceMetrics)
    ensures m.meanYear == meanYear && m.medianYear == medianYear && m.stdDeviation == stdDeviation &&
            m.sampleSize == sampleSize && m.sourceDiversity == sourceDiversity
    ensures m.confidenceScore == ConfidenceScore(m.sampleSize, m.sourceDiversity, m.stdDeviation)
    ensures 0 <= sampleSize && 0 <= sourceDiversity && 0.0 <= stdDeviation ==>
      12.0 <= m.confidenceScore <= 100.0
  {
    ConfidenceMetrics(meanYear, medianYear, stdDeviation, sampleSize, sourceDiversity,
      ConfidenceScore(sampleSize, sourceDiversity, stdDeviation))
  }

  /** More data, more distinct sources and less spread never lower the score; the score
      reaches 100 from 50 points, 3 sources and no spread on. */
  lemma ConfidenceScoreMonotone(size1: int, size2: int, div1: int, div2: int, std1: real, std2: real)
    requires size1 <= size2 && div1 <= div2 && std2 <= std1
    ensures ConfidenceScore(size1, div1, std1) <= ConfidenceScore(size2, div2, std2)
    ensures 50 <= size2 && 3 <= div2 && std2 == 0.0 ==> ConfidenceScore(size2, div2, std2) == 100.0
  {
  }

  function Sum(ys: seq<real>): real
    decreases |ys|
  {
    if |ys| == 0 then 0.0 else ys[0] + Sum(ys[1..])
  }

  /** `statistics.mean` */
  function Mean(ys: seq<real>): real
    requires 0 < |ys|
  {
    Sum(ys) / |ys| as real
  }

  /** Σ (y − m)² */
  function SquaredDeviations(ys: seq<real>, m: real): (r: real)
    ensures 0.0 <= r
    decreases |ys|
  {
    if |ys| == 0 then 0.0
    else
      var d := ys[0] - m;
      SquareNonNegative(d);
      d * d + SquaredDeviations(ys[1..], m)
  }

  lemma SquareNonNegative(d: real)
    ensures 0.0 <= d * d
  {
    if d < 0.0 {
      assert d * d == (-d) * (-d);
    }
  }

  /** `statistics.stdev`: the square root of the sample variance. */
  function StdDev(root: real -> real, ys: seq<real>): real
    requires 1 < |ys|
  {
    root(SquaredDeviations(ys, Mean(ys)) / (|ys| - 1) as real)
  }

  predicate Sorted(s: seq<real>)
  {
    forall i, j :: 0 <= i < j < |s| ==> s[i] <= s[j]
  }

  function Insert(x: real, s: seq<real>): (r: seq<real>)
    requires Sorted(s)
    ensures Sorted(r)
    ensures multiset(r) == multiset(s) + multiset{x}
    decreases |s|
  {
    if |s| == 0 then [x]
    else if x <= s[0] then
      assert forall k :: 0 <= k < |s| ==> x <= s[k];
      [x] + s
    else
      var rest := Insert(x, s[1..]);
      assert s == [s[0]] + s[1..];
      InsertedAboveHead(x, s, rest);
      [s[0]] + rest
  }

  /** Prepending the head of a sorted list to the insertion into its tail keeps the order. */
  lemma InsertedAboveHead(x: real, s: seq<real>, rest: seq<real>)
    requires Sorted(s) && 0 < |s| && s[0] < x
    requires Sorted(rest)
    requires multiset(rest) == multiset(s[1..]) + multiset{x}
    ensures Sorted([s[0]] + rest)
  {
    forall k | 0 <= k < |rest|
      ensures s[0] <= rest[k]
    {
      assert rest[k] in multiset(rest);
      if rest[k] != x {
        assert rest[k] in multiset(s[1..]);
        var j :| 0 <= j < |s[1..]| && s[1..][j] == rest[k];
        assert s[j + 1] == rest[k];
      }
    }
    var r := [s[0]] + rest;
    forall i, j | 0 <= i < j < |r|
      ensures r[i] <= r[j]
    {
      assert r[j] == rest[j - 1];
      if 0 < i {
        assert r[i] == rest[i - 1];
      }
    }
  }

  /** `sorted(ys)` */
  function SortYears(ys: seq<real>): (r: seq<real>)
    ensures Sorted(r)
    ensures multiset(r) == multiset(ys)
    decreases |ys|
  {
    if |ys| == 0 then []
    else
      assert ys == [ys[0]] + ys[1..];
      Insert(ys[0], SortYears(ys[1..]))
  }

  /** `statistics.median`: the middle element of the sorted years, or the mean of the two
      middle elements when their number is even. */
  function Median(ys: seq<real>): real
    requires 0 < |ys|
  {
    var s := SortYears(ys);
    var n := |s|;
    assert n == |multiset(s)| == |multiset(ys)| == |ys|;
    if n % 2 == 1 then s[n / 2] else (s[n / 2 - 1] + s[n / 2]) / 2.0
  }

  predicate Within(ys: seq<real>, lo: real, hi: real)
  {
    forall i :: 0 <= i < |ys| ==> lo <= ys[i] <= hi
  }

  lemma {:induction false} SumBounds(ys: seq<real>, lo: real, hi: real)
    requires Within(ys, lo, hi)
    ensures |ys| as real * lo <= Sum(ys) <= |ys| as real * hi
    decreases |ys|
  {
    if 0 < |ys| {
      assert Within(ys[1..], lo, hi) by {
        forall i | 0 <= i < |ys[1..]| ensures lo <= ys[1..][i] <= hi {
          assert ys[1..][i] == ys[i + 1];
        }
      }
      SumBounds(ys[1..], lo, hi);
      var n := |ys[1..]| as real;
      assert |ys| as real * lo == lo + n * lo;
      assert |ys| as real * hi == hi + n * hi;
    }
  }

  /** Mean and median of years within [lo, hi] lie within [lo, hi]. */
  lemma MeanAndMedianWithin(ys: seq<real>, lo: real, hi: real)
    requires 0 < |ys|
    requires Within(ys, lo, hi)
    ensures lo <= Mean(ys) <= hi
    ensures lo <= Median(ys) <= hi
  {
    SumBounds(ys, lo, hi);
    DivideBounds(lo, hi, Sum(ys), |ys| as real);
    var s := SortYears(ys);
    assert |s| == |multiset(s)| == |ys|;
    forall i | 0 <= i < |s|
      ensures lo <= s[i] <= hi
    {
      assert s[i] in multiset(ys);
    }
  }

  /** `calculate_confidence_metrics`; `root` stands for the square root inside
      `statistics.stdev`. */
  function CalculateConfidenceMetrics(root: real -> real, points: seq<ForecastPoint>): (m: ConfidenceMetrics)
    ensures m.sampleSize == |points|
    ensures m.sourceDiversity == |SourcesOf(points)|
    ensures m.confidenceScore == ConfidenceScore(m.sampleSize, m.sourceDiversity, m.stdDeviation)
    ensures |points| == 0 ==> m.confidenceScore == 40.0
    ensures |points| <= 1 ==> m.stdDeviation == 0.0
    ensures SqrtBounds(root) ==> 0.0 <= m.stdDeviation && 12.0 <= m.confidenceScore <= 100.0
  {
    if |points| == 0 then NewConfidenceMetrics(0.0, 0.0, 0.0, 0, 0)
    else
      var years := YearsOf(points);
      var spread := if |years| > 1 then StdDev(root, years) else 0.0;
      assert SqrtBounds(root) ==> 0.0 <= spread by {
        if SqrtBounds(root) && |years| > 1 {
          assert 0.0 <= SquaredDeviations(years, Mean(years)) / (|years| - 1) as real;
        }
      }
      NewConfidenceMetrics(Mean(years), Median(years), spread, |points|, |SourcesOf(points)|)
  }

  /** The bucket's mean and median years lie between its smallest and largest year. */
  lemma MetricsYearsWithin(root: real -> real, points: seq<ForecastPoint>, lo: real, hi: real)
    requires 0 < |points|
    requires YearsWithin(points, lo, hi)
    ensures lo <= CalculateConfidenceMetrics(root, points).meanYear <= hi
    ensures lo <= CalculateConfidenceMetrics(root, points).medianYear <= hi
  {
    MeanAndMedianWithin(YearsOf(points), lo, hi);
  }

  const NeutralProbability: real := 60.0
  const MinProbability: real := 40.0
  const MaxProbability: real := 95.0

  /** `_calculate_probability`: 60 for fewer than two points, otherwise the confidence score
      clamped to [40, 95]. */
  function CalculateProbability(m: ConfidenceMetrics): (p: real)
    ensures m.sampleSize < 2 ==> p == NeutralProbability
    ensures 2 <= m.sampleSize ==> MinProbability <= p <= MaxProbability
    ensures 2 <= m.sampleSize && MinProbability <= m.confidenceScore <= MaxProbability ==> p == m.confidenceScore
  {
    if m.sampleSize < 2 then NeutralProbability
    else Max(MinProbability, Min(MaxProbability, m.confidenceScore))
  }

  /** Among buckets of two or more points, a higher confidence score never gives a lower probability. */
  lemma ProbabilityMonotone(m1: ConfidenceMetrics, m2: ConfidenceMetrics)
    requires 2 <= m1.sampleSize && 2 <= m2.sampleSize
    requires m1.confidenceScore <= m2.confidenceScore
    ensures CalculateProbability(m1) <= CalculateProbability(m2)
  {
  }
}
