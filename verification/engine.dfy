/** `PredictionEngine.generate_prediction` (aioracle/backend.py:366-442): fetch through the
    cache, validate, classify, fall back for empty categories, aggregate, force the
    AGI < ASI < singularity ordering, and label the result. */
module Engine {
  import opened Wrappers
  import opened Seqs
  import opened Text
  import opened Forecast
  import opened Errors
  import opened Classifier
  import opened Validation
  import opened Aggregate
  import opened Metrics
  import opened Labels
  import opened Dates
  import opened Cache
  import Models

  /** The engine's settings: `cache_ttl_seconds` (0 disables the cache) and `min_data_points`. */
  datatype Config = Config(cacheTtlSeconds: int, minDataPoints: int)

  /** The constructor's defaults. */
  const DefaultConfig: Config := Config(0, 1)

  /** The fallback step: an empty AGI bucket takes all validated points, and an empty ASI or
      singularity bucket takes the (possibly replaced) AGI bucket. Non-empty buckets stay. */
  function ApplyFallbacks(points: seq<ForecastPoint>, b: Buckets): (f: Buckets)
    ensures 0 < |b.agi| ==> f.agi == b.agi
    ensures 0 < |b.asi| ==> f.asi == b.asi
    ensures 0 < |b.singularity| ==> f.singularity == b.singularity
    ensures |b.agi| == 0 ==> f.agi == points
    ensures |b.asi| == 0 ==> f.asi == f.agi
    ensures |b.singularity| == 0 ==> f.singularity == f.agi
    ensures 0 < |points| ==> 0 < |f.agi| && 0 < |f.asi| && 0 < |f.singularity|
  {
    var agi := if |b.agi| == 0 then points else b.agi;
    var asi := if |b.asi| == 0 then agi else b.asi;
    var singularity := if |b.singularity| == 0 then agi else b.singularity;
    Buckets(agi, asi, singularity)
  }

  /** The buckets the engine aggregates: classification followed by the fallbacks. */
  function FallbackBuckets(points: seq<ForecastPoint>): Buckets
  {
    ApplyFallbacks(points, Classify(points))
  }

  /** Every sequence whose points all come from `points` inherits its year bounds. */
  lemma MembersWithin(sub: seq<ForecastPoint>, points: seq<ForecastPoint>, lo: real, hi: real)
    requires forall x :: x in sub ==> x in points
    requires YearsWithin(points, lo, hi)
    ensures YearsWithin(sub, lo, hi)
  {
    forall i | 0 <= i < |sub|
      ensures lo <= sub[i].medianYear <= hi
    {
      assert sub[i] in points;
      var j :| 0 <= j < |points| && points[j] == sub[i];
    }
  }

  /** Each bucket after the fallbacks holds only validated points, so it keeps their year bounds. */
  lemma FallbackBucketsWithin(points: seq<ForecastPoint>, lo: real, hi: real)
    requires YearsWithin(points, lo, hi)
    ensures var f := FallbackBuckets(points);
            YearsWithin(f.agi, lo, hi) && YearsWithin(f.asi, lo, hi) && YearsWithin(f.singularity, lo, hi)
  {
    var b := Classify(points);
    FilterMembers(InAgi, points);
    FilterMembers(InAsi, points);
    FilterMembers(InSingularity, points);
    MembersWithin(b.agi, points, lo, hi);
    MembersWithin(b.asi, points, lo, hi);
    MembersWithin(b.singularity, points, lo, hi);
  }

  /** The three headline years. */
  datatype Years = Years(agi: real, asi: real, singularity: real)

  const AsiGap: real := 5.0
  const SingularityGap: real := 15.0

  /** The ordering step: an ASI year not after the AGI year becomes AGI + 5, then a
      singularity year not after the (new) ASI year becomes ASI + 15. */
  function EnforceOrdering(y: Years): (o: Years)
    ensures o.agi == y.agi
    ensures o.agi < o.asi < o.singularity
    ensures y.agi < y.asi ==> o.asi == y.asi
    ensures y.asi <= y.agi ==> o.asi == y.agi + AsiGap
    ensures o.asi < y.singularity ==> o.singularity == y.singularity
    ensures y.singularity <= o.asi ==> o.singularity == o.asi + SingularityGap
  {
    var asi := if y.asi <= y.agi then y.agi + AsiGap else y.asi;
    var singularity := if y.singularity <= asi then asi + SingularityGap else y.singularity;
    Years(y.agi, asi, singularity)
  }

  /** The ordering step changes the years exactly when they are not already strictly ordered. */
  lemma EnforceOrderingFixedPoints(y: Years)
    ensures EnforceOrdering(y) == y <==> y.agi < y.asi < y.singularity
  {
  }

  /** Applying the ordering step twice is the same as applying it once. */
  lemma EnforceOrderingIdempotent(y: Years)
    ensures EnforceOrdering(EnforceOrdering(y)) == EnforceOrdering(y)
  {
    EnforceOrderingFixedPoints(EnforceOrdering(y));
  }

  /** Moving the ASI year always gives a gap of exactly 5 years, which is a moderate takeoff. */
  lemma BumpedAsiIsModerate(y: Years)
    requires y.asi <= y.agi
    ensures EnforceOrdering(y).asi - EnforceOrdering(y).agi == AsiGap
    ensures FromYearGap(EnforceOrdering(y).asi - EnforceOrdering(y).agi) == Moderate
  {
  }

  /** The aggregated years of the fallback buckets, before ordering. */
  function RawYears(root: real -> real, f: Buckets, currentYear: int): Years
  {
    Years(AggregateForecasts(root, f.agi, currentYear),
          AggregateForecasts(root, f.asi, currentYear),
          AggregateForecasts(root, f.singularity, currentYear))
  }

  /** The three years of a prediction, after the ordering step. */
  function ForecastYears(root: real -> real, points: seq<ForecastPoint>, currentYear: int): Years
  {
    EnforceOrdering(RawYears(root, FallbackBuckets(points), currentYear))
  }

  /** The prediction built from validated points: dates from the ordered years, the consensus
      type of the AGI bucket, the takeoff scenario of the ASI-AGI gap, and probabilities from the
      AGI and singularity buckets' metrics. `timestamp` stands for the ISO time of the call. */
  function PredictFrom(points: seq<ForecastPoint>, root: real -> real, currentYear: int, timestamp: string)
    : (p: Models.Prediction)
    ensures p.timestamp == timestamp
    ensures MinProbability <= p.agiProb <= MaxProbability
    ensures MinProbability <= p.singularityProb <= MaxProbability
  {
    var f := FallbackBuckets(points);
    var y := ForecastYears(root, points, currentYear);
    var agiMetrics := CalculateConfidenceMetrics(root, f.agi);
    var singularityMetrics := CalculateConfidenceMetrics(root, f.singularity);
    Models.Prediction(
      timestamp,
      YearToDateString(y.agi),
      DetermineConsensusType(f.agi).Label(),
      CalculateProbability(agiMetrics),
      YearToDateString(y.asi),
      FromYearGap(y.asi - y.agi).Label(),
      YearToDateString(y.singularity),
      CalculateProbability(singularityMetrics))
  }

  /** A bucket of fewer than two points reports the neutral 60%. */
  lemma SparseBucketIsNeutral(points: seq<ForecastPoint>, root: real -> real, currentYear: int, timestamp: string)
    requires |FallbackBuckets(points).agi| < 2
    ensures PredictFrom(points, root, currentYear, timestamp).agiProb == NeutralProbability
  {
  }

  /** Validated points give an AGI year within the validation range; the ordering step moves
      the later years at most 5 and 20 years beyond it. */
  lemma ForecastYearsOfValidPoints(points: seq<ForecastPoint>, root: real -> real, currentYear: int)
    requires SqrtBounds(root)
    requires 0 < |points|
    requires YearsWithin(points, MinValidYear, MaxValidYear)
    ensures var y := ForecastYears(root, points, currentYear);
            MinValidYear <= y.agi <= MaxValidYear &&
            y.asi <= MaxValidYear + AsiGap &&
            y.singularity <= MaxValidYear + AsiGap + SingularityGap
  {
    var f := FallbackBuckets(points);
    FallbackBucketsWithin(points, MinValidYear, MaxValidYear);
    AggregateWithin(root, f.agi, currentYear, MinValidYear, MaxValidYear);
    AggregateWithin(root, f.asi, currentYear, MinValidYear, MaxValidYear);
    AggregateWithin(root, f.singularity, currentYear, MinValidYear, MaxValidYear);
  }

  /** With no points at all, every year is the placeholder, so the prediction is
      current year + 25, + 30 and + 45. */
  lemma ForecastYearsOfNoPoints(root: real -> real, currentYear: int)
    ensures var base := (currentYear + PlaceholderOffset) as real;
            ForecastYears(root, [], currentYear) == Years(base, base + AsiGap, base + AsiGap + SingularityGap)
  {
    assert Filter(InAgi, []) == [];
  }

  /** The three date strings are ordered as the years are, for every input that can reach this
      step: validated points, or none at all while the placeholder years keep four digits. */
  lemma PredictFromDatesOrdered(points: seq<ForecastPoint>, root: real -> real, currentYear: int, timestamp: string)
    requires SqrtBounds(root)
    requires YearsWithin(points, MinValidYear, MaxValidYear)
    requires 0 < |points| || 975 <= currentYear <= 9954
    ensures var p := PredictFrom(points, root, currentYear, timestamp);
            LexLe(p.agiDate, p.asiDate) && LexLe(p.asiDate, p.singularityDate)
  {
    var y := ForecastYears(root, points, currentYear);
    if 0 < |points| {
      ForecastYearsOfValidPoints(points, root, currentYear);
    } else {
      ForecastYearsOfNoPoints(root, currentYear);
    }
    DateStringMonotone(y.agi, y.asi);
    DateStringMonotone(y.asi, y.singularity);
  }

  /** When no validated point mentions ASI, the ASI bucket falls back to the AGI bucket, its
      year equals the AGI year and is moved to AGI + 5: the context is a moderate transition. */
  lemma NoAsiPointsMeansModerate(points: seq<ForecastPoint>, root: real -> real, currentYear: int, timestamp: string)
    requires |Classify(points).asi| == 0
    ensures var y := ForecastYears(root, points, currentYear);
            y.asi == y.agi + AsiGap
    ensures PredictFrom(points, root, currentYear, timestamp).asiContext == Moderate.Label()
  {
    var raw := RawYears(root, FallbackBuckets(points), currentYear);
    assert raw.asi == raw.agi;
    BumpedAsiIsModerate(raw);
  }

  /** When no validated point mentions the singularity, its year is 15 years after the ASI year. */
  lemma NoSingularityPointsMeansFifteenYears(points: seq<ForecastPoint>, root: real -> real, currentYear: int)
    requires |Classify(points).singularity| == 0
    ensures var y := ForecastYears(root, points, currentYear);
            y.singularity == y.asi + SingularityGap
  {
    var raw := RawYears(root, FallbackBuckets(points), currentYear);
    assert raw.singularity == raw.agi;
  }

  /** What one call of `generate_prediction` yields, and the cache slot afterwards. */
  datatype Outcome = Outcome(result: Result<Models.Prediction, PredictionError>, cache: CacheState)

  /** What `generate_prediction` does with the fetched points: validate them, then run the
      pipeline on the valid ones. */
  function PredictFromFetched(raw: seq<ForecastPoint>, minDataPoints: int, root: real -> real,
                              currentYear: int, timestamp: string)
    : (r: Result<Models.Prediction, PredictionError>)
    ensures r.Success? <==> |Filter(IsValidPoint, raw)| >= minDataPoints
    ensures r.Failure? ==> r.error == DataValidationError(|Filter(IsValidPoint, raw)|, minDataPoints)
    ensures r.Success? ==>
      MinProbability <= r.value.agiProb <= MaxProbability &&
      MinProbability <= r.value.singularityProb <= MaxProbability
    ensures r.Success? && SqrtBounds(root) && (1 <= minDataPoints || 975 <= currentYear <= 9954) ==>
      LexLe(r.value.agiDate, r.value.asiDate) && LexLe(r.value.asiDate, r.value.singularityDate)
  {
    match ValidateData(raw, minDataPoints)
    case Failure(e) => Failure(e)
    case Success(points) =>
      var p := PredictFrom(points, root, currentYear, timestamp);
      assert SqrtBounds(root) && (1 <= minDataPoints || 975 <= currentYear <= 9954) ==>
        LexLe(p.agiDate, p.asiDate) && LexLe(p.asiDate, p.singularityDate) by {
        if SqrtBounds(root) && (1 <= minDataPoints || 975 <= currentYear <= 9954) {
          ValidatedYearsInRange(raw, minDataPoints);
          PredictFromDatesOrdered(points, root, currentYear, timestamp);
        }
      }
      Success(p)
  }

  /** `generate_prediction`. The clock readings (`now` in seconds, `currentYear`, the ISO
      `timestamp`), the fetch function's behaviour and the square root are parameters. */
  function GeneratePrediction(cache: CacheState, config: Config, forceRefresh: bool, now: real,
                              fetch: FetchResult, root: real -> real, currentYear: int, timestamp: string)
    : (o: Outcome)
    ensures var fetched := FetchData(cache, config.cacheTtlSeconds, forceRefresh, now, fetch);
            o.cache == fetched.cache &&
            (fetched.result.Failure? ==> o.result == Failure(fetched.result.error) && o.cache == cache) &&
            (fetched.result.Success? ==>
              o.result == PredictFromFetched(fetched.result.value, config.minDataPoints, root, currentYear, timestamp))
    ensures o.result.Success? ==>
      MinProbability <= o.result.value.agiProb <= MaxProbability &&
      MinProbability <= o.result.value.singularityProb <= MaxProbability
  {
    var fetched := FetchData(cache, config.cacheTtlSeconds, forceRefresh, now, fetch);
    match fetched.result
    case Failure(e) => Outcome(Failure(e), fetched.cache)
    case Success(raw) =>
      Outcome(PredictFromFetched(raw, config.minDataPoints, root, currentYear, timestamp), fetched.cache)
  }

  /** With the constructor's defaults the cache is off: every call fetches and the slot is
      left as it was. */
  lemma DefaultConfigNeverCaches(cache: CacheState, forceRefresh: bool, now: real, fetch: FetchResult,
                                 root: real -> real, currentYear: int, timestamp: string)
    ensures FetchData(cache, DefaultConfig.cacheTtlSeconds, forceRefresh, now, fetch).invokedFetch
    ensures GeneratePrediction(cache, DefaultConfig, forceRefresh, now, fetch, root, currentYear, timestamp).cache == cache
  {
  }
}
