# aioracle forecast aggregation engine, in Dafny

aioracle collects forecasts about AI milestones (AGI, ASI, "singularity") from prediction
sites. It turns them into one prediction record: a consensus date for each milestone, a
consensus type, a takeoff scenario and two probabilities. This project models the core of that pipeline and
proves properties of the model:

- the record a source adapter produces (`ForecastPoint`) and the year search the Polymarket and
  Manifold adapters run over a market question;
- de-duplication by a 50-character lower-cased question prefix;
- the square-root-weighted consensus year (`aggregate_forecasts`);
- the engine (`PredictionEngine`): point validation, keyword classification with its priority
  rule, the TTL cache around the fetch function, confidence metrics and probabilities,
  consensus type and takeoff scenario, the fallbacks for empty categories, the
  AGI < ASI < singularity ordering step, and the fractional-year-to-date conversion;
- the frozen `Prediction` record, `from_dict` and `to_db_tuple`.

One module per component:

| module | file | models |
|---|---|---|
| `Wrappers` | wrappers.dfy | `Option` and `Result`, used in place of `None` returns and exceptions |
| `Text` | text.dfy | ASCII lower-casing, slicing, substring search, `str(int)`, zero padding, string order |
| `Seqs` | seqs.dfy | subsequences and list-comprehension filtering |
| `Forecast` | forecast.dfy | `ForecastPoint`, its sources and years |
| `Errors` | errors.dfy | `DataFetchError` and `DataValidationError` |
| `YearScan` | yearscan.dfy | the `\b(202[5-9]\|20[3-9]\d\|21\d\d)\b` search |
| `Dedup` | dedup.dfy | the cross-source de-duplication loop |
| `Aggregate` | aggregate.dfy | `aggregate_forecasts` |
| `Classifier` | classifier.dfy | `ForecastClassifier.classify` |
| `Validation` | validation.dfy | `_validate_point`, `_validate_data` |
| `Metrics` | metrics.dfy | `ConfidenceMetrics`, `calculate_confidence_metrics`, `_calculate_probability` |
| `Labels` | labels.dfy | `TakeoffScenario`, `ConsensusType`, `_determine_consensus_type` |
| `Dates` | dates.dfy | `_year_to_date_string` |
| `Cache` | cache.dfy | `CacheEntry`, `fetch_data`, `clear_cache` |
| `Models` | models.dfy | `Prediction`, `from_dict`, `to_db_tuple` |
| `Engine` | engine.dfy | `generate_prediction` |

Things the program gets from its environment become parameters:

- `root: real -> real` stands for the square root, used both by `x ** 0.5` and inside
  `statistics.stdev`. The properties that need it assume only `SqrtBounds(root)`: the root
  of a non-negative number is non-negative, and the root of a number of at least 1 is at least 1.
- `now` (seconds) stands for the clock reading the cache compares against.
- `currentYear` stands for `datetime.now().year`.
- `timestamp` stands for the ISO time stored in a prediction.
- The fetch function is represented by what it does when called: `Fetched(points)` or
  `Raised(message)`.

Floating-point numbers are `real`. Python's `int()` on a float, which truncates toward zero,
is written out as `Dates.Trunc`. `int()` truncates toward zero, which agrees with floor on
the non-negative years that validation admits.

## Model

| member | source | states |
|---|---|---|
| Forecast.SourcesOf | aioracle/backend.py:298 | the set of sources holds exactly the sources of the points |
| Forecast.YearsOf | aioracle/backend.py:297 | the year list has one entry per point, in order |
| Text.Lower | aioracle/backend.py:129 | lower-casing keeps the length and leaves no upper-case letter |
| Text.Take | aioracle/scraper.py:303 | `[:n]` gives a prefix of length min(n, len) |
| Text.ContainsIff | aioracle/backend.py:132 | `kw in s` holds exactly when `kw` occurs at some index of `s` |
| Text.NatToStringRoundTrip | aioracle/backend.py:364 | the decimal rendering of a year reads back as the same number |
| Text.PadDigitsMonotone | aioracle/backend.py:364 | zero-padded numbers of one width compare as strings as they compare as numbers |
| Classifier.AnyOccursIff | aioracle/backend.py:132-134 | `any(kw in q ...)` holds exactly when some keyword is a substring |
| Classifier.CategoryOfKeywords | aioracle/backend.py:128-138 | a point is singularity iff it mentions a singularity keyword; ASI iff it mentions an ASI keyword and no singularity keyword; AGI iff it mentions neither |
| Classifier.Classify | aioracle/backend.py:112-140 | each bucket is the input filtered by its category, in input order |
| Classifier.ClassifyIsPartition | aioracle/backend.py:122-140 | the three buckets together are a permutation of the input (multiset sum and size sum) |
| Classifier.ClassifyPlacesEachPointOnce | aioracle/backend.py:128-138 | a point is in a bucket iff its category is that bucket's |
| Classifier.PriorityExample | aioracle/backend.py:131-135 | a question naming both the singularity and ASI goes to singularity only |
| Classifier.SubstringExample | aioracle/backend.py:103-106 | keywords match as substrings: "Asia" is classified ASI |
| Validation.ValidateData | aioracle/backend.py:212-234 | success iff at least `min_data_points` points are valid; the result is exactly the valid points in input order; the error reports got < need |
| Validation.ValidatedYearsInRange | aioracle/backend.py:193-210 | every validated point's year lies in [2025, 2200] |
| Validation.BoundaryExample | aioracle/backend.py:202-204 | 2024 and 2201 are rejected, 2025 and 2200 accepted; too few valid points fail with got 2, need 3 |
| Dedup.TitleKey | aioracle/scraper.py:303 | a key is at most 50 characters |
| Dedup.DeduplicatePoints | aioracle/scraper.py:299-306 | the loop's output is an order-preserving subsequence, has distinct keys, and covers every key of the input |
| Dedup.DedupIsSubsequence | aioracle/scraper.py:300-306 | the output keeps input order and never grows |
| Dedup.DedupKeepsFirstOfEachKey | aioracle/scraper.py:302-306 | no two kept points share a key, and the first point of every key is kept |
| Dedup.DedupIdempotent | aioracle/scraper.py:299-306 | de-duplicating twice changes nothing further |
| Dedup.CollidingPairKeepsFirst | aioracle/scraper.py:303-306 | two questions with the same 50-character lower-case prefix collapse to the first |
| Aggregate.AggregateForecasts | aioracle/scraper.py:256-258 | an empty list yields current year + 25 |
| Aggregate.TotalWeightAtLeastCount | aioracle/scraper.py:263-266 | every weight is at least 1, so the total weight is at least the number of points |
| Aggregate.AggregateIsWeightedMean | aioracle/scraper.py:260-268 | for a non-empty list the total weight is positive and the `points[0]` fallback is unreachable |
| Aggregate.AggregateWithin | aioracle/scraper.py:254-268 | if all years lie in [lo, hi], so does the consensus year |
| Aggregate.AggregateBetweenMinAndMax | aioracle/scraper.py:261-268 | the consensus year lies between the smallest and largest year |
| Aggregate.AggregateOfEqualYears | aioracle/scraper.py:263-268 | equal years (a single point in particular) aggregate to that year |
| Metrics.ConfidenceScore | aioracle/backend.py:85-92 | for non-negative inputs the score lies in [12, 100] |
| Metrics.NewConfidenceMetrics | aioracle/backend.py:83-92 | the five given fields are stored as given and the score is derived from them; for non-negative inputs the score lies in [12, 100] |
| Metrics.ConfidenceScoreMonotone | aioracle/backend.py:87-92 | more points, more sources and less spread never lower the score; 50 points, 3 sources and no spread give 100 |
| Metrics.SortYears | aioracle/backend.py:301 | the sorted years are ordered and a permutation of the years |
| Metrics.MeanAndMedianWithin | aioracle/backend.py:300-301 | mean and median of years in [lo, hi] lie in [lo, hi] |
| Metrics.CalculateConfidenceMetrics | aioracle/backend.py:279-310 | sample size and source count are those of the points; an empty list scores 40; a bucket of at most one point has spread 0; the score lies in [12, 100] |
| Metrics.MetricsYearsWithin | aioracle/backend.py:296-301 | a bucket's mean and median years lie within its year bounds |
| Metrics.CalculateProbability | aioracle/backend.py:333-349 | fewer than two points give 60; otherwise the result lies in [40, 95] and equals the score when the score is in that range |
| Metrics.ProbabilityMonotone | aioracle/backend.py:343-349 | a higher score never gives a lower probability |
| Labels.FromYearGap | aioracle/backend.py:45-52 | rapid iff gap < 5, moderate iff 5 <= gap < 15, slow iff gap >= 15 |
| Labels.FromYearGapMonotone | aioracle/backend.py:46-52 | a longer gap never gives a faster takeoff |
| Labels.TakeoffLabelsDistinct | aioracle/backend.py:39-43 | distinct scenarios have distinct display strings |
| Labels.DetermineConsensusType | aioracle/backend.py:312-331 | single source iff no points; prediction market iff the sources are exactly {Metaculus}; crowd + expert iff two or more sources including Metaculus; expert survey iff points exist and none is from Metaculus |
| Labels.ConsensusDependsOnlyOnSources | aioracle/backend.py:321-331 | lists with the same source set get the same consensus type |
| Dates.Trunc | aioracle/backend.py:361-362 | `int(x)` truncates toward zero: within 1 below a non-negative x, within 1 above a negative x |
| Dates.DateParts | aioracle/backend.py:361-363 | the month is in 1..12; for y >= 0 the clamp never fires and y lies in the twelfth of its year that the month names |
| Dates.DatePartsMonotone | aioracle/backend.py:361-363 | a later year never gives an earlier (year, month) pair |
| Dates.DateStringMonotone | aioracle/backend.py:351-364 | for four-digit years the date strings are ordered as the years are |
| Dates.WholeYearIsJanuary | aioracle/backend.py:351-364 | 2030.0 becomes 2030-01-01 |
| Dates.MidYearIsJuly | aioracle/backend.py:351-364 | 2030.5 becomes 2030-07-01 |
| Dates.LateYearIsDecember | aioracle/backend.py:351-364 | 2030.999 becomes 2030-12-01, the top of the month range |
| Dates.NegativeYearIsClamped | aioracle/backend.py:362-363 | for a negative year truncation gives a raw month below 1, which the clamp raises to 1 |
| YearScan.YearPatternIsRange | aioracle/scraper.py:175 | the alternation accepts exactly the four-digit numbers 2025..2199 |
| YearScan.FindFrom | aioracle/scraper.py:175 | the search returns the leftmost matching position, or none when no position matches |
| YearScan.ExtractYear | aioracle/scraper.py:175-179 | there is no year exactly when nothing matches; a found year lies in 2025..2199 |
| YearScan.ExtractYearIsLeftmost | aioracle/scraper.py:228-232 | the year is the value of the leftmost match |
| YearScan.BareYear | aioracle/scraper.py:175-179 | a bare four-digit question yields its number iff that number is in 2025..2199 |
| YearScan.YearInQuestionExample | aioracle/scraper.py:175-179 | "AGI by 2030?" gives 2030 |
| YearScan.OutOfRangeYearSkippedExample | aioracle/scraper.py:175-179 | "2024 or 2150" gives 2150: 2024 is outside the pattern |
| YearScan.NoBoundaryExample | aioracle/scraper.py:175-179 | "v2030" and "20300" give nothing: no word boundary around the digits |
| Cache.FetchData | aioracle/backend.py:236-277 | a hit returns the cached data without fetching; a raising or empty fetch is a `DataFetchError` and leaves the cache alone; a non-empty fetch is returned and stored with the time when the TTL is positive |
| Cache.ClearCache | aioracle/backend.py:467-471 | clearing leaves no entry |
| Cache.ExpiryIsPermanent | aioracle/backend.py:69-72 | an expired entry stays expired as time passes |
| Cache.FetchDataKeepsValid | aioracle/backend.py:262-277 | only non-empty data is ever stored, so a successful fetch never returns an empty list |
| Cache.ZeroTtlDisablesCache | aioracle/backend.py:250-275 | with TTL <= 0 every call fetches and the cache never changes |
| Cache.FreshEntryIsServed | aioracle/backend.py:250-257 | data fetched at t1 is served unchanged, without fetching, up to t1 + TTL inclusive |
| Cache.TtlBoundaryExample | aioracle/backend.py:69-72 | with TTL 300, a call 300 s after the fetch is a hit and a call 301 s after refetches |
| Cache.ClearForcesFetch | aioracle/backend.py:467-471 | the call after clearing always fetches |
| Cache.ForceRefreshFetches | aioracle/backend.py:250-268 | a forced refresh always fetches; if it fails the stored entry stays |
| Engine.ApplyFallbacks | aioracle/backend.py:392-400 | non-empty buckets are kept; empty ones take the points or the AGI bucket; with any point at all, no bucket is empty |
| Engine.FallbackBucketsWithin | aioracle/backend.py:386-400 | every bucket after the fallbacks holds only validated points and so keeps their year bounds |
| Engine.EnforceOrdering | aioracle/backend.py:407-413 | the result is strictly ordered AGI < ASI < singularity; AGI is unchanged; a moved ASI is AGI + 5 and a moved singularity is ASI + 15 |
| Engine.EnforceOrderingFixedPoints | aioracle/backend.py:408-413 | the step changes nothing iff the years are already strictly ordered |
| Engine.EnforceOrderingIdempotent | aioracle/backend.py:408-413 | applying the step twice equals applying it once |
| Engine.BumpedAsiIsModerate | aioracle/backend.py:408-424 | a moved ASI year gives a gap of exactly 5, a moderate transition |
| Engine.PredictFrom | aioracle/backend.py:415-435 | both probabilities lie in [40, 95]; the timestamp is the one given |
| Engine.SparseBucketIsNeutral | aioracle/backend.py:416-419 | an AGI bucket of fewer than two points reports 60 |
| Engine.ForecastYearsOfValidPoints | aioracle/backend.py:402-413 | validated points give an AGI year in [2025, 2200], ASI at most 2205 and singularity at most 2220 |
| Engine.ForecastYearsOfNoPoints | aioracle/backend.py:392-413 | with no points the years are current year + 25, + 30 and + 45 |
| Engine.PredictFromDatesOrdered | aioracle/backend.py:407-433 | the three date strings are ordered: AGI <= ASI <= singularity |
| Engine.NoAsiPointsMeansModerate | aioracle/backend.py:395-424 | with no ASI point the ASI year is AGI + 5 and the context is "Moderate Transition" |
| Engine.NoSingularityPointsMeansFifteenYears | aioracle/backend.py:398-413 | with no singularity point its year is ASI + 15 |
| Engine.PredictFromFetched | aioracle/backend.py:383-442 | success iff enough fetched points are valid, otherwise the validation error with both counts; probabilities lie in [40, 95]; the date strings are ordered |
| Engine.GeneratePrediction | aioracle/backend.py:366-442 | the cache ends as the fetch left it, even when validation fails; a fetch error is passed on with the cache untouched; fetched data goes through validation and the pipeline; probabilities lie in [40, 95] |
| Engine.DefaultConfigNeverCaches | aioracle/backend.py:164-173 | with the default settings (TTL 0, at least one point) every call fetches and the cache slot never changes |
| Models.ConvertFields | aioracle/models.py:19-28 | success iff every field is present and converts; each value is the converted field |
| Models.FromDict | aioracle/models.py:17-28 | success iff all eight keys are present and convert; the prediction's fields are the converted values in declaration order |
| Models.PredictionOfRow | aioracle/models.py:19-28 | reading a prediction back from a well-shaped row of values gives one whose row is that row |
| Models.ToDbTuple | aioracle/models.py:30-40 | the row has eight values, and the i-th is the field the i-th INSERT column names |
| Models.FromDictRoundTrip | aioracle/models.py:17-28 | a dictionary of a prediction's fields gives that prediction back |
| Models.FromDictIgnoresExtraKeys | aioracle/models.py:19-28 | keys other than the eight field names do not change the result |
| Models.FromDictFirstError | aioracle/models.py:19-28 | the error is the one of the first field, in declaration order, that is missing or does not convert |
| Models.MissingKeyExample | aioracle/models.py:20-21 | a dictionary holding only a timestamp fails with a missing `agi_date` |
| Models.FieldNamesAreColumns | aioracle/db.py:42-44 | the INSERT column list names the fields in declaration order |
| Models.DbRowRoundTrip | aioracle/db.py:38-50 | pairing the stored row with the INSERT columns gives back the same prediction |

## Left out

- Network access and the source adapters' scraping loops, including `_parse_prediction_date`.
  The model starts from the points an adapter produces and from the year regex.
- The cache lock. Every operation is one atomic step of the state machine.
- Logging.
- The clocks (`datetime.now`) and the ISO timestamp formatting. They are parameters.
- Floating-point rounding. Years and probabilities are exact reals.
- The square root's value. It is the parameter `root`, known only through `SqrtBounds`.
- `get_detailed_analysis` (aioracle/backend.py:444-465). It only repackages the operations
  modelled here.
- `fetch_agi_forecasts` beyond its de-duplication loop: the calls to the three adapters
  and the final `aggregate_forecasts` call, which is modelled on its own.
- Unicode. `lower()`, `\b`, `\w` and `\d` are modelled on ASCII only.
- The desktop UI, the SQLite layer beyond its INSERT column order, and the worker threads.
- `AGI_KEYWORDS` (aioracle/backend.py:99-102). It is declared but never read: a point reaches
  the AGI bucket by mentioning no singularity keyword and no ASI keyword.
- The docstring of `aggregate_forecasts` calls it a weighted median. The code computes a
  weighted mean, and the model follows the code.
- The `DataValidationError` message is kept as its two numbers (got, need) rather than as
  formatted text.
- Cache.FetchData: one clock reading serves both the expiry check and the stored entry's
  timestamp. The code reads the clock a second time after the fetch returns.
- Models.FromDict: `str()` of a number and `float()` of text are the parameters `render` and
  `parse`. Values other than text and numbers are not modelled.
- Engine.PredictFrom: probabilities are not rounded to one decimal. The bounds 40 and 95
  survive the rounding because both are whole numbers.
- Engine.PredictFromFetched: the date strings are proved ordered when `min_data_points` is at
  least 1 or the current year is in 975..9954. Outside that range a placeholder year has
  other than four digits and string order no longer follows year order.
