/** Validation of raw forecast points (aioracle/backend.py:159-162, 193-234). */
module Validation {
  import opened Wrappers
  import opened Seqs
  import opened Forecast
  import opened Errors

  const MinValidYear: real := 2025.0
  const MaxValidYear: real := 2200.0
  const MinForecasters: int := 0

  /** `_validate_point`: the year lies in [2025, 2200] and the forecaster count is not negative. */
  predicate IsValidPoint(p: ForecastPoint)
  {
    MinValidYear <= p.medianYear <= MaxValidYear && p.numForecasters >= MinForecasters
  }

  /** `_validate_data`: keep the valid points in their original order, and fail with
      `DataValidationError` when fewer than `minDataPoints` survive. */
  function ValidateData(points: seq<ForecastPoint>, minDataPoints: int): (r: Result<seq<ForecastPoint>, PredictionError>)
    ensures r.Success? <==> |Filter(IsValidPoint, points)| >= minDataPoints
    ensures r.Success? ==> r.value == Filter(IsValidPoint, points)
    ensures r.Success? ==> IsSubsequence(r.value, points)
    ensures r.Success? ==> forall p :: p in r.value <==> p in points && IsValidPoint(p)
    ensures r.Failure? ==> r.error == DataValidationError(|Filter(IsValidPoint, points)|, minDataPoints)
    ensures r.Failure? ==> r.error.got < r.error.need
  {
    var valid := Filter(IsValidPoint, points);
    FilterIsSubsequence(IsValidPoint, points);
    FilterMembers(IsValidPoint, points);
    if |valid| < minDataPoints then Failure(DataValidationError(|valid|, minDataPoints))
    else Success(valid)
  }

  /** The validated points all lie in the accepted year range. */
  lemma ValidatedYearsInRange(points: seq<ForecastPoint>, minDataPoints: int)
    requires ValidateData(points, minDataPoints).Success?
    ensures YearsWithin(ValidateData(points, minDataPoints).value, MinValidYear, MaxValidYear)
  {
    var v := ValidateData(points, minDataPoints).value;
    forall i | 0 <= i < |v|
      ensures MinValidYear <= v[i].medianYear <= MaxValidYear
    {
      assert v[i] in v;
    }
  }

  /** Both year bounds are inclusive: of points dated 2024, 2025, 2200 and 2201, validation
      keeps the middle two in order; with a floor of three it fails, reporting two of three. */
  lemma BoundaryExample()
    ensures var p2024 := ForecastPoint("Metaculus", "a", 2024.0, 3, "");
      var p2025 := ForecastPoint("Metaculus", "b", 2025.0, 3, "");
      var p2200 := ForecastPoint("Manifold", "c", 2200.0, 0, "");
      var p2201 := ForecastPoint("Manifold", "d", 2201.0, 9, "");
      && ValidateData([p2024, p2025, p2200, p2201], 1) == Success([p2025, p2200])
      && ValidateData([p2024, p2025, p2200, p2201], 3) == Failure(DataValidationError(2, 3))
  {
    var p2024 := ForecastPoint("Metaculus", "a", 2024.0, 3, "");
    var p2025 := ForecastPoint("Metaculus", "b", 2025.0, 3, "");
    var p2200 := ForecastPoint("Manifold", "c", 2200.0, 0, "");
    var p2201 := ForecastPoint("Manifold", "d", 2201.0, 9, "");
    var s := [p2024, p2025, p2200, p2201];
    assert s[1..][1..][1..][1..] == [];
    assert Filter(IsValidPoint, s[1..][1..][1..]) == [];
    assert Filter(IsValidPoint, s[1..][1..]) == [p2200];
    assert Filter(IsValidPoint, s[1..]) == [p2025, p2200];
    assert Filter(IsValidPoint, s) == [p2025, p2200];
  }
}
