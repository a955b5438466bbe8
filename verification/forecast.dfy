/** The forecast record every source adapter produces (aioracle/scraper.py:25-32), and
    the per-record views the engine takes of a list of them. */
module Forecast {

  /** One external forecast observation. `medianYear` is a fractional year; nothing about
      it is enforced at construction, validation happens in the engine. */
  datatype ForecastPoint = ForecastPoint(
    source: string,
    question: string,
    medianYear: real,
    numForecasters: int,
    url: string)

  /** `{p.source for p in points}` */
  function SourcesOf(points: seq<ForecastPoint>): (s: set<string>)
    ensures forall p :: p in points ==> p.source in s
    ensures forall src :: src in s ==> exists p :: p in points && p.source == src
  {
    set p | p in points :: p.source
  }

  /** `[p.median_year for p in points]` */
  function YearsOf(points: seq<ForecastPoint>): (ys: seq<real>)
    ensures |ys| == |points|
    ensures forall i :: 0 <= i < |points| ==> ys[i] == points[i].medianYear
  {
    seq(|points|, i requires 0 <= i < |points| => points[i].medianYear)
  }

  /** Every year in `points` lies in `[lo, hi]`. */
  predicate YearsWithin(points: seq<ForecastPoint>, lo: real, hi: real)
  {
    forall i :: 0 <= i < |points| ==> lo <= points[i].medianYear <= hi
  }
}
