/** The two label enumerations of the engine and how a prediction picks them
    (aioracle/backend.py:39-60, 312-331). Each enum member carries its display string. */
module Labels {
  import opened Forecast

  datatype TakeoffScenario = Rapid | Moderate | Slow
  {
    function Label(): string
    {
      match this
      case Rapid => "Rapid Takeoff Scenario"
      case Moderate => "Moderate Transition"
      case Slow => "Slow Takeoff Scenario"
    }

    /** Position on the fast-to-slow scale. */
    function Rank(): nat
    {
      match this
      case Rapid => 0
      case Moderate => 1
      case Slow => 2
    }
  }

  /** `TakeoffScenario.from_year_gap`: under 5 years is rapid, under 15 moderate, else slow. */
  function FromYearGap(gap: real): (t: TakeoffScenario)
    ensures t == Rapid <==> gap < 5.0
    ensures t == Moderate <==> 5.0 <= gap < 15.0
    ensures t == Slow <==> 15.0 <= gap
  {
    if gap < 5.0 then Rapid
    else if gap < 15.0 then Moderate
    else Slow
  }

  /** A longer AGI-to-ASI gap never gives a faster takeoff. */
  lemma FromYearGapMonotone(gap1: real, gap2: real)
    requires gap1 <= gap2
    ensures FromYearGap(gap1).Rank() <= FromYearGap(gap2).Rank()
  {
  }

  /** Distinct scenarios have distinct display strings, so a stored label names one scenario. */
  lemma TakeoffLabelsDistinct(t1: TakeoffScenario, t2: TakeoffScenario)
    requires t1.Label() == t2.Label()
    ensures t1 == t2
  {
  }

  datatype ConsensusType = CrowdExpert | PredictionMarket | ExpertSurvey | SingleSource
  {
    function Label(): string
    {
      match this
      case CrowdExpert => "Crowd + Expert Consensus"
      case PredictionMarket => "Prediction Market Consensus"
      case ExpertSurvey => "Expert Survey"
      case SingleSource => "Single Source Estimate"
    }
  }

  const Metaculus: string := "Metaculus"

  /** `_determine_consensus_type`: decided by the set of sources of the points alone. */
  function DetermineConsensusType(points: seq<ForecastPoint>): (c: ConsensusType)
    ensures c == SingleSource <==> |points| == 0
    ensures c == PredictionMarket <==> SourcesOf(points) == {Metaculus}
    ensures c == CrowdExpert <==> 2 <= |SourcesOf(points)| && Metaculus in SourcesOf(points)
    ensures c == ExpertSurvey <==> 0 < |points| && Metaculus !in SourcesOf(points)
  {
    var sources := SourcesOf(points);
    assert 0 < |points| ==> points[0].source in sources;
    if |sources| == 0 then SingleSource
    else if |sources| == 1 then
      if Metaculus in sources then
        SingletonIsOnly(sources, Metaculus);
        PredictionMarket
      else ExpertSurvey
    else if Metaculus in sources then CrowdExpert
    else ExpertSurvey
  }

  lemma SingletonIsOnly(s: set<string>, x: string)
    requires |s| == 1 && x in s
    ensures s == {x}
  {
    var rest := s - {x};
    assert |rest| == 0;
  }

  /** Two point lists with the same set of sources get the same consensus type. */
  lemma ConsensusDependsOnlyOnSources(a: seq<ForecastPoint>, b: seq<ForecastPoint>)
    requires SourcesOf(a) == SourcesOf(b)
    ensures DetermineConsensusType(a) == DetermineConsensusType(b)
  {
    assert 0 < |a| ==> a[0].source in SourcesOf(b);
    assert 0 < |b| ==> b[0].source in SourcesOf(a);
  }
}
