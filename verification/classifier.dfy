/** Keyword classification of forecast points into the three milestone buckets
    (aioracle/backend.py:95-140). */
module Classifier {
  import opened Text
  import opened Seqs
  import opened Forecast

  /** The source holds each vocabulary in a frozenset; only membership matters, since the
      classifier asks whether ANY keyword matches. */
  const AsiKeywords: seq<string> :=
    ["asi", "superintelligence", "superintelligent", "transformative ai", "transformative artificial"]

  const SingularityKeywords: seq<string> :=
    ["singularity", "full automation", "technological singularity",
     "intelligence explosion", "recursive self-improvement"]

  /** `any(kw in text for kw in keywords)`. */
  predicate AnyOccurs(text: string, keywords: seq<string>)
    decreases |keywords|
  {
    0 < |keywords| && (Contains(text, keywords[0]) || AnyOccurs(text, keywords[1..]))
  }

  /** Some keyword occurs as a substring of the lower-cased question. */
  predicate MentionsAny(question: string, keywords: seq<string>)
  {
    AnyOccurs(Lower(question), keywords)
  }

  /** The scan over the keywords finds one exactly when some keyword occurs. */
  lemma {:induction false} AnyOccursIff(text: string, keywords: seq<string>)
    ensures AnyOccurs(text, keywords) <==> exists k :: 0 <= k < |keywords| && Contains(text, keywords[k])
    decreases |keywords|
  {
    if 0 < |keywords| {
      AnyOccursIff(text, keywords[1..]);
      if exists k :: 0 <= k < |keywords| && Contains(text, keywords[k]) {
        var k :| 0 <= k < |keywords| && Contains(text, keywords[k]);
        if k > 0 {
          assert keywords[1..][k - 1] == keywords[k];
        }
      }
    }
  }

  datatype Category = Agi | Asi | Singularity

  /** Singularity keywords are looked for first, then ASI keywords; AGI is the default. */
  function CategoryOf(p: ForecastPoint): (c: Category)
  {
    if MentionsAny(p.question, SingularityKeywords) then Singularity
    else if MentionsAny(p.question, AsiKeywords) then Asi
    else Agi
  }

  /** The priority rule in keyword terms: singularity vocabulary wins over ASI vocabulary,
      and AGI is reached only when neither vocabulary matches. */
  lemma CategoryOfKeywords(p: ForecastPoint)
    ensures CategoryOf(p) == Singularity <==> MentionsAny(p.question, SingularityKeywords)
    ensures CategoryOf(p) == Asi <==> !MentionsAny(p.question, SingularityKeywords) && MentionsAny(p.question, AsiKeywords)
    ensures CategoryOf(p) == Agi <==> !MentionsAny(p.question, SingularityKeywords) && !MentionsAny(p.question, AsiKeywords)
  {
  }

  predicate InAgi(p: ForecastPoint) { CategoryOf(p) == Agi }
  predicate InAsi(p: ForecastPoint) { CategoryOf(p) == Asi }
  predicate InSingularity(p: ForecastPoint) { CategoryOf(p) == Singularity }

  /** The dictionary with keys "agi", "asi" and "singularity". */
  datatype Buckets = Buckets(agi: seq<ForecastPoint>, asi: seq<ForecastPoint>, singularity: seq<ForecastPoint>)

  /** One iteration of the classification loop: append `p` to the bucket its category names. */
  function Route(b: Buckets, p: ForecastPoint): Buckets
  {
    match CategoryOf(p)
    case Singularity => b.(singularity := b.singularity + [p])
    case Asi => b.(asi := b.asi + [p])
    case Agi => b.(agi := b.agi + [p])
  }

  /** The classification loop over `points`, processed in order. Each bucket is exactly the
      points of its category in input order, and together the buckets partition the input. */
  function Classify(points: seq<ForecastPoint>): (b: Buckets)
    ensures b.agi == Filter(InAgi, points)
    ensures b.asi == Filter(InAsi, points)
    ensures b.singularity == Filter(InSingularity, points)
    decreases |points|
  {
    if |points| == 0 then Buckets([], [], [])
    else
      var init, last := points[..|points| - 1], points[|points| - 1];
      assert points == init + [last];
      FilterAppend(InAgi, init, [last]);
      FilterAppend(InAsi, init, [last]);
      FilterAppend(InSingularity, init, [last]);
      Route(Classify(init), last)
  }

  /** The buckets together hold every input point exactly once. */
  lemma ClassifyIsPartition(points: seq<ForecastPoint>)
    ensures var b := Classify(points);
      && multiset(b.agi) + multiset(b.asi) + multiset(b.singularity) == multiset(points)
      && |b.agi| + |b.asi| + |b.singularity| == |points|
  {
    FilterPartition3(InAgi, InAsi, InSingularity, points);
  }

  /** Each input point lands in the bucket of its category and in no other. */
  lemma ClassifyPlacesEachPointOnce(points: seq<ForecastPoint>, i: int)
    requires 0 <= i < |points|
    ensures var b := Classify(points);
      && (points[i] in b.agi <==> CategoryOf(points[i]) == Agi)
      && (points[i] in b.asi <==> CategoryOf(points[i]) == Asi)
      && (points[i] in b.singularity <==> CategoryOf(points[i]) == Singularity)
  {
    var p := points[i];
    FilterMember(InAgi, points, p);
    FilterMember(InAsi, points, p);
    FilterMember(InSingularity, points, p);
  }

  /** A question naming both a singularity keyword and an ASI keyword goes to `singularity`. */
  lemma PriorityExample()
    ensures var p := ForecastPoint("Metaculus", "Singularity or ASI?", 2040.0, 10, "");
      Classify([p]) == Buckets([], [], [p])
  {
    var p := ForecastPoint("Metaculus", "Singularity or ASI?", 2040.0, 10, "");
    var lq := Lower(p.question);
    assert lq == "singularity or asi?";
    assert OccursAt(lq, "singularity", 0);
    ContainsIff(lq, "singularity");
    assert SingularityKeywords[0] == "singularity";
    AnyOccursIff(lq, SingularityKeywords);
    assert CategoryOf(p) == Singularity;
    assert [p][..0] == [];
  }

  /** Matching is by substring: "asi" inside "Asia" puts the question in the ASI bucket. */
  lemma SubstringExample()
    ensures var p := ForecastPoint("Manifold", "Asia", 2030.0, 5, "");
      Classify([p]) == Buckets([], [p], [])
  {
    var p := ForecastPoint("Manifold", "Asia", 2030.0, 5, "");
    var lq := Lower(p.question);
    assert lq == "asia";
    assert OccursAt(lq, "asi", 0);
    ContainsIff(lq, "asi");
    assert AsiKeywords[0] == "asi";
    AnyOccursIff(lq, AsiKeywords);
    forall k | 0 <= k < |SingularityKeywords|
      ensures !Contains(lq, SingularityKeywords[k])
    {
      assert |SingularityKeywords[k]| > 4;
    }
    AnyOccursIff(lq, SingularityKeywords);
    assert CategoryOf(p) == Asi;
    assert [p][..0] == [];
  }
}
