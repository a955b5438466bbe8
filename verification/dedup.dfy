/** Cross-provider de-duplication of forecast points (aioracle/scraper.py:299-306): a point is
    keyed by the first 50 characters of its lower-cased question, and only the first point
    seen for each key is kept. Distinct questions sharing a 50-character prefix collide. */
module Dedup {
  import opened Text
  import opened Seqs
  import opened Forecast

  const TitleKeyLength: nat := 50

  /** `p.question.lower()[:50]` */
  function TitleKey(p: ForecastPoint): (k: string)
    ensures |k| == if |p.question| < TitleKeyLength then |p.question| else TitleKeyLength
    ensures forall i :: 0 <= i < |k| ==> k[i] == LowerChar(p.question[i])
  {
    Take(Lower(p.question), TitleKeyLength)
  }

  /** The loop from some point on, with `seen` holding the keys already taken. */
  function DedupFrom(s: seq<ForecastPoint>, seen: set<string>): (r: seq<ForecastPoint>)
    ensures |r| <= |s|
    decreases |s|
  {
    if |s| == 0 then []
    else if TitleKey(s[0]) in seen then DedupFrom(s[1..], seen)
    else [s[0]] + DedupFrom(s[1..], seen + {TitleKey(s[0])})
  }

  /** The de-duplication loop, started with no key seen. */
  function Dedup(s: seq<ForecastPoint>): seq<ForecastPoint>
  {
    DedupFrom(s, {})
  }

  /** No two points of `s` share a key. */
  predicate DistinctKeys(s: seq<ForecastPoint>)
  {
    forall i, j :: 0 <= i < j < |s| ==> TitleKey(s[i]) != TitleKey(s[j])
  }

  /** `s[i]` is the first point of `s` carrying its key. */
  predicate FirstOfKey(s: seq<ForecastPoint>, i: int)
    requires 0 <= i < |s|
  {
    forall j :: 0 <= j < i ==> TitleKey(s[j]) != TitleKey(s[i])
  }

  function KeysOf(s: seq<ForecastPoint>): set<string>
  {
    set p | p in s :: TitleKey(p)
  }

  lemma {:induction false} DedupFromAvoidsSeen(s: seq<ForecastPoint>, seen: set<string>)
    ensures forall x :: x in DedupFrom(s, seen) ==> TitleKey(x) !in seen
    decreases |s|
  {
    if 0 < |s| {
      if TitleKey(s[0]) in seen {
        DedupFromAvoidsSeen(s[1..], seen);
      } else {
        DedupFromAvoidsSeen(s[1..], seen + {TitleKey(s[0])});
      }
    }
  }

  lemma {:induction false} DedupFromSubsequence(s: seq<ForecastPoint>, seen: set<string>)
    ensures IsSubsequence(DedupFrom(s, seen), s)
    decreases |s|
  {
    if 0 < |s| {
      var r := DedupFrom(s, seen);
      if TitleKey(s[0]) in seen {
        DedupFromSubsequence(s[1..], seen);
      } else {
        DedupFromSubsequence(s[1..], seen + {TitleKey(s[0])});
        assert r[0] == s[0] && r[1..] == DedupFrom(s[1..], seen + {TitleKey(s[0])});
      }
    }
  }

  lemma {:induction false} DedupFromDistinct(s: seq<ForecastPoint>, seen: set<string>)
    ensures DistinctKeys(DedupFrom(s, seen))
    decreases |s|
  {
    if 0 < |s| {
      var k := TitleKey(s[0]);
      if k in seen {
        DedupFromDistinct(s[1..], seen);
      } else {
        var rest := DedupFrom(s[1..], seen + {k});
        DedupFromDistinct(s[1..], seen + {k});
        DedupFromAvoidsSeen(s[1..], seen + {k});
        var r := [s[0]] + rest;
        forall i, j | 0 <= i < j < |r|
          ensures TitleKey(r[i]) != TitleKey(r[j])
        {
          if i == 0 {
            assert r[j] == rest[j - 1] && r[j] in rest;
          } else {
            assert r[i] == rest[i - 1] && r[j] == rest[j - 1];
          }
        }
      }
    }
  }

  lemma {:induction false} DedupFromKeepsFirst(s: seq<ForecastPoint>, seen: set<string>, i: int)
    requires 0 <= i < |s|
    requires TitleKey(s[i]) !in seen
    requires FirstOfKey(s, i)
    ensures s[i] in DedupFrom(s, seen)
    decreases |s|
  {
    var k := TitleKey(s[0]);
    if i == 0 {
      assert k !in seen;
    } else {
      var seen' := if k in seen then seen else seen + {k};
      assert TitleKey(s[0]) != TitleKey(s[i]);
      assert s[1..][i - 1] == s[i];
      assert FirstOfKey(s[1..], i - 1) by {
        forall j | 0 <= j < i - 1
          ensures TitleKey(s[1..][j]) != TitleKey(s[1..][i - 1])
        {
          assert s[1..][j] == s[j + 1];
        }
      }
      DedupFromKeepsFirst(s[1..], seen', i - 1);
    }
  }

  /** Every point whose key is still unseen is kept, so every key of `s` is either in `seen`
      or carried by some kept point. */
  lemma {:induction false} DedupFromCoversKeys(s: seq<ForecastPoint>, seen: set<string>)
    ensures KeysOf(s) <= KeysOf(DedupFrom(s, seen)) + seen
    ensures KeysOf(DedupFrom(s, seen)) <= KeysOf(s)
    decreases |s|
  {
    if 0 < |s| {
      var k := TitleKey(s[0]);
      var seen' := if k in seen then seen else seen + {k};
      DedupFromCoversKeys(s[1..], seen');
      DedupFromSubsequence(s, seen);
      var r := DedupFrom(s, seen);
      assert KeysOf(s) == {k} + KeysOf(s[1..]) by {
        assert s == [s[0]] + s[1..];
        assert forall p :: p in s <==> p == s[0] || p in s[1..];
      }
      if k !in seen {
        assert r == [s[0]] + DedupFrom(s[1..], seen');
        assert KeysOf(r) == {k} + KeysOf(DedupFrom(s[1..], seen')) by {
          assert forall p :: p in r <==> p == s[0] || p in DedupFrom(s[1..], seen');
        }
      }
    }
  }

  /** A sequence whose keys are distinct and unseen passes through unchanged. */
  lemma {:induction false} DedupFromDistinctIsIdentity(s: seq<ForecastPoint>, seen: set<string>)
    requires DistinctKeys(s)
    requires forall i :: 0 <= i < |s| ==> TitleKey(s[i]) !in seen
    ensures DedupFrom(s, seen) == s
    decreases |s|
  {
    if 0 < |s| {
      var k := TitleKey(s[0]);
      assert forall i :: 1 <= i < |s| ==> TitleKey(s[i]) != k;
      assert DistinctKeys(s[1..]) by {
        forall i, j | 0 <= i < j < |s[1..]|
          ensures TitleKey(s[1..][i]) != TitleKey(s[1..][j])
        {
          assert s[1..][i] == s[i + 1] && s[1..][j] == s[j + 1];
        }
      }
      DedupFromDistinctIsIdentity(s[1..], seen + {k});
    }
  }

  /** The output keeps points in input order and never grows. */
  lemma DedupIsSubsequence(s: seq<ForecastPoint>)
    ensures IsSubsequence(Dedup(s), s)
    ensures |Dedup(s)| <= |s|
  {
    DedupFromSubsequence(s, {});
  }

  /** No two kept points share a key, and every key in the input is represented by the
      point that first carried it. */
  lemma DedupKeepsFirstOfEachKey(s: seq<ForecastPoint>)
    ensures DistinctKeys(Dedup(s))
    ensures forall i :: 0 <= i < |s| && FirstOfKey(s, i) ==> s[i] in Dedup(s)
    ensures KeysOf(Dedup(s)) == KeysOf(s)
  {
    DedupFromDistinct(s, {});
    DedupFromCoversKeys(s, {});
    forall i | 0 <= i < |s| && FirstOfKey(s, i)
      ensures s[i] in Dedup(s)
    {
      DedupFromKeepsFirst(s, {}, i);
    }
  }

  /** De-duplicating twice is the same as de-duplicating once. */
  lemma DedupIdempotent(s: seq<ForecastPoint>)
    ensures Dedup(Dedup(s)) == Dedup(s)
  {
    DedupFromDistinct(s, {});
    DedupFromDistinctIsIdentity(Dedup(s), {});
  }

  /** Two points whose questions agree on the lower-cased 50-character prefix collapse to the first. */
  lemma CollidingPairKeepsFirst(a: ForecastPoint, b: ForecastPoint)
    requires TitleKey(a) == TitleKey(b)
    ensures Dedup([a, b]) == [a]
  {
    assert [a, b][1..] == [b];
    assert [b][1..] == [];
    assert DedupFrom([b], {TitleKey(a)}) == [];
    assert DedupFrom([a, b], {}) == [a] + DedupFrom([b], {TitleKey(a)});
  }

  /** The loop of `fetch_agi_forecasts`: walk the points once, remembering the keys taken. */
  method DeduplicatePoints(points: seq<ForecastPoint>) returns (unique: seq<ForecastPoint>)
    ensures unique == Dedup(points)
    ensures IsSubsequence(unique, points)
    ensures DistinctKeys(unique)
    ensures KeysOf(unique) == KeysOf(points)
  {
    unique := [];
    var seen: set<string> := {};
    var i := 0;
    while i < |points|
      invariant 0 <= i <= |points|
      invariant unique + DedupFrom(points[i..], seen) == Dedup(points)
    {
      var p := points[i];
      var titleKey := TitleKey(p);
      assert points[i..][1..] == points[i + 1..];
      if titleKey !in seen {
        seen := seen + {titleKey};
        unique := unique + [p];
      }
      i := i + 1;
    }
    assert points[i..] == [];
    DedupIsSubsequence(points);
    DedupKeepsFirstOfEachKey(points);
  }
}
