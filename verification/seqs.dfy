/** Order-preserving selection from a sequence: Python's `[x for x in s if f(x)]`,
    and the subsequence relation it establishes. */
module Seqs {

  /** `a` can be obtained from `b` by deleting elements, keeping the rest in order. */
  predicate IsSubsequence<T(==)>(a: seq<T>, b: seq<T>)
    decreases |b|
  {
    |a| <= |b| &&
    (|a| == 0 || (a[0] == b[0] && IsSubsequence(a[1..], b[1..])) || IsSubsequence(a, b[1..]))
  }

  /** The elements of `s` that satisfy `f`, in their original order. */
  function Filter<T(==)>(f: T -> bool, s: seq<T>): (r: seq<T>)
    ensures |r| <= |s|
    decreases |s|
  {
    if |s| == 0 then []
    else (if f(s[0]) then [s[0]] else []) + Filter(f, s[1..])
  }

  /** The filtered sequence holds exactly the input elements that satisfy `f`. */
  lemma {:induction false} FilterMembers<T>(f: T -> bool, s: seq<T>)
    ensures forall x :: x in Filter(f, s) <==> x in s && f(x)
    decreases |s|
  {
    if 0 < |s| {
      FilterMembers(f, s[1..]);
      assert s == [s[0]] + s[1..];
    }
  }

  /** `FilterMembers` for one given element. */
  lemma FilterMember<T>(f: T -> bool, s: seq<T>, x: T)
    ensures x in Filter(f, s) <==> x in s && f(x)
  {
    FilterMembers(f, s);
  }

  /** Three selections whose predicates pick out every element exactly once together
      rearrange the whole input. */
  lemma {:induction false} FilterPartition3<T>(f: T -> bool, g: T -> bool, h: T -> bool, s: seq<T>)
    requires forall i :: 0 <= i < |s| ==>
      (f(s[i]) && !g(s[i]) && !h(s[i])) || (!f(s[i]) && g(s[i]) && !h(s[i])) || (!f(s[i]) && !g(s[i]) && h(s[i]))
    ensures multiset(Filter(f, s)) + multiset(Filter(g, s)) + multiset(Filter(h, s)) == multiset(s)
    ensures |Filter(f, s)| + |Filter(g, s)| + |Filter(h, s)| == |s|
    decreases |s|
  {
    if 0 < |s| {
      FilterPartition3(f, g, h, s[1..]);
      assert s == [s[0]] + s[1..];
      assert multiset(s) == multiset{s[0]} + multiset(s[1..]);
    }
  }

  /** Filtering distributes over concatenation: appending one element to the input appends it
      (or nothing) to the output, which is how a loop building the list proceeds. */
  lemma {:induction false} FilterAppend<T>(f: T -> bool, a: seq<T>, b: seq<T>)
    ensures Filter(f, a + b) == Filter(f, a) + Filter(f, b)
    decreases |a|
  {
    if |a| == 0 {
      assert a + b == b;
    } else {
      var ab := a + b;
      assert ab[0] == a[0];
      assert ab[1..] == a[1..] + b;
      FilterAppend(f, a[1..], b);
      var head := if f(a[0]) then [a[0]] else [];
      calc {
        Filter(f, ab);
        head + Filter(f, ab[1..]);
        head + (Filter(f, a[1..]) + Filter(f, b));
        (head + Filter(f, a[1..])) + Filter(f, b);
        Filter(f, a) + Filter(f, b);
      }
    }
  }

  /** The filtered sequence is a subsequence of the input. */
  lemma {:induction false} FilterIsSubsequence<T>(f: T -> bool, s: seq<T>)
    ensures IsSubsequence(Filter(f, s), s)
    decreases |s|
  {
    if 0 < |s| {
      FilterIsSubsequence(f, s[1..]);
      var r := Filter(f, s);
      if f(s[0]) {
        assert r[0] == s[0] && r[1..] == Filter(f, s[1..]);
      } else {
        assert r == Filter(f, s[1..]);
      }
    }
  }
}
