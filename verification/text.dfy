/** Character and string operations the engine borrows from Python's `str`:
    ASCII lower-casing, the `in` substring test, `s[:n]` slicing, `str(int)`
    rendering, `int(digits)` parsing and lexicographic string comparison. */
module Text {

  /** Lower-cases an ASCII upper-case letter and keeps every other character. */
  function LowerChar(c: char): char
  {
    if 'A' <= c <= 'Z' then (c as int + 32) as char else c
  }

  predicate IsUpper(c: char)
  {
    'A' <= c <= 'Z'
  }

  /** `s.lower()`, restricted to ASCII letters. */
  function Lower(s: string): (r: string)
    ensures |r| == |s|
    ensures forall i :: 0 <= i < |s| ==> r[i] == LowerChar(s[i])
    ensures forall i :: 0 <= i < |r| ==> !IsUpper(r[i])
  {
    seq(|s|, i requires 0 <= i < |s| => LowerChar(s[i]))
  }


  /** `s[:n]` for a non-negative `n`: the first `n` characters, or all of `s` if it is shorter. */
  function Take(s: string, n: nat): (r: string)
    ensures |r| == if |s| < n then |s| else n
    ensures r <= s
  {
    if |s| <= n then s else s[..n]
  }

  /** `kw` occurs in `s` starting at index `i`. */
  predicate OccursAt(s: string, kw: string, i: int)
  {
    0 <= i && i + |kw| <= |s| && s[i..i + |kw|] == kw
  }

  /** Python's `kw in s`: scans `s` from the left, comparing a window of |kw| characters. */
  predicate Contains(s: string, kw: string)
    decreases |s|
  {
    |kw| <= |s| && (s[..|kw|] == kw || (0 < |s| && Contains(s[1..], kw)))
  }

  /** The scan finds `kw` exactly when some window of `s` equals it. */
  lemma {:induction false} ContainsIff(s: string, kw: string)
    ensures Contains(s, kw) <==> exists i :: OccursAt(s, kw, i)
    decreases |s|
  {
    if Contains(s, kw) {
      if s[..|kw|] == kw {
        assert OccursAt(s, kw, 0);
      } else {
        ContainsIff(s[1..], kw);
        var i :| OccursAt(s[1..], kw, i);
        assert s[1..][i..i + |kw|] == s[i + 1..i + 1 + |kw|];
        assert OccursAt(s, kw, i + 1);
      }
    } else {
      if exists i :: OccursAt(s, kw, i) {
        var i :| OccursAt(s, kw, i);
        if i != 0 {
          assert s[1..][i - 1..i - 1 + |kw|] == s[i..i + |kw|];
          assert OccursAt(s[1..], kw, i - 1);
          ContainsIff(s[1..], kw);
        }
        assert false;
      }
    }
  }

  /** A character that Python's `\w` matches, restricted to ASCII. */
  predicate IsWordChar(c: char)
  {
    ('a' <= c <= 'z') || ('A' <= c <= 'Z') || ('0' <= c <= '9') || c == '_'
  }

  predicate IsDigit(c: char)
  {
    '0' <= c <= '9'
  }

  predicate AllDigits(s: string)
  {
    forall i :: 0 <= i < |s| ==> IsDigit(s[i])
  }

  function DigitChar(d: int): (c: char)
    requires 0 <= d < 10
    ensures IsDigit(c)
  {
    ('0' as int + d) as char
  }

  function DigitValue(c: char): (d: int)
    requires IsDigit(c)
    ensures 0 <= d < 10
    ensures DigitChar(d) == c
  {
    c as int - '0' as int
  }

  /** `int(s)` for a string of decimal digits. */
  function DigitsValue(s: string): (n: nat)
    requires AllDigits(s)
    decreases |s|
  {
    if |s| == 0 then 0 else DigitsValue(s[..|s| - 1]) * 10 + DigitValue(s[|s| - 1])
  }

  /** `str(n)` for a non-negative integer: decimal digits, no leading zeros. */
  function NatToString(n: nat): (s: string)
    ensures 1 <= |s|
    ensures AllDigits(s)
    ensures 1 < |s| ==> s[0] != '0'
    decreases n
  {
    if n < 10 then [DigitChar(n)] else NatToString(n / 10) + [DigitChar(n % 10)]
  }

  /** `str(i)` for any integer: a minus sign before the digits of a negative value. */
  function IntToString(i: int): (s: string)
    ensures 0 <= i ==> AllDigits(s)
    ensures i < 0 ==> |s| >= 2 && s[0] == '-'
  {
    if i < 0 then "-" + NatToString(-i) else NatToString(i)
  }

  /** Parsing the rendering of `n` gives back `n`. */
  lemma {:induction false} NatToStringRoundTrip(n: nat)
    ensures DigitsValue(NatToString(n)) == n
    decreases n
  {
    var s := NatToString(n);
    if n >= 10 {
      NatToStringRoundTrip(n / 10);
      assert s[..|s| - 1] == NatToString(n / 10);
    }
  }

  /** `n` written with exactly `width` digits, left-padded with zeros (Python's `{n:0{width}d}` when
      `n` fits); only the last `width` digits are kept otherwise. */
  function PadDigits(n: nat, width: nat): (s: string)
    ensures |s| == width
    ensures AllDigits(s)
    decreases width
  {
    if width == 0 then [] else PadDigits(n / 10, width - 1) + [DigitChar(n % 10)]
  }

  function Pow10(k: nat): (p: nat)
    ensures 1 <= p
  {
    if k == 0 then 1 else 10 * Pow10(k - 1)
  }

  /** A number with exactly `width` digits renders the same with or without padding. */
  lemma {:induction false} NatToStringIsPadded(n: nat, width: nat)
    requires 1 <= width
    requires n < Pow10(width)
    requires width == 1 || Pow10(width - 1) <= n
    ensures NatToString(n) == PadDigits(n, width)
    decreases width
  {
    if width == 1 {
      assert n < 10;
    } else {
      assert n >= 10;
      NatToStringIsPadded(n / 10, width - 1);
    }
  }

  /** Python's `a <= b` on strings: lexicographic by code point, a proper prefix comes first. */
  predicate LexLe(a: string, b: string)
    decreases |a|
  {
    |a| == 0 || (0 < |b| && (a[0] < b[0] || (a[0] == b[0] && LexLe(a[1..], b[1..]))))
  }

  /** Python's `a < b` on strings. */
  predicate LexLt(a: string, b: string)
  {
    LexLe(a, b) && a != b
  }

  lemma {:induction false} LexLeReflexive(a: string)
    ensures LexLe(a, a)
    decreases |a|
  {
    if 0 < |a| {
      LexLeReflexive(a[1..]);
    }
  }

  /** Two equal-length strings in strict order stay in that order whatever follows them. */
  lemma {:induction false} LexLtExtend(a: string, b: string, u: string, v: string)
    requires |a| == |b|
    requires LexLt(a, b)
    ensures LexLt(a + u, b + v)
    decreases |a|
  {
    assert 0 < |a|;
    assert (a + u)[1..] == a[1..] + u;
    assert (b + v)[1..] == b[1..] + v;
    if a[0] == b[0] {
      assert a[1..] != b[1..];
      LexLtExtend(a[1..], b[1..], u, v);
    }
  }

  /** A common prefix does not change the order of what follows. */
  lemma {:induction false} LexLeCommonPrefix(a: string, u: string, v: string)
    requires LexLe(u, v)
    ensures LexLe(a + u, a + v)
    decreases |a|
  {
    if 0 < |a| {
      assert (a + u)[1..] == a[1..] + u;
      assert (a + v)[1..] == a[1..] + v;
      LexLeCommonPrefix(a[1..], u, v);
    } else {
      assert a + u == u;
      assert a + v == v;
    }
  }

  /** Zero-padded renderings of the same width are ordered as the numbers are. */
  lemma {:induction false} PadDigitsMonotone(m: nat, n: nat, width: nat)
    requires m < n < Pow10(width)
    ensures LexLt(PadDigits(m, width), PadDigits(n, width))
    decreases width
  {
    assert width > 0;
    var pm, pn := PadDigits(m / 10, width - 1), PadDigits(n / 10, width - 1);
    if m / 10 == n / 10 {
      assert m % 10 < n % 10;
      LexLeReflexive(pm);
      assert pm == pn;
      var cm, cn := [DigitChar(m % 10)], [DigitChar(n % 10)];
      assert LexLe(cm, cn) && cm != cn;
      LexLeCommonPrefix(pm, cm, cn);
      assert (pm + cm)[|pm|] != (pn + cn)[|pn|];
    } else {
      PadDigitsMonotone(m / 10, n / 10, width - 1);
      LexLtExtend(pm, pn, [DigitChar(m % 10)], [DigitChar(n % 10)]);
    }
  }
}
