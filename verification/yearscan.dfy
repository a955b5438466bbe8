/** The year search that the Polymarket and Manifold scrapers run over a market question
    (aioracle/scraper.py:175-179 and 228-232): the leftmost match of
    `\b(202[5-9]|20[3-9]\d|21\d\d)\b`, converted with `int`. Word characters are ASCII here. */
module YearScan {
  import opened Wrappers
  import opened Text

  /** Four digits matching one of the three alternatives `202[5-9]`, `20[3-9]\d`, `21\d\d`. */
  predicate YearPattern(t: string)
  {
    |t| == 4 && AllDigits(t) && t[0] == '2' &&
    ((t[1] == '0' && t[2] == '2' && '5' <= t[3]) ||
     (t[1] == '0' && '3' <= t[2]) ||
     t[1] == '1')
  }

  /** `\b` before position `i` when `s[i]` is a word character: nothing or a non-word character precedes. */
  predicate BoundaryBefore(s: string, i: int)
    requires 0 <= i <= |s|
  {
    i == 0 || !IsWordChar(s[i - 1])
  }

  /** `\b` at position `j` when `s[j - 1]` is a word character: nothing or a non-word character follows. */
  predicate BoundaryAfter(s: string, j: int)
    requires 0 <= j <= |s|
  {
    j == |s| || !IsWordChar(s[j])
  }

  /** The whole pattern matches `s[i..i + 4]`. Every alternative is four characters wide and
      starts and ends with a digit, so each `\b` reduces to a test of one neighbour. */
  predicate MatchAt(s: string, i: int)
  {
    0 <= i && i + 4 <= |s| &&
    BoundaryBefore(s, i) && YearPattern(s[i..i + 4]) && BoundaryAfter(s, i + 4)
  }

  /** The alternation accepts exactly the four-digit numbers 2025 to 2199. */
  lemma YearPatternIsRange(t: string)
    requires |t| == 4 && AllDigits(t)
    ensures YearPattern(t) <==> 2025 <= DigitsValue(t) <= 2199
  {
    assert t[..3][..2] == t[..2];
    assert t[..2][..1] == t[..1];
    assert t[..1][..0] == [];
    var d0, d1, d2, d3 := DigitValue(t[0]), DigitValue(t[1]), DigitValue(t[2]), DigitValue(t[3]);
    assert DigitsValue(t[..1]) == d0;
    assert DigitsValue(t[..2]) == d0 * 10 + d1;
    assert DigitsValue(t[..3]) == (d0 * 10 + d1) * 10 + d2;
    assert DigitsValue(t) == 1000 * d0 + 100 * d1 + 10 * d2 + d3;
  }

  /** `re.search` from position `from` on: the first position where the pattern matches. */
  function FindFrom(s: string, from: nat): (r: Option<nat>)
    requires from <= |s|
    ensures r.Some? ==> from <= r.value && MatchAt(s, r.value)
    ensures r.Some? ==> forall k :: from <= k < r.value ==> !MatchAt(s, k)
    ensures r.None? ==> forall k :: from <= k ==> !MatchAt(s, k)
    decreases |s| - from
  {
    if MatchAt(s, from) then Some(from)
    else if from + 4 > |s| then None
    else FindFrom(s, from + 1)
  }

  /** The year a question mentions: `int(match.group(1))` of the leftmost match, or nothing. */
  function ExtractYear(question: string): (y: Option<int>)
    ensures y.None? <==> forall k :: !MatchAt(question, k)
    ensures y.Some? ==> 2025 <= y.value <= 2199
  {
    match FindFrom(question, 0)
    case None => None
    case Some(i) =>
      var t := question[i..i + 4];
      YearPatternIsRange(t);
      Some(DigitsValue(t))
  }

  /** The year comes from the leftmost match: a later mention never wins. */
  lemma ExtractYearIsLeftmost(question: string, i: int)
    requires MatchAt(question, i)
    requires forall k :: 0 <= k < i ==> !MatchAt(question, k)
    ensures ExtractYear(question) == Some(DigitsValue(question[i..i + 4]))
  {
    assert FindFrom(question, 0) == Some(i);
  }

  /** A question that is a bare four-digit number yields that number exactly when it is
      between 2025 and 2199. */
  lemma BareYear(t: string)
    requires |t| == 4 && AllDigits(t)
    ensures ExtractYear(t).Some? <==> 2025 <= DigitsValue(t) <= 2199
    ensures ExtractYear(t).Some? ==> ExtractYear(t).value == DigitsValue(t)
  {
    YearPatternIsRange(t);
    assert t[0..4] == t;
    if YearPattern(t) {
      ExtractYearIsLeftmost(t, 0);
    } else {
      assert FindFrom(t, 0) == None;
    }
  }

  /** A year in the middle of a question is found. */
  lemma YearInQuestionExample()
    ensures ExtractYear("AGI by 2030?") == Some(2030)
  {
    var a := "AGI by 2030?";
    assert a[7..11] == "2030";
    assert MatchAt(a, 7);
    ExtractYearIsLeftmost(a, 7);
    assert DigitsValue("2030") == 2030;
  }

  /** A year outside the range does not match, so a later one in range is taken. */
  lemma OutOfRangeYearSkippedExample()
    ensures ExtractYear("2024 or 2150") == Some(2150)
  {
    var b := "2024 or 2150";
    assert b[8..12] == "2150";
    assert b[0..4] == "2024";
    assert MatchAt(b, 8);
    ExtractYearIsLeftmost(b, 8);
    assert DigitsValue("2150") == 2150;
  }

  /** Digits glued to a letter or to a fifth digit have no word boundary, so nothing matches. */
  lemma NoBoundaryExample()
    ensures ExtractYear("v2030") == None
    ensures ExtractYear("20300") == None
  {
    assert FindFrom("v2030", 0) == None;
    assert FindFrom("20300", 0) == None;
  }
}
