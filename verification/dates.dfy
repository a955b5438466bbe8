/** Conversion of a fractional year to a `YYYY-MM-01` string
    (aioracle/backend.py:351-364). */
module Dates {
  import opened Text

  /** Python's `int(x)` on a float: truncation toward zero. */
  function Trunc(x: real): (i: int)
    ensures 0.0 <= x ==> i as real <= x < i as real + 1.0
    ensures x < 0.0 ==> i as real - 1.0 < x <= i as real
  {
    if 0.0 <= x then x.Floor else -((-x).Floor)
  }

  /** `max(lo, min(hi, v))` */
  function Clamp(lo: int, hi: int, v: int): int
  {
    if v < lo then lo else if hi < v then hi else v
  }

  datatype YearMonth = YearMonth(year: int, month: int)
  {
    /** Lexicographic order on (year, month). */
    predicate NotAfter(other: YearMonth)
    {
      year < other.year || (year == other.year && month <= other.month)
    }
  }

  /** The month before clamping: `int((year - int(year)) * 12) + 1`. */
  function RawMonth(y: real): int
  {
    Trunc((y - Trunc(y) as real) * 12.0) + 1
  }

  /** The year and the clamped month that the date string shows. For a non-negative year the
      clamp never fires, and the pair names the twelfth of the year that holds `y`. */
  function DateParts(y: real): (d: YearMonth)
    ensures 1 <= d.month <= 12
    ensures 0.0 <= y ==> d.year == y.Floor && d.month == RawMonth(y)
    ensures 0.0 <= y ==>
      d.year as real + (d.month - 1) as real / 12.0 <= y < d.year as real + d.month as real / 12.0
  {
    var yr := Trunc(y);
    var month := Clamp(1, 12, RawMonth(y));
    if 0.0 <= y then
      var f := y - yr as real;
      assert 0.0 <= f < 1.0;
      var t := Trunc(f * 12.0);
      assert t as real <= f * 12.0 < t as real + 1.0;
      YearMonth(yr, month)
    else
      YearMonth(yr, month)
  }

  /** "-MM-01" */
  function MonthDaySuffix(month: int): string
    requires 0 <= month
  {
    "-" + PadDigits(month, 2) + "-01"
  }

  /** `_year_to_date_string`: `f"{yr}-{month:02d}-01"`. */
  function YearToDateString(y: real): string
  {
    var d := DateParts(y);
    IntToString(d.year) + MonthDaySuffix(d.month)
  }

  /** A later fractional year never gives an earlier (year, month) pair. */
  lemma DatePartsMonotone(y1: real, y2: real)
    requires 0.0 <= y1 <= y2
    ensures DateParts(y1).NotAfter(DateParts(y2))
  {
  }

  /** For years with four digits the date strings are ordered as the years are, so comparing
      the stored strings compares the dates. */
  lemma DateStringMonotone(y1: real, y2: real)
    requires 1000.0 <= y1 <= y2 < 10000.0
    ensures LexLe(YearToDateString(y1), YearToDateString(y2))
  {
    var d1, d2 := DateParts(y1), DateParts(y2);
    DatePartsMonotone(y1, y2);
    assert 1000 <= d1.year <= d2.year <= 9999;
    NatToStringIsPadded(d1.year, 4);
    NatToStringIsPadded(d2.year, 4);
    var a1, a2 := IntToString(d1.year), IntToString(d2.year);
    var u1, u2 := MonthDaySuffix(d1.month), MonthDaySuffix(d2.month);
    if d1.year < d2.year {
      PadDigitsMonotone(d1.year, d2.year, 4);
      LexLtExtend(a1, a2, u1, u2);
    } else {
      assert d1.month <= d2.month;
      var p1, p2 := PadDigits(d1.month, 2), PadDigits(d2.month, 2);
      if d1.month < d2.month {
        PadDigitsMonotone(d1.month, d2.month, 2);
        LexLtExtend(p1, p2, "-01", "-01");
      } else {
        LexLeReflexive(p1 + "-01");
      }
      assert u1 == "-" + (p1 + "-01");
      assert u2 == "-" + (p2 + "-01");
      LexLeCommonPrefix("-", p1 + "-01", p2 + "-01");
      LexLeCommonPrefix(a1, u1, u2);
    }
  }

  /** A whole year falls in January. */
  lemma WholeYearIsJanuary()
    ensures YearToDateString(2030.0) == "2030-01-01"
  {
    assert DateParts(2030.0) == YearMonth(2030, 1);
    assert IntToString(2030) == "2030";
    assert PadDigits(1, 2) == "01";
  }

  /** Half a year in is the start of July. */
  lemma MidYearIsJuly()
    ensures YearToDateString(2030.5) == "2030-07-01"
  {
    assert DateParts(2030.5) == YearMonth(2030, 7);
    assert IntToString(2030) == "2030";
    assert PadDigits(7, 2) == "07";
  }

  /** The last fraction of a year is December: the month never reaches 13 here. */
  lemma LateYearIsDecember()
    ensures YearToDateString(2030.999) == "2030-12-01"
  {
    assert DateParts(2030.999) == YearMonth(2030, 12);
    assert IntToString(2030) == "2030";
    assert PadDigits(12, 2) == "12";
  }

  /** Truncation toward zero makes the raw month of a negative fractional year drop below 1;
      only then does the clamp fire. */
  lemma NegativeYearIsClamped()
    ensures RawMonth(-0.5) == -5
    ensures DateParts(-0.5) == YearMonth(0, 1)
  {
    assert Trunc(-0.5) == 0;
    assert Trunc(-6.0) == -6;
  }
}
