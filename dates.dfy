/**
 * Calendar dates as (year, month, day) triples, and the parsing that
 * datetime.strptime(s, '%Y-%m-%d') performs: a four-digit year, a month of
 * one or two digits (1..12), a day of one or two digits (1..31, or a blank
 * followed by one digit), separated by '-', with nothing left over, naming a
 * day that exists in the proleptic Gregorian calendar.
 */
module Dates {
  import opened Wrappers
  import opened Text

  datatype Date = Date(year: int, month: int, day: int)

  predicate IsLeapYear(y: int)
  {
    (y % 4 == 0 && y % 100 != 0) || y % 400 == 0
  }

  function DaysInMonth(y: int, m: int): int
    requires 1 <= m <= 12
  {
    if m == 2 then (if IsLeapYear(y) then 29 else 28)
    else if m == 4 || m == 6 || m == 9 || m == 11 then 30
    else 31
  }

  /** A date Python's datetime.date accepts. */
  predicate ValidDate(d: Date)
  {
    1 <= d.year <= 9999 && 1 <= d.month <= 12 && 1 <= d.day <= DaysInMonth(d.year, d.month)
  }

  /** Python's `a > b` on dates: later in the calendar (lexicographic on the triple). */
  predicate IsAfter(a: Date, b: Date)
  {
    a.year > b.year
    || (a.year == b.year && a.month > b.month)
    || (a.year == b.year && a.month == b.month && a.day > b.day)
  }

  /** The %m field: one or two digits naming 1..12 (the pattern 1[0-2]|0[1-9]|[1-9]). */
  function ParseMonth(seg: string): (r: Option<int>)
    ensures r.Some? ==> 1 <= r.value <= 12
  {
    if 1 <= |seg| <= 2 && AllDigits(seg) && 1 <= DigitsValue(seg) <= 12 then Some(DigitsValue(seg)) else None
  }

  /** The %d field: one or two digits naming 1..31, or a blank and one digit (the pattern 3[01]|[12]\d|0[1-9]|[1-9]| [1-9]). */
  function ParseDay(seg: string): (r: Option<int>)
    ensures r.Some? ==> 1 <= r.value <= 31
  {
    if 1 <= |seg| <= 2 && AllDigits(seg) && 1 <= DigitsValue(seg) <= 31 then Some(DigitsValue(seg))
    else if |seg| == 2 && seg[0] == ' ' && '1' <= seg[1] <= '9' then Some(seg[1] as int - '0' as int)
    else None
  }

  /**
   * datetime.strptime(s, '%Y-%m-%d').date(): Some(date) when s is accepted,
   * None where Python raises ValueError. Every accepted date is valid.
   */
  function ParseIsoDate(s: string): (r: Option<Date>)
    ensures r.Some? ==> ValidDate(r.value)
  {
    if |s| < 8 || !AllDigits(s[..4]) || s[4] != '-' then None
    else
      var monthLen := if s[6] == '-' then 1 else 2;
      if monthLen == 2 && s[7] != '-' then None
      else
        var year := DigitsValue(s[..4]);
        FourDigitsBound(s[..4]);
        match (ParseMonth(s[5..5 + monthLen]), ParseDay(s[6 + monthLen..]))
        case (Some(m), Some(d)) =>
          if 1 <= year && d <= DaysInMonth(year, m) then Some(Date(year, m, d)) else None
        case _ => None
  }

  /** n written with at least `width` digits, padded on the left with zeros (the %04d / %02d of isoformat). */
  function ZeroPad(n: nat, width: nat): (r: string)
    ensures AllDigits(r) && |r| >= width
  {
    var digits := NatToString(n);
    if |digits| >= width then digits else seq(width - |digits|, _ => '0') + digits
  }

  /** date.isoformat(): YYYY-MM-DD with zero padding. */
  function FormatIsoDate(d: Date): (s: string)
    requires ValidDate(d)
    ensures |s| == 10 && s[4] == '-' && s[7] == '-'
    ensures AllDigits(s[..4]) && AllDigits(s[5..7]) && AllDigits(s[8..])
  {
    assert Pow10(4) == 10000 && Pow10(2) == 100 by {
      assert Pow10(1) == 10;
      assert Pow10(3) == 1000;
    }
    ZeroPadValue(d.year, 4);
    ZeroPadValue(d.month, 2);
    ZeroPadValue(d.day, 2);
    ZeroPad(d.year, 4) + "-" + ZeroPad(d.month, 2) + "-" + ZeroPad(d.day, 2)
  }

  function Pow10(k: nat): nat
  {
    if k == 0 then 1 else 10 * Pow10(k - 1)
  }

  lemma {:induction false} NatToStringLength(n: nat, k: nat)
    requires 1 <= k && n < Pow10(k)
    ensures |NatToString(n)| <= k
  {
    assert Pow10(1) == 10;
    if n >= 10 {
      NatToStringLength(n / 10, k - 1);
    }
  }

  /** A string of k digits denotes a number below 10^k. */
  lemma {:induction false} DigitsValueBound(s: string)
    requires AllDigits(s)
    ensures DigitsValue(s) < Pow10(|s|)
  {
    if s != [] {
      DigitsValueBound(s[..|s| - 1]);
    }
  }

  lemma FourDigitsBound(t: string)
    requires |t| == 4 && AllDigits(t)
    ensures DigitsValue(t) <= 9999
  {
    DigitsValueBound(t);
    assert Pow10(4) == 10000 by { assert Pow10(2) == 100; }
  }

  /** The value of a short digit string, digit by digit. */
  lemma DigitsValueOfFour(s: string)
    requires |s| == 4 && AllDigits(s)
    ensures DigitsValue(s) == 1000 * (s[0] as int - '0' as int) + 100 * (s[1] as int - '0' as int)
                              + 10 * (s[2] as int - '0' as int) + (s[3] as int - '0' as int)
  {
    DigitsValueOfOne(s[..1]);
    assert s[..2][..1] == s[..1];
    assert DigitsValue(s[..2]) == 10 * DigitsValue(s[..1]) + (s[1] as int - '0' as int);
    assert s[..3][..2] == s[..2];
    assert DigitsValue(s[..3]) == 10 * DigitsValue(s[..2]) + (s[2] as int - '0' as int);
    assert s[..4][..3] == s[..3];
    assert s == s[..4];
  }

  lemma DigitsValueOfTwo(s: string)
    requires |s| == 2 && AllDigits(s)
    ensures DigitsValue(s) == 10 * (s[0] as int - '0' as int) + (s[1] as int - '0' as int)
  {
    DigitsValueOfOne(s[..1]);
    assert s[..1] == s[..|s| - 1];
  }

  lemma DigitsValueOfOne(s: string)
    requires |s| == 1 && AllDigits(s)
    ensures DigitsValue(s) == s[0] as int - '0' as int
  {
    assert s[..0] == [];
  }

  /** Leading zeros do not change the value of a digit string. */
  lemma {:induction false} LeadingZeros(z: nat, t: string)
    requires AllDigits(t)
    ensures AllDigits(seq(z, _ => '0') + t)
    ensures DigitsValue(seq(z, _ => '0') + t) == DigitsValue(t)
    decreases |t|, z
  {
    var zs: string := seq(z, _ => '0');
    if t == [] {
      assert zs + t == zs;
      if z > 0 {
        assert zs[..z - 1] == seq(z - 1, _ => '0');
        LeadingZeros(z - 1, []);
        assert seq(z - 1, _ => '0') + [] == seq(z - 1, _ => '0');
      }
    } else {
      var t' := t[..|t| - 1];
      LeadingZeros(z, t');
      assert (zs + t)[..|zs + t| - 1] == zs + t';
    }
  }

  lemma ZeroPadValue(n: nat, width: nat)
    requires 1 <= width && n < Pow10(width)
    ensures |ZeroPad(n, width)| == width
    ensures DigitsValue(ZeroPad(n, width)) == n
  {
    var digits := NatToString(n);
    NatToStringLength(n, width);
    NatToStringRoundTrip(n);
    if |digits| < width {
      LeadingZeros(width - |digits|, digits);
    }
  }

  /** Parsing the isoformat of a valid date gives that date back. */
  lemma FormatParseRoundTrip(d: Date)
    requires ValidDate(d)
    ensures ParseIsoDate(FormatIsoDate(d)) == Some(d)
  {
    assert Pow10(4) == 10000 && Pow10(2) == 100 by {
      assert Pow10(1) == 10;
      assert Pow10(3) == 1000;
    }
    ZeroPadValue(d.year, 4);
    ZeroPadValue(d.month, 2);
    ZeroPadValue(d.day, 2);
    var y, m, dd := ZeroPad(d.year, 4), ZeroPad(d.month, 2), ZeroPad(d.day, 2);
    var s := FormatIsoDate(d);
    assert s == y + "-" + m + "-" + dd;
    assert |s| == 10;
    assert s[..4] == y;
    assert s[4] == '-';
    assert s[6] == m[1];
    assert s[7] == '-';
    assert s[5..7] == m;
    assert s[8..] == dd;
  }

  // strptime's behaviour on a few concrete strings.

  /** The fields of a YYYY-MM-DD string, evaluated. */
  lemma {:induction false} ParseTenCharacters(s: string)
    requires |s| == 10 && AllDigits(s[..4]) && s[4] == '-' && IsDigit(s[5]) && IsDigit(s[6]) && s[7] == '-'
    requires IsDigit(s[8]) && IsDigit(s[9])
    ensures var y := DigitsValue(s[..4]); var m := DigitsValue(s[5..7]); var d := DigitsValue(s[8..]);
            ParseIsoDate(s) == if 1 <= y && 1 <= m <= 12 && 1 <= d <= 31 && d <= DaysInMonth(y, if 1 <= m <= 12 then m else 1)
                               then Some(Date(y, m, d)) else None
  {
  }

  lemma ParsesIsoDay()
    ensures ParseIsoDate("2020-01-01") == Some(Date(2020, 1, 1))
  {
    ParseTenCharacters("2020-01-01");
    DigitsValueOfFour("2020-01-01"[..4]);
    DigitsValueOfTwo("2020-01-01"[5..7]);
    DigitsValueOfTwo("2020-01-01"[8..]);
  }

  lemma ParsesTwentiethCenturyDay()
    ensures ParseIsoDate("1990-01-01") == Some(Date(1990, 1, 1))
  {
    ParseTenCharacters("1990-01-01");
    DigitsValueOfFour("1990-01-01"[..4]);
    DigitsValueOfTwo("1990-01-01"[5..7]);
    DigitsValueOfTwo("1990-01-01"[8..]);
  }

  lemma RejectsDayFirst()
    ensures ParseIsoDate("01-01-2020") == None
    ensures ParseIsoDate("01-01-1990") == None
    ensures ParseIsoDate("") == None
  {
  }

  lemma AcceptsSingleDigitFields()
    ensures ParseIsoDate("2020-1-5") == Some(Date(2020, 1, 5))
  {
    var s := "2020-1-5";
    DigitsValueOfFour(s[..4]);
    DigitsValueOfOne(s[5..6]);
    DigitsValueOfOne(s[7..]);
  }

  lemma AcceptsLeapDay()
    ensures ParseIsoDate("2020-02-29") == Some(Date(2020, 2, 29))
  {
    ParseTenCharacters("2020-02-29");
    DigitsValueOfFour("2020-02-29"[..4]);
    DigitsValueOfTwo("2020-02-29"[5..7]);
    DigitsValueOfTwo("2020-02-29"[8..]);
  }

  /** A YYYY-02-29 string is accepted exactly when its year is a leap year. */
  lemma LeapDayNeedsLeapYear(s: string)
    requires |s| == 10 && AllDigits(s[..4]) && s[4..] == "-02-29"
    ensures var y := DigitsValue(s[..4]);
            ParseIsoDate(s) == if 1 <= y && IsLeapYear(y) then Some(Date(y, 2, 29)) else None
  {
    assert s[4] == '-' && s[5] == '0' && s[6] == '2' && s[7] == '-' && s[8] == '2' && s[9] == '9' by {
      assert s[4..][0] == '-' && s[4..][1] == '0' && s[4..][2] == '2';
      assert s[4..][3] == '-' && s[4..][4] == '2' && s[4..][5] == '9';
    }
    ParseTenCharacters(s);
    DigitsValueOfTwo(s[5..7]);
    DigitsValueOfTwo(s[8..]);
  }

  lemma RejectsLeapDayOfCommonYear()
    ensures ParseIsoDate("2021-02-29") == None
  {
    ParseTenCharacters("2021-02-29");
    DigitsValueOfFour("2021-02-29"[..4]);
    DigitsValueOfTwo("2021-02-29"[5..7]);
    DigitsValueOfTwo("2021-02-29"[8..]);
  }

  /** The century rule: 1900 is divisible by 4 but not a leap year, so 1900-02-29 is refused. */
  lemma RejectsLeapDayOfCentury()
    ensures ParseIsoDate("1900-02-29") == None
  {
    LeapDayNeedsLeapYear("1900-02-29");
    DigitsValueOfFour("1900-02-29"[..4]);
    assert !IsLeapYear(1900);
  }
}
