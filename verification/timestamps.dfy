/** The capture timestamp of the generator: the clock reading `datetime.now()`
    rendered with the strftime pattern "%Y:%m:%d %H:%M:%S" (app.py:47), and a
    parser that reads such a string back. */
module Timestamps {

  import opened Wrappers

  /** A clock reading as Python's `datetime` holds it, down to the second. */
  datatype DateTime = DateTime(year: int, month: int, day: int, hour: int, minute: int, second: int)

  /** Gregorian leap-year rule, as `datetime` applies it. */
  predicate IsLeapYear(y: int) {
    y % 4 == 0 && (y % 100 != 0 || y % 400 == 0)
  }

  function DaysInMonth(y: int, m: int): (n: int)
    requires 1 <= m <= 12
    ensures 28 <= n <= 31
  {
    if m == 2 then (if IsLeapYear(y) then 29 else 28)
    else if m == 4 || m == 6 || m == 9 || m == 11 then 30
    else 31
  }

  /** The readings a `datetime` can hold: years MINYEAR 1 to MAXYEAR 9999,
      calendar-correct days, and no leap second. */
  predicate Valid(t: DateTime) {
    && 1 <= t.year <= 9999
    && 1 <= t.month <= 12
    && 1 <= t.day <= DaysInMonth(t.year, t.month)
    && 0 <= t.hour <= 23
    && 0 <= t.minute <= 59
    && 0 <= t.second <= 59
  }

  predicate IsDigit(c: char) {
    '0' <= c <= '9'
  }

  predicate AllDigits(s: string) {
    forall i :: 0 <= i < |s| ==> IsDigit(s[i])
  }

  function DigitValue(c: char): (d: nat)
    requires IsDigit(c)
    ensures d <= 9
  {
    (c as int) - ('0' as int)
  }

  function DigitChar(d: nat): (c: char)
    requires d <= 9
    ensures IsDigit(c) && DigitValue(c) == d
  {
    (d + ('0' as int)) as char
  }

  function Pow10(n: nat): (p: nat)
    ensures p >= 1
  {
    if n == 0 then 1 else 10 * Pow10(n - 1)
  }

  /** `n` in decimal, zero-padded on the left to exactly `width` digits: the
      rendering strftime gives each numeric field. */
  function PadDecimal(n: nat, width: nat): (s: string)
    requires n < Pow10(width)
    ensures |s| == width
    ensures AllDigits(s)
  {
    if width == 0 then []
    else PadDecimal(n / 10, width - 1) + [DigitChar(n % 10)]
  }

  /** The number a string of decimal digits denotes. */
  function DecimalValue(s: string): (n: nat)
    requires AllDigits(s)
    ensures n < Pow10(|s|)
  {
    if |s| == 0 then 0
    else 10 * DecimalValue(s[..|s| - 1]) + DigitValue(s[|s| - 1])
  }

  lemma {:induction false} DecimalOfPad(n: nat, width: nat)
    requires n < Pow10(width)
    ensures DecimalValue(PadDecimal(n, width)) == n
  {
    if width > 0 {
      var s := PadDecimal(n, width);
      assert s[..|s| - 1] == PadDecimal(n / 10, width - 1);
      DecimalOfPad(n / 10, width - 1);
    }
  }

  lemma {:induction false} PadOfDecimal(s: string)
    requires AllDigits(s)
    ensures PadDecimal(DecimalValue(s), |s|) == s
  {
    if |s| > 0 {
      var init := s[..|s| - 1];
      assert AllDigits(init);
      PadOfDecimal(init);
      var n := DecimalValue(s);
      assert n / 10 == DecimalValue(init);
      assert n % 10 == DigitValue(s[|s| - 1]);
      assert s == init + [s[|s| - 1]];
    }
  }

  /** The positions of the separators in "YYYY:MM:DD HH:MM:SS". */
  predicate IsColonIndex(i: int) {
    i == 4 || i == 7 || i == 13 || i == 16
  }

  /** The fixed shape of a rendered timestamp: 19 characters, ':' at indices
      4, 7, 13 and 16, ' ' at index 10, and a decimal digit everywhere else. */
  predicate HasStampShape(s: string) {
    && |s| == 19
    && forall i :: 0 <= i < |s| ==>
         if IsColonIndex(i) then s[i] == ':'
         else if i == 10 then s[i] == ' '
         else IsDigit(s[i])
  }

  /** strftime("%Y:%m:%d %H:%M:%S") of a clock reading. */
  function Format(t: DateTime): (s: string)
    requires Valid(t)
    ensures HasStampShape(s)
  {
    PadDecimal(t.year, 4) + ":" + PadDecimal(t.month, 2) + ":" + PadDecimal(t.day, 2)
    + " " + PadDecimal(t.hour, 2) + ":" + PadDecimal(t.minute, 2) + ":" + PadDecimal(t.second, 2)
  }

  /** The field between `lo` and `hi` of a well-shaped stamp, as a number. */
  function Field(s: string, lo: nat, hi: nat): nat
    requires HasStampShape(s)
    requires lo <= hi <= 19
    requires forall i :: lo <= i < hi ==> !IsColonIndex(i) && i != 10
  {
    assert forall i :: 0 <= i < hi - lo ==> s[lo..hi][i] == s[lo + i];
    DecimalValue(s[lo..hi])
  }

  /** Reads "YYYY:MM:DD HH:MM:SS" back into a clock reading; `None` when the
      string is not of that shape or names no valid reading. */
  function Parse(s: string): (r: Option<DateTime>)
    ensures r.Some? ==> Valid(r.value)
  {
    if !HasStampShape(s) then None
    else
      var t := DateTime(Field(s, 0, 4), Field(s, 5, 7), Field(s, 8, 10),
                        Field(s, 11, 13), Field(s, 14, 16), Field(s, 17, 19));
      if Valid(t) then Some(t) else None
  }

  lemma ParseFormat(t: DateTime)
    requires Valid(t)
    ensures Parse(Format(t)) == Some(t)
  {
    var s := Format(t);
    assert s[0..4] == PadDecimal(t.year, 4);
    assert s[5..7] == PadDecimal(t.month, 2);
    assert s[8..10] == PadDecimal(t.day, 2);
    assert s[11..13] == PadDecimal(t.hour, 2);
    assert s[14..16] == PadDecimal(t.minute, 2);
    assert s[17..19] == PadDecimal(t.second, 2);
    DecimalOfPad(t.year, 4);
    DecimalOfPad(t.month, 2);
    DecimalOfPad(t.day, 2);
    DecimalOfPad(t.hour, 2);
    DecimalOfPad(t.minute, 2);
    DecimalOfPad(t.second, 2);
  }

  lemma {:induction false} FieldRendersBack(s: string, lo: nat, hi: nat)
    requires HasStampShape(s)
    requires lo <= hi <= 19
    requires forall i :: lo <= i < hi ==> !IsColonIndex(i) && i != 10
    ensures PadDecimal(Field(s, lo, hi), hi - lo) == s[lo..hi]
  {
    assert forall i :: 0 <= i < hi - lo ==> s[lo..hi][i] == s[lo + i];
    PadOfDecimal(s[lo..hi]);
  }

  /** A well-shaped stamp is its six fields joined by the fixed separators. */
  lemma StampSplits(s: string)
    requires HasStampShape(s)
    ensures s == s[0..4] + ":" + s[5..7] + ":" + s[8..10] + " " + s[11..13] + ":" + s[14..16] + ":" + s[17..19]
  {
    var j := s[0..4] + ":" + s[5..7] + ":" + s[8..10] + " " + s[11..13] + ":" + s[14..16] + ":" + s[17..19];
    assert |j| == 19;
    forall i | 0 <= i < 19
      ensures j[i] == s[i]
    {
      if IsColonIndex(i) || i == 10 {
        assert j[i] == s[i];
      }
    }
  }

  lemma FormatParse(s: string)
    requires Parse(s).Some?
    ensures Format(Parse(s).value) == s
  {
    var t := Parse(s).value;
    assert t.year == Field(s, 0, 4) && t.month == Field(s, 5, 7) && t.day == Field(s, 8, 10);
    assert t.hour == Field(s, 11, 13) && t.minute == Field(s, 14, 16) && t.second == Field(s, 17, 19);
    FieldRendersBack(s, 0, 4);
    FieldRendersBack(s, 5, 7);
    FieldRendersBack(s, 8, 10);
    FieldRendersBack(s, 11, 13);
    FieldRendersBack(s, 14, 16);
    FieldRendersBack(s, 17, 19);
    StampSplits(s);
  }

  /** Distinct clock readings never render to the same stamp. */
  lemma FormatInjective(t: DateTime, u: DateTime)
    requires Valid(t) && Valid(u)
    requires Format(t) == Format(u)
    ensures t == u
  {
    ParseFormat(t);
    ParseFormat(u);
  }
}
