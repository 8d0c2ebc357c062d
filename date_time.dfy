/**
 * The parts of Python's `datetime` that the modelled code relies on: the
 * proleptic Gregorian calendar, day ordinals (`date.toordinal()`, day 1 is
 * 0001-01-01) and `datetime.strptime` with the formats "%Y/%m/%d" and
 * "%Y-%m-%d". Dates are handled as day ordinals elsewhere in the model.
 */
module DateTime {
  import opened Wrappers

  datatype Date = Date(year: int, month: int, day: int)

  const MinYear := 1
  const MaxYear := 9999

  /** The calendar rule `datetime` applies. */
  predicate IsLeapYear(y: int)
  {
    y % 4 == 0 && (y % 100 != 0 || y % 400 == 0)
  }

  function DaysInMonth(y: int, m: int): (n: int)
    requires 1 <= m <= 12
    ensures 28 <= n <= 31
  {
    if m == 2 then (if IsLeapYear(y) then 29 else 28)
    else if m == 4 || m == 6 || m == 9 || m == 11 then 30
    else 31
  }

  predicate ValidDate(d: Date)
  {
    MinYear <= d.year <= MaxYear && 1 <= d.month <= 12 && 1 <= d.day <= DaysInMonth(d.year, d.month)
  }

  function DaysBeforeYear(y: int): int
    requires y >= 1
  {
    var p := y - 1;
    365 * p + p / 4 - p / 100 + p / 400
  }

  function DaysBeforeMonth(y: int, m: int): (n: int)
    requires 1 <= m <= 12
    ensures n >= 0
  {
    if m == 1 then 0 else DaysBeforeMonth(y, m - 1) + DaysInMonth(y, m - 1)
  }

  /** date.toordinal(): 0001-01-01 is day 1. */
  function Ordinal(d: Date): int
    requires ValidDate(d)
  {
    DaysBeforeYear(d.year) + DaysBeforeMonth(d.year, d.month) + d.day
  }

  /** A year has 366 days exactly when the leap rule says so. */
  lemma YearLength(y: int)
    requires 1 <= y
    ensures DaysBeforeYear(y + 1) - DaysBeforeYear(y) == if IsLeapYear(y) then 366 else 365
  {
    var p := y - 1;
    assert y / 4 - p / 4 == if y % 4 == 0 then 1 else 0;
    assert y / 100 - p / 100 == if y % 100 == 0 then 1 else 0;
    assert y / 400 - p / 400 == if y % 400 == 0 then 1 else 0;
  }

  /** Ordinals are consecutive within a year and across New Year. */
  lemma OrdinalOfNextYear(y: int)
    requires MinYear <= y < MaxYear
    ensures Ordinal(Date(y + 1, 1, 1)) == Ordinal(Date(y, 1, 1)) + if IsLeapYear(y) then 366 else 365
  {
    YearLength(y);
  }

  // ---------------------------------------------------------------------
  // strptime for "%Y<sep>%m<sep>%d"
  //
  // CPython matches %Y with exactly four digits, %m with 1[0-2]|0[1-9]|[1-9],
  // %d with 3[01]|[12]\d|0[1-9]|[1-9]| [1-9], rejects unconverted trailing
  // text, and then rejects dates the calendar does not have (including
  // year 0). Only ASCII digits are modelled.

  predicate IsDigit(c: char) { '0' <= c <= '9' }

  function DigitValue(c: char): (v: int)
    requires IsDigit(c)
    ensures 0 <= v <= 9
  {
    (c as int) - ('0' as int)
  }

  predicate IsSeparator(sep: char) { sep == '/' || sep == '-' }

  /** The value of a %Y token: exactly four digits. */
  function YearToken(t: string): Option<int>
  {
    if |t| == 4 && IsDigit(t[0]) && IsDigit(t[1]) && IsDigit(t[2]) && IsDigit(t[3]) then
      Some(1000 * DigitValue(t[0]) + 100 * DigitValue(t[1]) + 10 * DigitValue(t[2]) + DigitValue(t[3]))
    else None
  }

  /** The value of a %m token. */
  function MonthToken(t: string): (r: Option<int>)
    ensures r.Some? ==> 1 <= r.value <= 12
  {
    if |t| == 1 && '1' <= t[0] <= '9' then Some(DigitValue(t[0]))
    else if |t| == 2 && t[0] == '0' && '1' <= t[1] <= '9' then Some(DigitValue(t[1]))
    else if |t| == 2 && t[0] == '1' && '0' <= t[1] <= '2' then Some(10 + DigitValue(t[1]))
    else None
  }

  /** The value of a %d token. */
  function DayToken(t: string): (r: Option<int>)
    ensures r.Some? ==> 1 <= r.value <= 31
  {
    if |t| == 1 && '1' <= t[0] <= '9' then Some(DigitValue(t[0]))
    else if |t| == 2 && (t[0] == '0' || t[0] == ' ') && '1' <= t[1] <= '9' then Some(DigitValue(t[1]))
    else if |t| == 2 && (t[0] == '1' || t[0] == '2') && IsDigit(t[1]) then Some(10 * DigitValue(t[0]) + DigitValue(t[1]))
    else if |t| == 2 && t[0] == '3' && (t[1] == '0' || t[1] == '1') then Some(30 + DigitValue(t[1]))
    else None
  }

  /** datetime.strptime(s, "%Y<sep>%m<sep>%d"), None where it raises ValueError. */
  function Strptime(s: string, sep: char): (r: Option<Date>)
    requires IsSeparator(sep)
    ensures r.Some? ==> ValidDate(r.value)
  {
    if |s| < 5 || s[4] != sep then None
    else
      var rest := s[5..];
      var monthLength := if |rest| > 1 && rest[1] == sep then 1 else if |rest| > 2 && rest[2] == sep then 2 else 0;
      if monthLength == 0 then None
      else
        var y, m, d := YearToken(s[..4]), MonthToken(rest[..monthLength]), DayToken(rest[monthLength + 1..]);
        if y.None? || m.None? || d.None? then None
        else if ValidDate(Date(y.value, m.value, d.value)) then Some(Date(y.value, m.value, d.value))
        else None
  }

  // ---------------------------------------------------------------------
  // strftime("%Y<sep>%m<sep>%d"), the partner of Strptime

  function DigitChar(v: int): (c: char)
    requires 0 <= v <= 9
    ensures IsDigit(c) && DigitValue(c) == v
  {
    (('0' as int) + v) as char
  }

  function Pad2(v: int): (s: string)
    requires 0 <= v <= 99
    ensures |s| == 2
  {
    [DigitChar(v / 10), DigitChar(v % 10)]
  }

  function Pad4(v: int): (s: string)
    requires 0 <= v <= 9999
    ensures |s| == 4
  {
    Pad2(v / 100) + Pad2(v % 100)
  }

  function Format(d: Date, sep: char): (s: string)
    requires ValidDate(d)
    ensures |s| == 10
  {
    Pad4(d.year) + [sep] + Pad2(d.month) + [sep] + Pad2(d.day)
  }

  lemma YearRoundTrip(y: int)
    requires 0 <= y <= 9999
    ensures YearToken(Pad4(y)) == Some(y)
  {
    var h, l := y / 100, y % 100;
    assert y == 100 * h + l;
    assert h == 10 * (h / 10) + h % 10;
    assert l == 10 * (l / 10) + l % 10;
    var t := Pad4(y);
    assert DigitValue(t[0]) == h / 10 && DigitValue(t[1]) == h % 10;
    assert DigitValue(t[2]) == l / 10 && DigitValue(t[3]) == l % 10;
  }

  lemma MonthRoundTrip(m: int)
    requires 1 <= m <= 12
    ensures MonthToken(Pad2(m)) == Some(m)
  {
  }

  lemma DayRoundTrip(d: int)
    requires 1 <= d <= 31
    ensures DayToken(Pad2(d)) == Some(d)
  {
  }

  /** Every calendar date written as YYYY<sep>MM<sep>DD is read back unchanged. */
  lemma ParseFormatted(d: Date, sep: char)
    requires ValidDate(d) && IsSeparator(sep)
    ensures Strptime(Format(d, sep), sep) == Some(d)
  {
    var s := Format(d, sep);
    var rest := s[5..];
    assert s[..4] == Pad4(d.year);
    assert rest == Pad2(d.month) + [sep] + Pad2(d.day);
    assert rest[..2] == Pad2(d.month);
    assert rest[3..] == Pad2(d.day);
    YearRoundTrip(d.year);
    MonthRoundTrip(d.month);
    DayRoundTrip(d.day);
  }
}
