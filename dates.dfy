/**
 * Calendar dates as Python's `datetime.date` sees them: the proleptic
 * Gregorian calendar, years 1 to 9999, compared field by field.
 */
module Dates {
  import opened Wrappers
  import opened Digits

  datatype Date = Date(year: int, month: int, day: int)

  const MinYear: int := 1
  const MaxYear: int := 9999

  predicate ValidYear(y: int) {
    MinYear <= y <= MaxYear
  }

  /** The Gregorian leap-year rule. */
  predicate IsLeapYear(y: int) {
    y % 4 == 0 && (y % 100 != 0 || y % 400 == 0)
  }

  /** The length of a month, as `calendar.monthrange(y, m)[1]` gives it. */
  function DaysInMonth(y: int, m: int): (n: int)
    requires 1 <= m <= 12
    ensures 28 <= n <= 31
    ensures m == 2 ==> (n == 29 <==> IsLeapYear(y))
  {
    if m == 2 then (if IsLeapYear(y) then 29 else 28)
    else if m == 4 || m == 6 || m == 9 || m == 11 then 30
    else 31
  }

  /** The dates the `date` constructor accepts without raising `ValueError`. */
  predicate ValidDate(d: Date) {
    && ValidYear(d.year)
    && 1 <= d.month <= 12
    && 1 <= d.day <= DaysInMonth(d.year, d.month)
  }

  /** Date order: year, then month, then day. */
  predicate DateLt(a: Date, b: Date) {
    || a.year < b.year
    || (a.year == b.year && a.month < b.month)
    || (a.year == b.year && a.month == b.month && a.day < b.day)
  }

  predicate DateLe(a: Date, b: Date) {
    DateLt(a, b) || a == b
  }

  lemma DateOrderIsStrictTotal(a: Date, b: Date, c: Date)
    ensures !DateLt(a, a)
    ensures DateLt(a, b) || a == b || DateLt(b, a)
    ensures DateLt(a, b) && DateLt(b, c) ==> DateLt(a, c)
    ensures DateLt(a, b) ==> !DateLt(b, a)
  {
  }

  /** The number of days in a year, by adding up its months. */
  function DaysBeforeMonth(y: int, m: int): (n: int)
    requires 1 <= m <= 13
    decreases m
  {
    if m == 1 then 0 else DaysBeforeMonth(y, m - 1) + DaysInMonth(y, m - 1)
  }

  lemma YearLength(y: int)
    ensures DaysBeforeMonth(y, 13) == if IsLeapYear(y) then 366 else 365
  {
  }

  /**
   * The first and the last day of month `m` of year `y`: the value of
   * `_get_month_range`. The range holds exactly the valid dates of that
   * month, and its last day is the last valid day of the month.
   */
  function MonthRange(y: int, m: int): (r: (Date, Date))
    requires ValidYear(y) && 1 <= m <= 12
    ensures r.0 == Date(y, m, 1)
    ensures ValidDate(r.0) && ValidDate(r.1) && DateLe(r.0, r.1)
    ensures r.1.year == y && r.1.month == m && !ValidDate(Date(y, m, r.1.day + 1))
    ensures forall d :: ValidDate(d) ==>
              (DateLe(r.0, d) && DateLe(d, r.1) <==> d.year == y && d.month == m)
  {
    (Date(y, m, 1), Date(y, m, DaysInMonth(y, m)))
  }

  /** The day after `d` in the calendar. */
  function NextDay(d: Date): (r: Date)
    requires ValidDate(d)
    ensures DateLt(d, r)
    ensures ValidYear(r.year) ==> ValidDate(r)
    ensures forall x :: ValidDate(x) ==> !(DateLt(d, x) && DateLt(x, r))
  {
    if d.day < DaysInMonth(d.year, d.month) then Date(d.year, d.month, d.day + 1)
    else if d.month < 12 then Date(d.year, d.month + 1, 1)
    else Date(d.year + 1, 1, 1)
  }

  /** Consecutive month ranges are adjacent: they neither overlap nor leave a gap. */
  lemma MonthRangesAreAdjacent(y: int, m: int)
    requires ValidYear(y) && 1 <= m <= 12
    requires m == 12 ==> y < MaxYear
    ensures var next := if m < 12 then MonthRange(y, m + 1) else MonthRange(y + 1, 1);
            NextDay(MonthRange(y, m).1) == next.0
  {
  }

  /** `d` written as `%Y-%m-%d`: four-digit year, two-digit month and day. */
  function FormatIsoDate(d: Date): (s: string)
    requires ValidDate(d)
    ensures |s| == 10 && s[4] == '-' && s[7] == '-'
  {
    PadDigits(d.year, 4) + "-" + PadDigits(d.month, 2) + "-" + PadDigits(d.day, 2)
  }

  /**
   * A strict `YYYY-MM-DD` recogniser standing for `strptime(s, "%Y-%m-%d")`:
   * None where the text is not of that shape or names no calendar date.
   */
  function ParseIsoDate(s: string): (r: Option<Date>)
    ensures r.Some? ==> ValidDate(r.value)
  {
    if |s| == 10 && AllDigits(s[..4]) && s[4] == '-' && AllDigits(s[5..7]) && s[7] == '-'
       && AllDigits(s[8..])
    then
      var d := Date(ValueOf(s[..4]), ValueOf(s[5..7]), ValueOf(s[8..]));
      if ValidDate(d) then Some(d) else None
    else None
  }

  /** Every valid date is read back from its own rendering. */
  lemma ParseFormatRoundTrip(d: Date)
    requires ValidDate(d)
    ensures ParseIsoDate(FormatIsoDate(d)) == Some(d)
  {
    var s := FormatIsoDate(d);
    assert s[..4] == PadDigits(d.year, 4);
    assert s[5..7] == PadDigits(d.month, 2);
    assert s[8..] == PadDigits(d.day, 2);
    PadDigitsRoundTrip(d.year, 4);
    PadDigitsRoundTrip(d.month, 2);
    PadDigitsRoundTrip(d.day, 2);
  }

  /** Every text the recogniser accepts is the rendering of the date it yields. */
  lemma FormatParseRoundTrip(s: string)
    requires ParseIsoDate(s).Some?
    ensures FormatIsoDate(ParseIsoDate(s).value) == s
  {
    ValueOfRoundTrip(s[..4]);
    ValueOfRoundTrip(s[5..7]);
    ValueOfRoundTrip(s[8..]);
    assert s == s[..4] + "-" + s[5..7] + "-" + s[8..];
  }
}
