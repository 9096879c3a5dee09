/** Proleptic Gregorian calendar arithmetic, standing in for the pandas
    `Timestamp` operations the forecasting code uses on calendar days:
    `dayofweek` (Monday = 0), month lengths, `replace(day=1)`, and adding or
    subtracting whole days.

    Days are numbered from 0001-01-01 (day 0), which was a Monday, so the
    weekday of a date is simply its day number modulo 7. */
module Calendar {

  import opened Wrappers
  import opened Text

  datatype Date = Date(year: int, month: int, day: int)

  predicate IsLeapYear(y: int) {
    y % 4 == 0 && (y % 100 != 0 || y % 400 == 0)
  }

  /** Length of month `m` of year `y`. */
  function DaysInMonth(y: int, m: int): (n: int)
    requires 1 <= m <= 12
    ensures 28 <= n <= 31
    ensures n == 28 <==> m == 2 && !IsLeapYear(y)
    ensures n == 29 <==> m == 2 && IsLeapYear(y)
    ensures n == 30 <==> m == 4 || m == 6 || m == 9 || m == 11
  {
    if m == 2 then (if IsLeapYear(y) then 29 else 28)
    else if m == 4 || m == 6 || m == 9 || m == 11 then 30
    else 31
  }

  predicate Valid(d: Date) {
    1 <= d.year && 1 <= d.month <= 12 && 1 <= d.day <= DaysInMonth(d.year, d.month)
  }

  /** A date the calendar has, as every pandas timestamp is. */
  type CalDate = d: Date | Valid(d) witness Date(1, 1, 1)

  function YearLength(y: int): int {
    if IsLeapYear(y) then 366 else 365
  }

  /** Number of days in the years 1 .. y-1. */
  function DaysBeforeYear(y: int): nat
    requires 1 <= y
    decreases y
  {
    if y == 1 then 0 else DaysBeforeYear(y - 1) + YearLength(y - 1)
  }

  /** Number of days in the months 1 .. m-1 of year y. */
  function DaysBeforeMonth(y: int, m: int): nat
    requires 1 <= m <= 12
  {
    var common :=
      if m == 1 then 0 else if m == 2 then 31 else if m == 3 then 59
      else if m == 4 then 90 else if m == 5 then 120 else if m == 6 then 151
      else if m == 7 then 181 else if m == 8 then 212 else if m == 9 then 243
      else if m == 10 then 273 else if m == 11 then 304 else 334;
    if m > 2 && IsLeapYear(y) then common + 1 else common
  }

  /** Days elapsed since 0001-01-01 (the proleptic Gregorian ordinal minus one). */
  function DayNumber(d: Date): nat
    requires Valid(d)
  {
    DaysBeforeYear(d.year) + DaysBeforeMonth(d.year, d.month) + d.day - 1
  }

  /** pandas `dayofweek`: Monday = 0 … Sunday = 6. */
  function Weekday(d: Date): int
    requires Valid(d)
  {
    DayNumber(d) % 7
  }

  /** pandas `quarter`. */
  function Quarter(d: Date): int
    requires Valid(d)
  {
    (d.month - 1) / 3 + 1
  }

  /** The calendar day after `d`. */
  function NextDay(d: Date): (r: Date)
    requires Valid(d)
    ensures Valid(r)
    ensures DayNumber(r) == DayNumber(d) + 1
  {
    if d.day < DaysInMonth(d.year, d.month) then Date(d.year, d.month, d.day + 1)
    else if d.month < 12 then Date(d.year, d.month + 1, 1)
    else Date(d.year + 1, 1, 1)
  }

  /** The calendar day before `d`; 0001-01-01 has none. */
  function PrevDay(d: Date): (r: Date)
    requires Valid(d) && DayNumber(d) > 0
    ensures Valid(r)
    ensures DayNumber(r) + 1 == DayNumber(d)
  {
    if d.day > 1 then Date(d.year, d.month, d.day - 1)
    else if d.month > 1 then Date(d.year, d.month - 1, DaysInMonth(d.year, d.month - 1))
    else Date(d.year - 1, 12, 31)
  }

  /** `d + Timedelta(days=k)`. */
  function AddDays(d: Date, k: nat): (r: Date)
    requires Valid(d)
    ensures Valid(r)
    ensures DayNumber(r) == DayNumber(d) + k
    decreases k
  {
    if k == 0 then d else AddDays(NextDay(d), k - 1)
  }

  /** `d - Timedelta(days=k)`. */
  function SubDays(d: Date, k: nat): (r: Date)
    requires Valid(d) && k <= DayNumber(d)
    ensures Valid(r)
    ensures DayNumber(r) + k == DayNumber(d)
    decreases k
  {
    if k == 0 then d else SubDays(PrevDay(d), k - 1)
  }

  lemma {:induction false} DaysBeforeYearMonotone(a: int, b: int)
    requires 1 <= a <= b
    ensures DaysBeforeYear(a) + (b - a) * 365 <= DaysBeforeYear(b)
    decreases b - a
  {
    if a < b {
      DaysBeforeYearMonotone(a, b - 1);
    }
  }

  lemma DayOfYearBounds(d: Date)
    requires Valid(d)
    ensures DaysBeforeMonth(d.year, d.month) + d.day - 1 < YearLength(d.year)
  {
  }

  /** Lexicographic (year, month, day) order is day-number order. */
  predicate Before(a: Date, b: Date) {
    a.year < b.year
    || (a.year == b.year && a.month < b.month)
    || (a.year == b.year && a.month == b.month && a.day < b.day)
  }

  lemma BeforeMeansSmallerDayNumber(a: Date, b: Date)
    requires Valid(a) && Valid(b) && Before(a, b)
    ensures DayNumber(a) < DayNumber(b)
  {
    if a.year < b.year {
      DayOfYearBounds(a);
      DaysBeforeYearMonotone(a.year + 1, b.year);
      assert DaysBeforeYear(a.year + 1) == DaysBeforeYear(a.year) + YearLength(a.year);
    } else if a.month < b.month {
      assert DaysBeforeMonth(a.year, a.month) + DaysInMonth(a.year, a.month)
          <= DaysBeforeMonth(b.year, b.month);
    }
  }

  /** Distinct valid dates have distinct day numbers. */
  lemma DayNumberInjective(a: Date, b: Date)
    requires Valid(a) && Valid(b) && DayNumber(a) == DayNumber(b)
    ensures a == b
  {
    if Before(a, b) {
      BeforeMeansSmallerDayNumber(a, b);
    } else if Before(b, a) {
      BeforeMeansSmallerDayNumber(b, a);
    }
  }

  /** Days in the first `n` Gregorian years, in closed form. */
  function DaysInYears(n: int): int {
    365 * n + n / 4 - n / 100 + n / 400
  }

  /** Stepping from `m` to `m + 1` raises the quotients by 4, 100 and 400
      by one exactly at their multiples. */
  lemma LeapCountStep(m: int)
    ensures (m + 1) / 4 == m / 4 + (if (m + 1) % 4 == 0 then 1 else 0)
    ensures (m + 1) / 100 == m / 100 + (if (m + 1) % 100 == 0 then 1 else 0)
    ensures (m + 1) / 400 == m / 400 + (if (m + 1) % 400 == 0 then 1 else 0)
  {
  }

  /** Multiples of 400 are multiples of 100, which are multiples of 4. */
  lemma MultipleChain(n: int)
    ensures n % 400 == 0 ==> n % 100 == 0
    ensures n % 100 == 0 ==> n % 4 == 0
  {
    if n % 400 == 0 {
      var q := n / 400;
      assert n == 100 * (4 * q);
    }
    if n % 100 == 0 {
      var q := n / 100;
      assert n == 4 * (25 * q);
    }
  }

  /** The closed form grows by one year's length per year. */
  lemma DaysInYearsStep(m: int)
    ensures DaysInYears(m + 1) == DaysInYears(m) + YearLength(m + 1)
  {
    LeapCountStep(m);
    MultipleChain(m + 1);
    var a := if (m + 1) % 4 == 0 then 1 else 0;
    var b := if (m + 1) % 100 == 0 then 1 else 0;
    var c := if (m + 1) % 400 == 0 then 1 else 0;
    assert DaysInYears(m + 1) == DaysInYears(m) + 365 + a - b + c;
    assert YearLength(m + 1) == 365 + a - b + c;
  }

  /** The year-by-year count agrees with the closed form. */
  lemma {:induction false} DaysBeforeYearClosedForm(y: int)
    requires 1 <= y
    ensures DaysBeforeYear(y) == DaysInYears(y - 1)
    decreases y
  {
    if y > 1 {
      DaysBeforeYearClosedForm(y - 1);
      DaysInYearsStep(y - 2);
    }
  }

  /** The date with day number `k`. */
  function DateOfDay(k: nat): (d: Date)
    ensures Valid(d) && DayNumber(d) == k
  {
    AddDays(Date(1, 1, 1), k)
  }

  /** The Monday starting the week of `d` (what the weekly bucketing computes
      as `date - dayofweek days`). */
  function MondayOfWeek(d: Date): (r: Date)
    requires Valid(d)
    ensures Valid(r) && Weekday(r) == 0
    ensures DayNumber(r) <= DayNumber(d) <= DayNumber(r) + 6
  {
    var n := DayNumber(d);
    var r := SubDays(d, n % 7);
    assert DayNumber(r) == 7 * (n / 7);
    MultipleOfSevenIsMonday(n / 7);
    r
  }

  lemma MultipleOfSevenIsMonday(k: nat)
    ensures (7 * k) % 7 == 0
  {
  }

  /** `to_period('M').to_timestamp()`: the first day of the month of `d`. */
  function FirstOfMonth(d: Date): (r: Date)
    requires Valid(d)
    ensures Valid(r) && r.day == 1 && r.year == d.year && r.month == d.month
    ensures DayNumber(r) + d.day - 1 == DayNumber(d)
  {
    Date(d.year, d.month, 1)
  }

  /** The month length as prediction.py computes it:
      `(date.replace(day=28) + 4 days).replace(day=1) - 1 day`, then `.day`. */
  function MonthLengthByShift(d: Date): int
    requires Valid(d)
  {
    var day28 := Date(d.year, d.month, 28);
    var nextMonth := AddDays(day28, 4);
    var first := Date(nextMonth.year, nextMonth.month, 1);
    PrevDay(first).day
  }

  /** The shift trick always yields the Gregorian length of the month. */
  lemma MonthLengthByShiftIsDaysInMonth(d: Date)
    requires Valid(d)
    ensures MonthLengthByShift(d) == DaysInMonth(d.year, d.month)
  {
    var day28 := Date(d.year, d.month, 28);
    var n := DaysInMonth(d.year, d.month);
    var d1 := NextDay(day28);
    var d2 := NextDay(d1);
    var d3 := NextDay(d2);
    var d4 := NextDay(d3);
    assert AddDays(day28, 4) == d4 by {
      assert AddDays(day28, 4) == AddDays(d1, 3);
      assert AddDays(d1, 3) == AddDays(d2, 2);
      assert AddDays(d2, 2) == AddDays(d3, 1);
      assert AddDays(d3, 1) == AddDays(d4, 0);
    }
    if d.month < 12 {
      assert d4 == Date(d.year, d.month + 1, 32 - n);
    } else {
      assert d4 == Date(d.year + 1, 1, 32 - n);
    }
  }

  /** The first and last midnight a nanosecond pandas `Timestamp` holds:
      `Timestamp.min` is 1677-09-21 00:12:43.145224193 and `Timestamp.max`
      is 2262-04-11 23:47:16.854775807. */
  const FirstTimestampDate: Date := Date(1677, 9, 22)
  const LastTimestampDate: Date := Date(2262, 4, 11)

  /** `pd.to_datetime` of a date outside this range raises
      `OutOfBoundsDatetime`. */
  predicate InTimestampRange(d: Date) {
    !Before(d, FirstTimestampDate) && !Before(LastTimestampDate, d)
  }

  /** Parses an ISO `YYYY-MM-DD` calendar date as `pd.to_datetime` does;
      `None` when the text is not of that shape, names a day the calendar
      does not have, or lies outside the nanosecond timestamp range. */
  function ParseIsoDate(s: string): (r: Option<Date>)
    ensures r.Some? ==> Valid(r.value) && InTimestampRange(r.value)
    ensures r.Some? ==> |s| == 10 && s[4] == '-' && s[7] == '-'
  {
    if |s| == 10 && s[4] == '-' && s[7] == '-'
       && AllDigits(s[..4]) && AllDigits(s[5..7]) && AllDigits(s[8..])
    then
      var d := Date(DigitsToInt(s[..4]), DigitsToInt(s[5..7]), DigitsToInt(s[8..]));
      if 1 <= d.month <= 12 && 1 <= d.year && 1 <= d.day <= DaysInMonth(d.year, d.month) && InTimestampRange(d)
      then Some(d) else None
    else None
  }

  /** `strftime('%Y-%m-%d')`: the zero-padded ISO text of a date. */
  function IsoText(d: Date): (s: string)
    requires 0 <= d.year && 0 <= d.month && 0 <= d.day
    ensures |s| == 10 && s[4] == '-' && s[7] == '-'
  {
    PaddedText(d.year, 4) + "-" + PaddedText(d.month, 2) + "-" + PaddedText(d.day, 2)
  }

  /** Every date in the timestamp range is accepted in its ISO text, and
      reads back as itself. */
  lemma ParseIsoText(d: Date)
    requires Valid(d) && InTimestampRange(d)
    ensures ParseIsoDate(IsoText(d)) == Some(d)
  {
    var s := IsoText(d);
    assert s[..4] == PaddedText(d.year, 4);
    assert s[5..7] == PaddedText(d.month, 2);
    assert s[8..] == PaddedText(d.day, 2);
    assert Pow10(4) == 10000 && Pow10(2) == 100;
    PaddedTextRoundTrip(d.year, 4);
    PaddedTextRoundTrip(d.month, 2);
    PaddedTextRoundTrip(d.day, 2);
  }

  /** A leap day is accepted. */
  lemma LeapDayAccepted()
    ensures ParseIsoDate("2024-02-29") == Some(Date(2024, 2, 29))
  {
    ParseIsoText(Date(2024, 2, 29));
    assert IsoText(Date(2024, 2, 29)) == "2024-02-29";
  }

  /** The text of a date is rejected when the date is not a valid calendar
      day or lies outside the timestamp range. */
  lemma RejectedIsoText(d: Date)
    requires 0 <= d.year < 10000 && 0 <= d.month < 100 && 0 <= d.day < 100
    requires !Valid(d) || !InTimestampRange(d)
    ensures ParseIsoDate(IsoText(d)) == None
  {
    var s := IsoText(d);
    assert s[..4] == PaddedText(d.year, 4);
    assert s[5..7] == PaddedText(d.month, 2);
    assert s[8..] == PaddedText(d.day, 2);
    assert Pow10(4) == 10000 && Pow10(2) == 100;
    PaddedTextRoundTrip(d.year, 4);
    PaddedTextRoundTrip(d.month, 2);
    PaddedTextRoundTrip(d.day, 2);
  }

  /** A date before the first timestamp is rejected. */
  lemma EarlyDateRejected()
    ensures ParseIsoDate("1500-01-01") == None
  {
    RejectedIsoText(Date(1500, 1, 1));
    assert IsoText(Date(1500, 1, 1)) == "1500-01-01";
  }

  /** An accepted text is exactly the ISO text of the date it yields, so
      parsing is one-to-one and nothing but `YYYY-MM-DD` is accepted. */
  lemma ParsedIsIsoText(s: string)
    requires ParseIsoDate(s).Some?
    ensures s == IsoText(ParseIsoDate(s).value)
  {
    IsoTextOfParts(s);
  }

  /** A `YYYY-MM-DD`-shaped text of digits is the ISO text of the date its
      digit runs read as. */
  lemma IsoTextOfParts(s: string)
    requires |s| == 10 && s[4] == '-' && s[7] == '-'
    requires AllDigits(s[..4]) && AllDigits(s[5..7]) && AllDigits(s[8..])
    ensures IsoText(Date(DigitsToInt(s[..4]), DigitsToInt(s[5..7]), DigitsToInt(s[8..]))) == s
  {
    DigitsArePadded(s[..4]);
    DigitsArePadded(s[5..7]);
    DigitsArePadded(s[8..]);
    assert s == s[..4] + "-" + s[5..7] + "-" + s[8..];
  }

}
