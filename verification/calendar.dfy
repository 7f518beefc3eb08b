/** The proleptic Gregorian calendar of Python's naive `datetime`, at minute resolution, and its
    conversion to and from a count of minutes since 0001-01-01 00:00 (what `timedelta`
    arithmetic does underneath). */
module Calendar {
  import opened Wrappers

  datatype DateTime = DateTime(year: int, month: int, day: int, hour: int, minute: int)

  /** `datetime.MAXYEAR`; `datetime.MINYEAR` is 1. */
  const MAX_YEAR := 9999
  const MINUTES_PER_DAY := 1440

  predicate IsLeapYear(y: int) {
    y % 4 == 0 && (y % 100 != 0 || y % 400 == 0)
  }

  function DaysInMonth(y: int, m: int): int {
    if m == 2 then (if IsLeapYear(y) then 29 else 28)
    else if m == 4 || m == 6 || m == 9 || m == 11 then 30
    else 31
  }

  function DaysInYear(y: int): int {
    if IsLeapYear(y) then 366 else 365
  }

  /** A real calendar date and time of day, with no upper bound on the year. */
  predicate Shaped(d: DateTime) {
    1 <= d.year && 1 <= d.month <= 12 && 1 <= d.day <= DaysInMonth(d.year, d.month)
    && 0 <= d.hour < 24 && 0 <= d.minute < 60
  }

  /** A value `datetime` can hold (years 1 to 9999). */
  predicate Valid(d: DateTime) {
    Shaped(d) && d.year <= MAX_YEAR
  }

  /** Days from 0001-01-01 to January 1 of year y. */
  function DaysBeforeYear(y: int): int {
    var p := y - 1;
    365 * p + p / 4 - p / 100 + p / 400
  }

  /** Days of year y before the first of month m (m == 13 gives the whole year). */
  function DaysBeforeMonth(y: int, m: int): int
    requires 1 <= m <= 13
  {
    var common :=
      if m == 1 then 0 else if m == 2 then 31 else if m == 3 then 59
      else if m == 4 then 90 else if m == 5 then 120 else if m == 6 then 151
      else if m == 7 then 181 else if m == 8 then 212 else if m == 9 then 243
      else if m == 10 then 273 else if m == 11 then 304 else if m == 12 then 334
      else 365;
    if m > 2 && IsLeapYear(y) then common + 1 else common
  }

  /** The last minute `datetime` can hold, 9999-12-31 23:59. */
  const MAX_MINUTE := DaysBeforeYear(MAX_YEAR + 1) * MINUTES_PER_DAY - 1

  /** Going from y - 1 to y, the quotients by 4, 100 and 400 each grow by one exactly when
      that divisor divides y. */
  lemma QuotientSteps(y: int)
    ensures y / 4 == (y - 1) / 4 + (if y % 4 == 0 then 1 else 0)
    ensures y / 100 == (y - 1) / 100 + (if y % 100 == 0 then 1 else 0)
    ensures y / 400 == (y - 1) / 400 + (if y % 400 == 0 then 1 else 0)
  {
  }

  lemma DaysBeforeYearStep(y: int)
    ensures DaysBeforeYear(y + 1) == DaysBeforeYear(y) + DaysInYear(y)
  {
    QuotientSteps(y);
  }

  lemma DaysBeforeMonthStep(y: int, m: int)
    requires 1 <= m <= 12
    ensures DaysBeforeMonth(y, m + 1) == DaysBeforeMonth(y, m) + DaysInMonth(y, m)
  {
  }

  /** Later years start later: year a ends no later than year b begins. */
  lemma {:induction false} DaysBeforeYearMonotone(a: int, b: int)
    requires a < b
    ensures DaysBeforeYear(a) + DaysInYear(a) <= DaysBeforeYear(b)
    decreases b - a
  {
    DaysBeforeYearStep(a);
    if a + 1 < b {
      DaysBeforeYearMonotone(a + 1, b);
    }
  }

  /** Days from 0001-01-01 to the date of d. */
  function DayNumber(d: DateTime): int
    requires Shaped(d)
  {
    DaysBeforeYear(d.year) + DaysBeforeMonth(d.year, d.month) + d.day - 1
  }

  /** The day number of d lies in year d.year: from its first day up to before the next year. */
  lemma DayNumberInYear(d: DateTime)
    requires Shaped(d)
    ensures DaysBeforeYear(d.year) <= DayNumber(d) < DaysBeforeYear(d.year + 1)
  {
    DaysBeforeMonthStep(d.year, d.month);
    DaysBeforeYearStep(d.year);
  }

  /** Minutes from 0001-01-01 00:00 to d. */
  function ToMinutes(d: DateTime): (n: int)
    requires Shaped(d)
    ensures 0 <= n
    ensures n <= MAX_MINUTE <==> d.year <= MAX_YEAR
  {
    DayNumberBounds(d);
    DayNumber(d) * MINUTES_PER_DAY + d.hour * 60 + d.minute
  }

  lemma DayNumberBounds(d: DateTime)
    requires Shaped(d)
    ensures 0 <= DayNumber(d)
    ensures DayNumber(d) < DaysBeforeYear(MAX_YEAR + 1) <==> d.year <= MAX_YEAR
  {
    DayNumberInYear(d);
    if 1 < d.year { DaysBeforeYearMonotone(1, d.year); }
    if d.year < MAX_YEAR + 1 {
      DaysBeforeYearMonotone(d.year, MAX_YEAR + 1);
    } else if MAX_YEAR + 1 < d.year {
      DaysBeforeYearMonotone(MAX_YEAR + 1, d.year);
    }
  }

  /** The year holding the day that lies `days` days after January 1 of year y, with that
      day's offset into its year. */
  function YearOf(days: int, y: int): (r: (int, int))
    requires 0 <= days && 1 <= y
    ensures y <= r.0 && 0 <= r.1 < DaysInYear(r.0)
    ensures DaysBeforeYear(r.0) + r.1 == DaysBeforeYear(y) + days
    decreases days
  {
    if days < DaysInYear(y) then (y, days)
    else
      DaysBeforeYearStep(y);
      YearOf(days - DaysInYear(y), y + 1)
  }

  /** The month, from month m on, holding day `offset` (counted from 0) of year y, with the
      day of that month. */
  function MonthOf(y: int, offset: int, m: int): (r: (int, int))
    requires 1 <= m <= 12 && DaysBeforeMonth(y, m) <= offset < DaysInYear(y)
    ensures m <= r.0 <= 12 && 1 <= r.1 <= DaysInMonth(y, r.0)
    ensures DaysBeforeMonth(y, r.0) + r.1 - 1 == offset
    decreases 12 - m
  {
    DaysBeforeMonthStep(y, m);
    if offset < DaysBeforeMonth(y, m + 1) then (m, offset - DaysBeforeMonth(y, m) + 1)
    else MonthOf(y, offset, m + 1)
  }

  /** `datetime.min + timedelta(minutes=n)`: None where Python raises OverflowError. */
  function FromMinutes(n: int): (r: Option<DateTime>)
    ensures r.Some? <==> 0 <= n <= MAX_MINUTE
    ensures r.Some? ==> Valid(r.value) && ToMinutes(r.value) == n
  {
    if 0 <= n <= MAX_MINUTE then
      var days, rest := n / MINUTES_PER_DAY, n % MINUTES_PER_DAY;
      var (y, offset) := YearOf(days, 1);
      var (m, day) := MonthOf(y, offset, 1);
      var d := DateTime(y, m, day, rest / 60, rest % 60);
      assert d.year <= MAX_YEAR by {
        if MAX_YEAR < y { DaysBeforeYearMonotone(MAX_YEAR, y); }
      }
      Some(d)
    else None
  }

  /** Two (year, offset) pairs naming the same day number are the same pair. */
  lemma YearUnique(a: int, i: int, b: int, j: int)
    requires 1 <= a && 0 <= i < DaysInYear(a)
    requires 1 <= b && 0 <= j < DaysInYear(b)
    requires DaysBeforeYear(a) + i == DaysBeforeYear(b) + j
    ensures a == b && i == j
  {
    if a < b { DaysBeforeYearMonotone(a, b); }
    if b < a { DaysBeforeYearMonotone(b, a); }
  }

  /** Two (month, day) pairs naming the same day of a year are the same pair. */
  lemma MonthUnique(y: int, m1: int, d1: int, m2: int, d2: int)
    requires 1 <= m1 <= 12 && 1 <= d1 <= DaysInMonth(y, m1)
    requires 1 <= m2 <= 12 && 1 <= d2 <= DaysInMonth(y, m2)
    requires DaysBeforeMonth(y, m1) + d1 == DaysBeforeMonth(y, m2) + d2
    ensures m1 == m2 && d1 == d2
  {
  }

  /** Every datetime survives the trip through its minute count. */
  lemma {:induction false} FromToMinutes(d: DateTime)
    requires Valid(d)
    ensures FromMinutes(ToMinutes(d)) == Some(d)
  {
    var n := ToMinutes(d);
    var days := DayNumber(d);
    assert n / MINUTES_PER_DAY == days && n % MINUTES_PER_DAY == d.hour * 60 + d.minute;
    DayNumberInYear(d);
    DaysBeforeYearStep(d.year);
    var (y, offset) := YearOf(days, 1);
    YearUnique(y, offset, d.year, DaysBeforeMonth(d.year, d.month) + d.day - 1);
    var (m, day) := MonthOf(y, offset, 1);
    MonthUnique(y, m, day, d.month, d.day);
    var rest := d.hour * 60 + d.minute;
    assert rest / 60 == d.hour && rest % 60 == d.minute;
    assert DateTime(y, m, day, rest / 60, rest % 60) == d;
  }

  /** ToMinutes is one-to-one on the values `datetime` can hold. */
  lemma ToMinutesInjective(d: DateTime, e: DateTime)
    requires Valid(d) && Valid(e) && ToMinutes(d) == ToMinutes(e)
    ensures d == e
  {
    FromToMinutes(d);
    FromToMinutes(e);
  }

  /** Python's `d < e` on naive datetimes: field by field, year first. */
  predicate Before(d: DateTime, e: DateTime) {
    || d.year < e.year
    || (d.year == e.year && d.month < e.month)
    || (d.year == e.year && d.month == e.month && d.day < e.day)
    || (d.year == e.year && d.month == e.month && d.day == e.day && d.hour < e.hour)
    || (d.year == e.year && d.month == e.month && d.day == e.day && d.hour == e.hour
        && d.minute < e.minute)
  }

  /** An earlier month of a year ends no later than a later month begins. */
  lemma DaysBeforeMonthOrder(y: int, a: int, b: int)
    requires 1 <= a < b <= 12
    ensures DaysBeforeMonth(y, a) + DaysInMonth(y, a) <= DaysBeforeMonth(y, b)
  {
  }

  /** Comparing minute counts is comparing datetimes: the minute order is Python's
      field-by-field order, so the window tests at bot.py:148 and bot.py:155 can be made on
      minute counts. */
  lemma ToMinutesOrder(d: DateTime, e: DateTime)
    requires Shaped(d) && Shaped(e)
    ensures Before(d, e) <==> ToMinutes(d) < ToMinutes(e)
  {
    DayNumberInYear(d);
    DayNumberInYear(e);
    if d.year < e.year {
      DaysBeforeYearStep(d.year);
      DaysBeforeYearMonotone(d.year, e.year);
    } else if e.year < d.year {
      DaysBeforeYearStep(e.year);
      DaysBeforeYearMonotone(e.year, d.year);
    } else if d.month < e.month {
      DaysBeforeMonthOrder(d.year, d.month, e.month);
    } else if e.month < d.month {
      DaysBeforeMonthOrder(d.year, e.month, d.month);
    }
  }

  /** Every date after year 1 lies at least a year of minutes after the origin. */
  lemma LaterThanYearOne(d: DateTime)
    requires Shaped(d) && d.year >= 2
    ensures ToMinutes(d) >= 365 * MINUTES_PER_DAY
  {
    DayNumberInYear(d);
    DaysBeforeYearMonotone(1, d.year);
  }

  /** The calendar day after d, at the same time of day. */
  function NextDay(d: DateTime): DateTime {
    if d.day < DaysInMonth(d.year, d.month) then d.(day := d.day + 1)
    else if d.month < 12 then d.(month := d.month + 1, day := 1)
    else d.(year := d.year + 1, month := 1, day := 1)
  }

  /** The next day starts exactly one day (1440 minutes) later, with month and year rollover. */
  lemma NextDayMinutes(d: DateTime)
    requires Shaped(d)
    ensures Shaped(NextDay(d))
    ensures ToMinutes(NextDay(d)) == ToMinutes(d) + MINUTES_PER_DAY
  {
    DaysBeforeMonthStep(d.year, d.month);
    DaysBeforeYearStep(d.year);
  }

  /** k calendar days after d, counted one day at a time. */
  function AddDays(d: DateTime, k: nat): DateTime
    decreases k
  {
    if k == 0 then d else AddDays(NextDay(d), k - 1)
  }

  lemma {:induction false} AddDaysMinutes(d: DateTime, k: nat)
    requires Shaped(d)
    ensures Shaped(AddDays(d, k))
    ensures ToMinutes(AddDays(d, k)) == ToMinutes(d) + k * MINUTES_PER_DAY
    decreases k
  {
    if k > 0 {
      NextDayMinutes(d);
      AddDaysMinutes(NextDay(d), k - 1);
    }
  }

  /** `dt + timedelta(days=k)` is the k-th next calendar day, or an OverflowError (None) when
      that day is past year 9999. */
  lemma {:induction false} ShiftByDays(d: DateTime, k: nat)
    requires Valid(d)
    ensures FromMinutes(ToMinutes(d) + k * MINUTES_PER_DAY)
         == if AddDays(d, k).year <= MAX_YEAR then Some(AddDays(d, k)) else None
  {
    AddDaysMinutes(d, k);
    if AddDays(d, k).year <= MAX_YEAR {
      FromToMinutes(AddDays(d, k));
    }
  }
}
