/**
  The date-fns operations the navigators call, on the proleptic Gregorian
  calendar in local time (no time zones, no daylight-saving shifts).

  An `Instant` is a local calendar date plus a millisecond of that day, the
  way a JavaScript `Date` reads in local time. Months are numbered 0..11 as
  `getMonth` returns them; weekdays 0 (Sunday) .. 6 (Saturday) as `getDay`
  returns them. `Ordinal` places an instant on one time line (milliseconds
  since 0001-01-01 00:00), which is what `isAfter` compares.
*/
module Calendar {

  /** Milliseconds in a calendar day. */
  const MsPerDay: int := 86_400_000

  /** The millisecond of 23:59:59.999. */
  const LastMs: int := MsPerDay - 1

  /** The Gregorian leap-year rule. */
  predicate IsLeapYear(year: int) {
    year % 4 == 0 && (year % 100 != 0 || year % 400 == 0)
  }

  /** Length of month `month` (0 = January) of `year`. */
  function DaysInMonth(year: int, month: int): (n: int)
    requires 0 <= month < 12
    ensures 28 <= n <= 31
    ensures n == 29 <==> month == 1 && IsLeapYear(year)
  {
    if month == 1 then (if IsLeapYear(year) then 29 else 28)
    else if month == 3 || month == 5 || month == 8 || month == 10 then 30
    else 31
  }

  datatype Date = Date(year: int, month: int, day: int) {
    predicate Valid() {
      0 <= month < 12 && 1 <= day <= DaysInMonth(year, month)
    }
  }

  datatype Instant = Instant(date: Date, ms: int) {
    predicate Valid() {
      date.Valid() && 0 <= ms < MsPerDay
    }
  }

  /** Days in the months of `year` that come before `month`. */
  function DaysBeforeMonth(year: int, month: int): int
    requires 0 <= month <= 12
  {
    var common :=
      if month == 0 then 0 else if month == 1 then 31 else if month == 2 then 59
      else if month == 3 then 90 else if month == 4 then 120 else if month == 5 then 151
      else if month == 6 then 181 else if month == 7 then 212 else if month == 8 then 243
      else if month == 9 then 273 else if month == 10 then 304 else if month == 11 then 334
      else 365;
    common + if month >= 2 && IsLeapYear(year) then 1 else 0
  }

  /** Days from 0001-01-01 to January 1 of `year`. */
  function DaysBeforeYear(year: int): int {
    365 * (year - 1) + (year - 1) / 4 - (year - 1) / 100 + (year - 1) / 400
  }

  /** Days from 0001-01-01 (day 0) to `d`. */
  function DayNumber(d: Date): int
    requires d.Valid()
  {
    DaysBeforeYear(d.year) + DaysBeforeMonth(d.year, d.month) + d.day - 1
  }

  lemma DaysBeforeMonthStep(year: int, month: int)
    requires 0 <= month < 12
    ensures DaysBeforeMonth(year, month + 1) == DaysBeforeMonth(year, month) + DaysInMonth(year, month)
  {
  }

  lemma DaysBeforeYearStep(year: int)
    ensures DaysBeforeYear(year + 1) == DaysBeforeYear(year) + DaysBeforeMonth(year, 12)
  {
    assert year / 4 - (year - 1) / 4 == if year % 4 == 0 then 1 else 0;
    assert year / 100 - (year - 1) / 100 == if year % 100 == 0 then 1 else 0;
    assert year / 400 - (year - 1) / 400 == if year % 400 == 0 then 1 else 0;
  }

  lemma DaysBeforeYearMonotone(a: int, b: int)
    requires a <= b
    ensures DaysBeforeYear(a) <= DaysBeforeYear(b)
  {
  }

  /** The calendar day after `d` (what `addDays(d, 1)` does to the date). */
  function NextDay(d: Date): (r: Date)
    requires d.Valid()
    ensures r.Valid() && DayNumber(r) == DayNumber(d) + 1
  {
    if d.day < DaysInMonth(d.year, d.month) then Date(d.year, d.month, d.day + 1)
    else if d.month < 11 then
      DaysBeforeMonthStep(d.year, d.month);
      Date(d.year, d.month + 1, 1)
    else
      DaysBeforeYearStep(d.year);
      Date(d.year + 1, 0, 1)
  }

  /** The calendar day before `d` (what `addDays(d, -1)` does to the date). */
  function PrevDay(d: Date): (r: Date)
    requires d.Valid()
    ensures r.Valid() && DayNumber(r) == DayNumber(d) - 1
  {
    if d.day > 1 then Date(d.year, d.month, d.day - 1)
    else if d.month > 0 then
      DaysBeforeMonthStep(d.year, d.month - 1);
      Date(d.year, d.month - 1, DaysInMonth(d.year, d.month - 1))
    else
      DaysBeforeYearStep(d.year - 1);
      Date(d.year - 1, 11, 31)
  }

  /** Lexicographic (year, month, day) order. */
  predicate DateBefore(d: Date, e: Date) {
    d.year < e.year
    || (d.year == e.year && (d.month < e.month || (d.month == e.month && d.day < e.day)))
  }

  lemma DayNumberWithinYear(d: Date)
    requires d.Valid()
    ensures DaysBeforeYear(d.year) <= DayNumber(d) < DaysBeforeYear(d.year + 1)
  {
    DaysBeforeMonthStep(d.year, d.month);
    DaysBeforeYearStep(d.year);
  }

  /** Day numbers follow calendar order. */
  lemma DayNumberMonotone(d: Date, e: Date)
    requires d.Valid() && e.Valid() && DateBefore(d, e)
    ensures DayNumber(d) < DayNumber(e)
  {
    if d.year < e.year {
      DayNumberWithinYear(d);
      DayNumberWithinYear(e);
      DaysBeforeYearMonotone(d.year + 1, e.year);
    } else if d.month < e.month {
      DaysBeforeMonthStep(d.year, d.month);
    }
  }

  /** A date is determined by its day number. */
  lemma DayNumberInjective(d: Date, e: Date)
    requires d.Valid() && e.Valid() && DayNumber(d) == DayNumber(e)
    ensures d == e
  {
    if DateBefore(d, e) {
      DayNumberMonotone(d, e);
    } else if DateBefore(e, d) {
      DayNumberMonotone(e, d);
    }
  }

  /** `getDay`: 0 = Sunday .. 6 = Saturday (0001-01-01 was a Monday). */
  function Weekday(d: Date): (w: int)
    requires d.Valid()
    ensures 0 <= w < 7
  {
    (DayNumber(d) + 1) % 7
  }

  lemma EqualModSevenWithinAWeek(n: int, m: int)
    requires n % 7 == m % 7 && -7 < n - m < 7
    ensures n == m
  {
  }

  lemma ModSevenPeriodic(n: int)
    ensures (n + 7) % 7 == n % 7 && (n - 7) % 7 == n % 7
  {
  }

  /** Two dates with the same weekday less than a week apart are the same date. */
  lemma SameWeekdayWithinAWeek(d: Date, e: Date)
    requires d.Valid() && e.Valid()
    requires Weekday(d) == Weekday(e)
    requires -7 < DayNumber(d) - DayNumber(e) < 7
    ensures d == e
  {
    EqualModSevenWithinAWeek(DayNumber(d) + 1, DayNumber(e) + 1);
    DayNumberInjective(d, e);
  }

  /** Dates a week apart fall on the same weekday. */
  lemma WeekdayWeekApart(d: Date, e: Date)
    requires d.Valid() && e.Valid()
    requires DayNumber(e) == DayNumber(d) + 7 || DayNumber(e) == DayNumber(d) - 7
    ensures Weekday(e) == Weekday(d)
  {
    ModSevenPeriodic(DayNumber(d) + 1);
  }

  lemma ModSevenSuccessor(n: int)
    ensures (n + 1) % 7 == (n % 7 + 1) % 7
  {
  }

  /** The weekday advances by one, Saturday wrapping to Sunday, from each day to the next. */
  lemma WeekdayAfterNextDay(d: Date)
    requires d.Valid()
    ensures Weekday(NextDay(d)) == (Weekday(d) + 1) % 7
  {
    ModSevenSuccessor(DayNumber(d) + 1);
  }

  /** 1 January 1970 was a Thursday. */
  lemma WeekdayOfUnixEpoch()
    ensures Weekday(Date(1970, 0, 1)) == 4
  {
    assert DayNumber(Date(1970, 0, 1)) == 719162;
  }

  /** `d` moved by `n` calendar days, one day at a time (the date part of `addDays`). */
  function ShiftDate(d: Date, n: int): (r: Date)
    requires d.Valid()
    ensures r.Valid() && DayNumber(r) == DayNumber(d) + n
    decreases if n < 0 then -n else n
  {
    if n == 0 then d
    else if n > 0 then ShiftDate(NextDay(d), n - 1)
    else ShiftDate(PrevDay(d), n + 1)
  }

  /** Position of an instant on the local time line, in milliseconds. */
  function Ordinal(i: Instant): int
    requires i.Valid()
  {
    DayNumber(i.date) * MsPerDay + i.ms
  }

  /** An instant on an earlier day lies before every instant of a later day. */
  lemma EarlierDayEarlierOrdinal(a: Instant, b: Instant)
    requires a.Valid() && b.Valid() && DayNumber(a.date) < DayNumber(b.date)
    ensures Ordinal(a) < Ordinal(b)
  {
    var n, m := DayNumber(a.date), DayNumber(b.date);
    assert (n + 1) * MsPerDay <= m * MsPerDay;
  }

  /** Time-line order is calendar order on the dates, then order on the time of day. */
  lemma OrdinalFollowsCalendar(a: Instant, b: Instant)
    requires a.Valid() && b.Valid()
    ensures Ordinal(a) > Ordinal(b) <==> DateBefore(b.date, a.date) || (a.date == b.date && a.ms > b.ms)
  {
    if DateBefore(b.date, a.date) {
      DayNumberMonotone(b.date, a.date);
      EarlierDayEarlierOrdinal(b, a);
    } else if DateBefore(a.date, b.date) {
      DayNumberMonotone(a.date, b.date);
      EarlierDayEarlierOrdinal(a, b);
    }
  }

  /**
    `isAfter(a, b)`: strictly later, which is calendar order on the dates
    and, on the same date, order on the time of day.
  */
  predicate IsAfter(a: Instant, b: Instant)
    requires a.Valid() && b.Valid()
    ensures IsAfter(a, b) <==> DateBefore(b.date, a.date) || (a.date == b.date && a.ms > b.ms)
  {
    OrdinalFollowsCalendar(a, b);
    Ordinal(a) > Ordinal(b)
  }

  /** `addDays(i, amount)`: the calendar date moves, the time of day stays. */
  function AddDays(i: Instant, amount: int): (r: Instant)
    requires i.Valid()
    ensures r.Valid() && r.ms == i.ms
    ensures DayNumber(r.date) == DayNumber(i.date) + amount
    ensures Ordinal(r) == Ordinal(i) + amount * MsPerDay
  {
    Instant(ShiftDate(i.date, amount), i.ms)
  }

  /** Stepping back `(day - weekStartsOn) mod 7` days from weekday `day` lands on `weekStartsOn`. */
  lemma StepBackToWeekday(n: int, weekStartsOn: int)
    requires 0 <= weekStartsOn < 7
    ensures var day := (n + 1) % 7;
            (n - ((if day < weekStartsOn then 7 else 0) + day - weekStartsOn) + 1) % 7 == weekStartsOn
  {
  }

  /** `startOfWeek(i, { weekStartsOn })`. */
  function StartOfWeek(i: Instant, weekStartsOn: int): (r: Instant)
    requires i.Valid() && 0 <= weekStartsOn < 7
    ensures r.Valid() && r.ms == 0
    ensures Weekday(r.date) == weekStartsOn
    ensures DayNumber(i.date) - 6 <= DayNumber(r.date) <= DayNumber(i.date)
  {
    var day := Weekday(i.date);
    var diff := (if day < weekStartsOn then 7 else 0) + day - weekStartsOn;
    StepBackToWeekday(DayNumber(i.date), weekStartsOn);
    Instant(ShiftDate(i.date, -diff), 0)
  }

  /** `endOfWeek(i, { weekStartsOn })`. */
  function EndOfWeek(i: Instant, weekStartsOn: int): (r: Instant)
    requires i.Valid() && 0 <= weekStartsOn < 7
    ensures r.Valid() && r.ms == LastMs
    ensures DayNumber(r.date) == DayNumber(StartOfWeek(i, weekStartsOn).date) + 6
  {
    var day := Weekday(i.date);
    var diff := (if day < weekStartsOn then -7 else 0) + 6 - (day - weekStartsOn);
    Instant(ShiftDate(i.date, diff), LastMs)
  }

  /** `startOfMonth(i)`: 00:00:00.000 on the first of the month. */
  function StartOfMonth(i: Instant): (r: Instant)
    requires i.Valid()
    ensures r.Valid() && r.ms == 0
    ensures DayNumber(r.date) == DayNumber(i.date) - (i.date.day - 1)
  {
    Instant(Date(i.date.year, i.date.month, 1), 0)
  }

  /** `endOfMonth(i)`: 23:59:59.999 on the last day of the month. */
  function EndOfMonth(i: Instant): (r: Instant)
    requires i.Valid()
    ensures r.Valid() && r.ms == LastMs
    ensures DayNumber(r.date) == DayNumber(i.date) + (DaysInMonth(i.date.year, i.date.month) - i.date.day)
  {
    Instant(Date(i.date.year, i.date.month, DaysInMonth(i.date.year, i.date.month)), LastMs)
  }

  /** Calendar months, counted from January of year 0. */
  function MonthIndex(d: Date): int {
    12 * d.year + d.month
  }

  /**
    `setMonth(i, month)`: a month index outside 0..11 carries into the
    adjacent years (JavaScript `Date` normalisation, which floors), the day
    of month is clamped to the target month's length, the time of day stays.
  */
  function SetMonth(i: Instant, month: int): (r: Instant)
    requires i.Valid()
    ensures r.Valid() && r.ms == i.ms
    ensures MonthIndex(r.date) == MonthIndex(i.date) + month - i.date.month
    ensures r.date.day == if i.date.day <= DaysInMonth(r.date.year, r.date.month)
                          then i.date.day else DaysInMonth(r.date.year, r.date.month)
  {
    var year := i.date.year + month / 12;
    var m := month % 12;
    var dim := DaysInMonth(year, m);
    Instant(Date(year, m, if i.date.day < dim then i.date.day else dim), i.ms)
  }

  /** The last instant of a month is one millisecond before the first instant of the next. */
  lemma EndOfMonthMeetsNextStart(a: Instant, b: Instant)
    requires a.Valid() && b.Valid()
    requires MonthIndex(b.date) == MonthIndex(a.date) + 1
    ensures Ordinal(EndOfMonth(a)) + 1 == Ordinal(StartOfMonth(b))
  {
    var last := EndOfMonth(a).date;
    var first := StartOfMonth(b).date;
    assert NextDay(last) == first;
  }
}
