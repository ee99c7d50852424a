/**
 * The proleptic Gregorian calendar in one fixed time zone without daylight saving.
 *
 * A calendar day is a year, month and day; a local date-time is a calendar day plus
 * the milliseconds elapsed since its midnight.  The instant of a date-time is the
 * number of milliseconds since 1970-01-01T00:00, so `startOfDay` is a multiple of
 * 86 400 000 and the day of the week is `(dayNumber + 4) mod 7` (1970-01-01 was a
 * Thursday).  These are the operations of the date library the application calls
 * (`startOfDay`, `addDays`, `subDays`, `subMonths`, `subYears`, `addMonths`,
 * `getDay`, `getHours`, `getDaysInMonth`, `startOfMonth`, `startOfWeek`, `setHours`).
 */
module Calendar {

  const DayMs: int := 86400000
  const HourMs: int := 3600000

  datatype Ymd = Ymd(year: int, month: int, day: int)

  predicate IsLeapYear(y: int) {
    y % 4 == 0 && (y % 100 != 0 || y % 400 == 0)
  }

  function DaysInMonth(y: int, m: int): (n: int)
    ensures 28 <= n <= 31
    ensures n == 28 <==> m == 2 && !IsLeapYear(y)
    ensures n == 29 <==> m == 2 && IsLeapYear(y)
  {
    if m == 2 then (if IsLeapYear(y) then 29 else 28)
    else if m == 4 || m == 6 || m == 9 || m == 11 then 30
    else 31
  }

  function DaysInYear(y: int): int {
    if IsLeapYear(y) then 366 else 365
  }

  predicate ValidYmd(d: Ymd) {
    1 <= d.month <= 12 && 1 <= d.day <= DaysInMonth(d.year, d.month)
  }

  /** A day of the calendar: month 1..12, day 1..length of that month. */
  type CalendarDate = d: Ymd | ValidYmd(d) witness Ymd(1970, 1, 1)

  datatype Stamp = Stamp(date: CalendarDate, msOfDay: int)

  /** A local date-time: a calendar day and the milliseconds since its midnight. */
  type DateTime = t: Stamp | 0 <= t.msOfDay < DayMs witness Stamp(Ymd(1970, 1, 1), 0)

  /** Days from 1970-01-01 to January 1st of year y (negative before 1970). */
  function DaysBeforeYear(y: int): int
    decreases if y < 1970 then 1970 - y else y - 1970
  {
    if y == 1970 then 0
    else if y > 1970 then DaysBeforeYear(y - 1) + DaysInYear(y - 1)
    else DaysBeforeYear(y + 1) - DaysInYear(y)
  }

  lemma YearStep(y: int)
    ensures DaysBeforeYear(y + 1) == DaysBeforeYear(y) + DaysInYear(y)
  {
  }

  lemma {:induction false} YearsOrdered(y1: int, y2: int)
    requires y1 < y2
    ensures DaysBeforeYear(y1) + DaysInYear(y1) <= DaysBeforeYear(y2)
    decreases y2 - y1
  {
    YearStep(y1);
    if y1 + 1 < y2 {
      YearsOrdered(y1 + 1, y2);
    }
  }

  /** Days from January 1st to the first day of month m (m = 13 gives the whole year). */
  function DaysBeforeMonth(y: int, m: int): int
    requires 1 <= m <= 13
  {
    var common :=
      if m == 1 then 0 else if m == 2 then 31 else if m == 3 then 59
      else if m == 4 then 90 else if m == 5 then 120 else if m == 6 then 151
      else if m == 7 then 181 else if m == 8 then 212 else if m == 9 then 243
      else if m == 10 then 273 else if m == 11 then 304 else if m == 12 then 334
      else 365;
    common + (if m > 2 && IsLeapYear(y) then 1 else 0)
  }

  lemma MonthStep(y: int, m: int)
    requires 1 <= m <= 12
    ensures DaysBeforeMonth(y, m + 1) == DaysBeforeMonth(y, m) + DaysInMonth(y, m)
  {
  }

  lemma {:induction false} MonthsOrdered(y: int, m1: int, m2: int)
    requires 1 <= m1 < m2 <= 13
    ensures DaysBeforeMonth(y, m1) + DaysInMonth(y, m1) <= DaysBeforeMonth(y, m2)
    decreases m2 - m1
  {
    MonthStep(y, m1);
    if m1 + 1 < m2 {
      MonthsOrdered(y, m1 + 1, m2);
    }
  }

  /** Days since 1970-01-01 (negative before it). */
  function DayNumber(d: CalendarDate): int {
    DaysBeforeYear(d.year) + DaysBeforeMonth(d.year, d.month) + d.day - 1
  }

  /** Milliseconds since 1970-01-01T00:00 (the source's `getTime()`). */
  function Instant(t: DateTime): int {
    DayNumber(t.date) * DayMs + t.msOfDay
  }

  /** 0 = Sunday .. 6 = Saturday (the source's `getDay()`). */
  function DayOfWeek(d: CalendarDate): (w: int)
    ensures 0 <= w < 7
  {
    (DayNumber(d) + 4) % 7
  }

  /** Moving k days moves the weekday k places round the week. */
  lemma DayOfWeekShift(d: CalendarDate, e: CalendarDate, k: int)
    requires DayNumber(e) == DayNumber(d) + k
    ensures DayOfWeek(e) == (DayOfWeek(d) + k) % 7
  {
    var a := DayNumber(d) + 4;
    var q := a / 7;
    assert a + k == 7 * q + (a % 7 + k);
    ModOffset(q, a % 7 + k);
  }

  lemma ModOffset(q: int, r: int)
    ensures (7 * q + r) % 7 == r % 7
  {
  }

  /** 0..23 (the source's `getHours()`). */
  function HourOf(t: DateTime): (h: int)
    ensures 0 <= h < 24
  {
    t.msOfDay / HourMs
  }

  /** Strict chronological order on calendar days, compared field by field. */
  predicate YmdBefore(a: CalendarDate, b: CalendarDate) {
    a.year < b.year
    || (a.year == b.year && a.month < b.month)
    || (a.year == b.year && a.month == b.month && a.day < b.day)
  }

  lemma DayWithinYear(d: CalendarDate)
    ensures 0 <= DaysBeforeMonth(d.year, d.month) + d.day - 1 < DaysInYear(d.year)
  {
    if d.month < 12 {
      MonthsOrdered(d.year, d.month, 12);
    }
    MonthStep(d.year, 12);
  }

  /** Day numbers follow the calendar order, so they are also one-to-one. */
  lemma DayNumberOrder(a: CalendarDate, b: CalendarDate)
    ensures YmdBefore(a, b) <==> DayNumber(a) < DayNumber(b)
    ensures a == b <==> DayNumber(a) == DayNumber(b)
  {
    DayWithinYear(a);
    DayWithinYear(b);
    if a.year < b.year {
      YearsOrdered(a.year, b.year);
    } else if b.year < a.year {
      YearsOrdered(b.year, a.year);
    } else if a.month < b.month {
      MonthsOrdered(a.year, a.month, b.month);
    } else if b.month < a.month {
      MonthsOrdered(a.year, b.month, a.month);
    }
  }

  lemma InstantOrder(s: DateTime, t: DateTime)
    ensures Instant(s) <= Instant(t) ==> DayNumber(s.date) <= DayNumber(t.date)
    ensures Instant(s) == Instant(t) <==> s == t
  {
    DayNumberOrder(s.date, t.date);
  }

  function NextDate(d: CalendarDate): (r: CalendarDate)
    ensures DayNumber(r) == DayNumber(d) + 1
  {
    if d.day < DaysInMonth(d.year, d.month) then
      Ymd(d.year, d.month, d.day + 1)
    else if d.month < 12 then
      MonthStep(d.year, d.month);
      Ymd(d.year, d.month + 1, 1)
    else
      MonthStep(d.year, 12);
      YearStep(d.year);
      Ymd(d.year + 1, 1, 1)
  }

  function PrevDate(d: CalendarDate): (r: CalendarDate)
    ensures DayNumber(r) == DayNumber(d) - 1
  {
    if d.day > 1 then
      Ymd(d.year, d.month, d.day - 1)
    else if d.month > 1 then
      MonthStep(d.year, d.month - 1);
      Ymd(d.year, d.month - 1, DaysInMonth(d.year, d.month - 1))
    else
      MonthStep(d.year - 1, 12);
      YearStep(d.year - 1);
      Ymd(d.year - 1, 12, 31)
  }

  /** The calendar day n days later (earlier for negative n): `addDays`. */
  function AddDays(d: CalendarDate, n: int): (r: CalendarDate)
    ensures DayNumber(r) == DayNumber(d) + n
    decreases if n < 0 then -n else n
  {
    if n == 0 then d
    else if n > 0 then AddDays(NextDate(d), n - 1)
    else AddDays(PrevDate(d), n + 1)
  }

  /** `addDays(t, n)`: same time of day, n calendar days later. */
  function AddDaysTo(t: DateTime, n: int): (r: DateTime)
    ensures r.msOfDay == t.msOfDay && DayNumber(r.date) == DayNumber(t.date) + n
    ensures Instant(r) == Instant(t) + n * DayMs
  {
    Stamp(AddDays(t.date, n), t.msOfDay)
  }

  /** `subDays(t, n)`: same time of day, n calendar days earlier. */
  function SubDays(t: DateTime, n: int): (r: DateTime)
    ensures r.msOfDay == t.msOfDay && DayNumber(r.date) == DayNumber(t.date) - n
    ensures Instant(r) == Instant(t) - n * DayMs
  {
    AddDaysTo(t, -n)
  }

  /** `startOfDay(t)`: midnight of the same day. */
  function StartOfDay(t: DateTime): (r: DateTime)
    ensures r.date == t.date && Instant(r) <= Instant(t) < Instant(r) + DayMs
  {
    Stamp(t.date, 0)
  }

  /** Months counted from year 0, so that one month earlier is one less. */
  function MonthIndex(d: Ymd): int {
    d.year * 12 + d.month - 1
  }

  /**
   * `subMonths(d, n)`: n months earlier, the day clamped to the end of the target
   * month (March 31st minus one month is February 28th or 29th).
   */
  function SubMonthsDate(d: CalendarDate, n: int): (r: CalendarDate)
    ensures MonthIndex(r) == MonthIndex(d) - n
    ensures r.day == if d.day <= DaysInMonth(r.year, r.month) then d.day else DaysInMonth(r.year, r.month)
  {
    var total := MonthIndex(d) - n;
    var y, m := total / 12, total % 12 + 1;
    var last := DaysInMonth(y, m);
    Ymd(y, m, if d.day <= last then d.day else last)
  }

  /** `subMonths(t, n)`: the time of day kept, the date n months earlier with its day clamped. */
  function SubMonths(t: DateTime, n: int): (r: DateTime)
    ensures r.msOfDay == t.msOfDay && MonthIndex(r.date) == MonthIndex(t.date) - n
    ensures r.date.day ==
      if t.date.day <= DaysInMonth(r.date.year, r.date.month) then t.date.day else DaysInMonth(r.date.year, r.date.month)
  {
    Stamp(SubMonthsDate(t.date, n), t.msOfDay)
  }

  /** `subYears(t, n)` is `subMonths(t, 12 n)`. */
  function SubYears(t: DateTime, n: int): (r: DateTime)
    ensures r.msOfDay == t.msOfDay && r.date.month == t.date.month && r.date.year == t.date.year - n
    ensures r.date.day ==
      if t.date.day <= DaysInMonth(r.date.year, r.date.month) then t.date.day else DaysInMonth(r.date.year, r.date.month)
  {
    SubMonths(t, 12 * n)
  }

  /** Going back a positive number of months goes back in time. */
  lemma SubMonthsEarlier(t: DateTime, n: int)
    requires n > 0
    ensures Instant(SubMonths(t, n)) < Instant(t)
  {
    var r := SubMonths(t, n);
    assert YmdBefore(r.date, t.date);
    DayNumberOrder(r.date, t.date);
  }

  /** Eleven months back is never more than 337 days back (a year's window is under 360 days). */
  lemma ElevenMonthsSpan(d: CalendarDate)
    ensures 0 < DayNumber(d) - DayNumber(SubMonthsDate(d, 11)) <= 337
  {
    var r := SubMonthsDate(d, 11);
    assert YmdBefore(r, d);
    DayNumberOrder(r, d);
    if d.month != 12 {
      assert r.year == d.year - 1 && r.month == d.month + 1;
      YearStep(d.year - 1);
    }
  }

  /** `startOfMonth`. */
  function StartOfMonth(d: CalendarDate): (r: CalendarDate)
    ensures r.year == d.year && r.month == d.month && r.day == 1
  {
    Ymd(d.year, d.month, 1)
  }

  /** Day `d.day` of a month falls `d.day - 1` places after the month's first day in the week. */
  lemma MonthDayWeekday(d: CalendarDate)
    ensures DayOfWeek(d) == (DayOfWeek(StartOfMonth(d)) + d.day - 1) % 7
  {
    DayOfWeekShift(StartOfMonth(d), d, d.day - 1);
  }

  /** `startOfWeek` (weeks start on Sunday): midnight of the last Sunday not after t. */
  function StartOfWeek(t: DateTime): (r: DateTime)
    ensures DayOfWeek(r.date) == 0 && r.msOfDay == 0
    ensures Instant(t) - 7 * DayMs < Instant(r) <= Instant(t)
  {
    var w := DayOfWeek(t.date);
    var r := Stamp(AddDays(t.date, -w), 0);
    WeekAligned(DayNumber(t.date) + 4);
    r
  }

  lemma WeekAligned(k: int)
    ensures (k - k % 7) % 7 == 0
  {
    var q := k / 7;
    assert k - k % 7 == 7 * q;
  }

  /** `setHours(t, h)`: hour replaced, minutes, seconds and milliseconds kept. */
  function SetHours(t: DateTime, h: int): (r: DateTime)
    requires 0 <= h < 24
    ensures r.date == t.date && HourOf(r) == h
    ensures r.msOfDay % HourMs == t.msOfDay % HourMs
  {
    Stamp(t.date, h * HourMs + t.msOfDay % HourMs)
  }
}
