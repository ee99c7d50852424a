/**
 * The month calendar of one task (`app/screens/TaskCalendarScreen.tsx`): the days of
 * the shown month, the 42-cell grid under the Sunday-first weekday header, the look
 * of each day against today, what pressing a day does to the task list, and the
 * month arrows.  `isTaskCompleted` is read from the task context but defined nowhere
 * in it; the model takes it as the parameter `done`.  The current time is a parameter.
 */
module TaskCalendarScreen {
  import opened Wrappers
  import opened Calendar
  import opened DateText
  import opened Records
  import opened TaskContext

  /** One entry of `days`. */
  datatype ShownDay = ShownDay(date: CalendarDate, isCompleted: bool, isToday: bool, dayNumber: int)

  /** One cell of the grid: empty, or a day of the month with its place in the grid. */
  datatype GridItem =
    | EmptyCell(index: int)
    | DayCell(date: CalendarDate, isCompleted: bool, isToday: bool, dayNumber: int, index: int)

  /** `new Date(year, month, k)`: day k of the shown month. */
  function DayOf(month: CalendarDate, k: int): (d: CalendarDate)
    requires 1 <= k <= DaysInMonth(month.year, month.month)
    ensures d.year == month.year && d.month == month.month && d.day == k
  {
    Ymd(month.year, month.month, k)
  }

  /**
   * `days`: one entry per day of the month, in order, each marked completed as
   * `isTaskCompleted` says and marked today when its `yyyy-MM-dd` text is today's.
   */
  function MonthDays(month: CalendarDate, today: CalendarDate, done: CalendarDate -> bool): (days: seq<ShownDay>)
    ensures |days| == DaysInMonth(month.year, month.month)
    ensures forall i :: 0 <= i < |days| ==>
      && days[i].date.year == month.year && days[i].date.month == month.month
      && days[i].date.day == days[i].dayNumber == i + 1
      && days[i].isCompleted == done(days[i].date)
      && (days[i].isToday <==> IsoDate(days[i].date) == IsoDate(today))
  {
    var n := DaysInMonth(month.year, month.month);
    var days := seq(n, i requires 0 <= i < n =>
      var date := DayOf(month, i + 1);
      ShownDay(date, done(date), IsoDate(date) == IsoDate(today), i + 1));
    assert forall i :: 0 <= i < n ==> days[i].date == DayOf(month, i + 1);
    days
  }

  /** With four-digit years, a day is marked today iff it is today, so a month has a today mark iff it is today's month. */
  lemma TodayMark(month: CalendarDate, today: CalendarDate, done: CalendarDate -> bool)
    requires FourDigitYear(month.year) && FourDigitYear(today.year)
    ensures var days := MonthDays(month, today, done);
      && (forall i :: 0 <= i < |days| ==> (days[i].isToday <==> days[i].date == today))
      && ((exists i :: 0 <= i < |days| && days[i].isToday) <==> today.year == month.year && today.month == month.month)
  {
    var days := MonthDays(month, today, done);
    forall i | 0 <= i < |days| ensures days[i].isToday <==> days[i].date == today {
      IsoDateOrder(days[i].date, today);
    }
    if today.year == month.year && today.month == month.month {
      var k := today.day - 1;
      assert days[k].date == today;
    }
  }

  /** `getDay(startOfMonth(currentMonth))`: the column of the month's first day, Sunday being 0. */
  function StartingDayOfWeek(month: CalendarDate): (w: int)
    ensures 0 <= w < 7
  {
    DayOfWeek(StartOfMonth(month))
  }

  /** The 42 cells: day k of the month sits in cell `startingDayOfWeek + k - 1`, every other cell is empty. */
  function Grid(month: CalendarDate, today: CalendarDate, done: CalendarDate -> bool): (g: seq<GridItem>)
    ensures |g| == 42
  {
    var days := MonthDays(month, today, done);
    var start := StartingDayOfWeek(month);
    seq(42, index requires 0 <= index < 42 =>
      var k := index - start;
      if k < 0 || k >= |days| then EmptyCell(index)
      else DayCell(days[k].date, days[k].isCompleted || false, days[k].isToday, days[k].dayNumber, index))
  }

  /**
   * Cell i holds a day iff it lies between the month's first column and that plus
   * the month's length; the day it holds is day `i - start + 1`, completed as `done`
   * says.
   */
  lemma GridCell(month: CalendarDate, today: CalendarDate, done: CalendarDate -> bool, i: int)
    requires 0 <= i < 42
    ensures var g, start := Grid(month, today, done), StartingDayOfWeek(month);
      && g[i].index == i
      && (g[i].DayCell? <==> start <= i < start + DaysInMonth(month.year, month.month))
      && (g[i].DayCell? ==>
            && g[i].dayNumber == i - start + 1
            && g[i].date == DayOf(month, i - start + 1)
            && g[i].isCompleted == done(g[i].date))
  {
  }

  /**
   * The grid shows the whole month: every day of it has a cell (the month ends by
   * cell 36), and no two cells hold the same day.
   */
  lemma GridShowsEachDayOnce(month: CalendarDate, today: CalendarDate, done: CalendarDate -> bool)
    ensures var g, start := Grid(month, today, done), StartingDayOfWeek(month);
      forall k :: 1 <= k <= DaysInMonth(month.year, month.month) ==>
        && start + k - 1 < 42
        && g[start + k - 1].DayCell? && g[start + k - 1].date == DayOf(month, k)
    ensures var g := Grid(month, today, done);
      forall i, j :: 0 <= i < 42 && 0 <= j < 42 && g[i].DayCell? && g[j].DayCell? && g[i].date == g[j].date ==> i == j
  {
  }

  /** The weekday header above the grid. */
  const HeaderLabels: seq<string> := ["Sun", "Mon", "Tue", "Wed", "Thu", "Fri", "Sat"]

  /** Every day sits in the column of its weekday, under that weekday's label. */
  lemma GridColumnIsWeekday(month: CalendarDate, today: CalendarDate, done: CalendarDate -> bool, i: int)
    requires 0 <= i < 42 && Grid(month, today, done)[i].DayCell?
    ensures var d := Grid(month, today, done)[i].date;
      i % 7 == DayOfWeek(d) && HeaderLabels[i % 7] == Format(d, Weekday)
  {
    var d := Grid(month, today, done)[i].date;
    GridCell(month, today, done, i);
    MonthDayWeekday(d);
    assert StartOfMonth(d) == StartOfMonth(month);
  }

  /** How a day cell is drawn: before today, after today, missed (before today and not completed). */
  datatype DayLook = DayLook(isPast: bool, isToday: bool, isFuture: bool, isMissed: bool)

  function LookOf(date: CalendarDate, isCompleted: bool, isToday: bool, today: CalendarDate): (l: DayLook)
    ensures l.isMissed <==> l.isPast && !isCompleted
    ensures l.isPast <==> StrLess(IsoDate(date), IsoDate(today))
    ensures l.isFuture <==> StrLess(IsoDate(today), IsoDate(date))
  {
    var isPast := StrLess(IsoDate(date), IsoDate(today));
    DayLook(isPast, isToday, StrLess(IsoDate(today), IsoDate(date)), isPast && !isCompleted)
  }

  /**
   * Every day of the grid is exactly one of past, today and future; with
   * four-digit years, past and future are earlier and later than today's date.
   */
  lemma LookExclusive(month: CalendarDate, today: CalendarDate, done: CalendarDate -> bool, i: int)
    requires 0 <= i < 42 && Grid(month, today, done)[i].DayCell?
    ensures var c := Grid(month, today, done)[i];
      var l := LookOf(c.date, c.isCompleted, c.isToday, today);
      && (l.isPast || l.isToday || l.isFuture)
      && !(l.isPast && l.isToday) && !(l.isPast && l.isFuture) && !(l.isToday && l.isFuture)
    ensures var c := Grid(month, today, done)[i];
      var l := LookOf(c.date, c.isCompleted, c.isToday, today);
      FourDigitYear(month.year) && FourDigitYear(today.year) ==>
        && (l.isPast <==> DayNumber(c.date) < DayNumber(today))
        && (l.isFuture <==> DayNumber(today) < DayNumber(c.date))
        && (l.isToday <==> c.date == today)
  {
    var c := Grid(month, today, done)[i];
    GridCell(month, today, done, i);
    StrTrichotomy(IsoDate(c.date), IsoDate(today));
    if FourDigitYear(month.year) && FourDigitYear(today.year) {
      IsoDateOrder(c.date, today);
      IsoDateOrder(today, c.date);
    }
  }

  // ---------------------------------------------------------------------------------
  // handleDayPress

  /** What a press on a day does: nothing for a future day, otherwise toggles the day's record. */
  datatype PressAction = Ignored | Uncompleting | Completing

  function PressOutcome(d: CalendarDate, today: CalendarDate, done: CalendarDate -> bool): (a: PressAction)
    ensures a == Ignored <==> StrLess(IsoDate(today), IsoDate(d))
    ensures a == Uncompleting <==> !StrLess(IsoDate(today), IsoDate(d)) && done(d)
    ensures a == Completing <==> !StrLess(IsoDate(today), IsoDate(d)) && !done(d)
  {
    if StrLess(IsoDate(today), IsoDate(d)) then Ignored
    else if done(d) then Uncompleting
    else Completing
  }

  /** With four-digit years, exactly the days after today are ignored, and those are the cells drawn as future. */
  lemma PressIgnoresExactlyFuture(d: CalendarDate, today: CalendarDate, done: CalendarDate -> bool)
    requires FourDigitYear(d.year) && FourDigitYear(today.year)
    ensures PressOutcome(d, today, done) == Ignored <==> DayNumber(today) < DayNumber(d)
    ensures forall c: bool, t: bool :: PressOutcome(d, today, done) == Ignored <==> LookOf(d, c, t, today).isFuture
  {
    IsoDateOrder(today, d);
  }

  /**
   * `handleDayPress(date)`: the pressed day is the local midnight of that date; a
   * future day changes nothing, a completed one is uncompleted, any other completed.
   */
  method HandleDayPress(store: TaskStore, taskId: string, d: CalendarDate, now: DateTime, done: CalendarDate -> bool)
    returns (a: PressAction)
    modifies store
    ensures a == PressOutcome(d, now.date, done)
    ensures a == Ignored ==> store.tasks == old(store.tasks)
    ensures a == Uncompleting ==> store.tasks == Uncompleted(old(store.tasks), taskId, Stamp(d, 0), now)
    ensures a == Completing ==> store.tasks == Completed(old(store.tasks), taskId, Stamp(d, 0), now)
  {
    var dateString := IsoDate(d);
    var today := IsoDate(now.date);
    var isCompleted := done(d);
    if StrLess(today, dateString) {
      return Ignored;
    }
    if isCompleted {
      store.UncompleteTask(taskId, Stamp(d, 0), now);
      a := Uncompleting;
    } else {
      store.CompleteTask(taskId, Stamp(d, 0), now);
      a := Completing;
    }
  }

  /** Removing a text from records none of which carries it leaves them as they were. */
  lemma {:induction false} WithoutAbsentText(cs: seq<Completion>, text: string)
    requires forall i :: 0 <= i < |cs| ==> Text(cs[i].date) != text
    ensures WithoutText(cs, text) == cs
  {
    if cs != [] {
      WithoutAbsentText(cs[1..], text);
      assert cs == [cs[0]] + cs[1..];
    }
  }

  /**
   * Uncompleting the day just completed removes the record completing added, and any
   * other record of that same instant; when there was none, the task's records are
   * back to what they were.
   */
  lemma UncompleteUndoesComplete(cs: seq<Completion>, taskId: string, date: DateTime, now: DateTime)
    ensures var c := NewCompletion(taskId, date, now);
      WithoutText(cs + [c], IsoTimestamp(date)) == WithoutText(cs, IsoTimestamp(date))
    ensures (forall i :: 0 <= i < |cs| ==> Text(cs[i].date) != IsoTimestamp(date)) ==>
      WithoutText(cs + [NewCompletion(taskId, date, now)], IsoTimestamp(date)) == cs
  {
    var c := NewCompletion(taskId, date, now);
    WithoutTextKeepsOrder(cs, [c], IsoTimestamp(date));
    assert WithoutText([c], IsoTimestamp(date)) == [];
    assert cs + [] == cs;
    if forall i :: 0 <= i < |cs| ==> Text(cs[i].date) != IsoTimestamp(date) {
      WithoutAbsentText(cs, IsoTimestamp(date));
    }
  }

  // ---------------------------------------------------------------------------------
  // The screen and its month arrows

  /** The screen's grid, or `None` where it throws `Missing task` because no task has the id. */
  function ScreenGrid(tasks: seq<Task>, taskId: string, month: CalendarDate, today: CalendarDate, done: CalendarDate -> bool)
    : (r: Option<seq<GridItem>>)
    ensures r.None? <==> forall i :: 0 <= i < |tasks| ==> tasks[i].id != taskId
    ensures r.Some? ==> r.value == Grid(month, today, done)
  {
    match FindTask(tasks, taskId)
    case None => None
    case Some(_) => Some(Grid(month, today, done))
  }

  /** Only the month and year of the shown date matter to the grid, not its day. */
  lemma GridIgnoresDay(a: CalendarDate, b: CalendarDate, today: CalendarDate, done: CalendarDate -> bool)
    requires a.year == b.year && a.month == b.month
    ensures Grid(a, today, done) == Grid(b, today, done)
  {
    assert StartOfMonth(a) == StartOfMonth(b);
    assert MonthDays(a, today, done) == MonthDays(b, today, done);
  }

  /** `addMonths(t, n)`: `subMonths` by `-n`, n months later with the day clamped likewise. */
  function AddMonths(t: DateTime, n: int): (r: DateTime)
    ensures r.msOfDay == t.msOfDay && MonthIndex(r.date) == MonthIndex(t.date) + n
  {
    SubMonths(t, -n)
  }

  /** The shown month, starting at now; the arrows step it back and forward. */
  class MonthCursor {
    var currentMonth: DateTime

    constructor (now: DateTime)
      ensures currentMonth == now
    {
      currentMonth := now;
    }

    /** `handlePrevMonth`. */
    method PrevMonth()
      modifies this
      ensures currentMonth == SubMonths(old(currentMonth), 1)
    {
      currentMonth := SubMonths(currentMonth, 1);
    }

    /** `handleNextMonth`. */
    method NextMonth()
      modifies this
      ensures currentMonth == AddMonths(old(currentMonth), 1)
    {
      currentMonth := AddMonths(currentMonth, 1);
    }
  }

  /** The month index pins down the year and the month. */
  lemma MonthIndexInjective(a: CalendarDate, b: CalendarDate)
    requires MonthIndex(a) == MonthIndex(b)
    ensures a.year == b.year && a.month == b.month
  {
  }

  /**
   * Back then forward (or forward then back) shows the same month again, so the
   * same grid; the date itself comes back too when its day is at most the 28th.
   */
  lemma ArrowsCancel(t: DateTime, today: CalendarDate, done: CalendarDate -> bool)
    ensures var there := AddMonths(SubMonths(t, 1), 1);
      there.date.year == t.date.year && there.date.month == t.date.month
      && Grid(there.date, today, done) == Grid(t.date, today, done)
    ensures var there := SubMonths(AddMonths(t, 1), 1);
      there.date.year == t.date.year && there.date.month == t.date.month
      && Grid(there.date, today, done) == Grid(t.date, today, done)
    ensures t.date.day <= 28 ==> AddMonths(SubMonths(t, 1), 1) == t && SubMonths(AddMonths(t, 1), 1) == t
  {
    var p, q := AddMonths(SubMonths(t, 1), 1), SubMonths(AddMonths(t, 1), 1);
    MonthIndexInjective(p.date, t.date);
    MonthIndexInjective(q.date, t.date);
    GridIgnoresDay(p.date, t.date, today, done);
    GridIgnoresDay(q.date, t.date, today, done);
  }
}
