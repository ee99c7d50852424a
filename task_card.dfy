/**
 * The task card (`app/components/TaskCard.tsx`): the streak badge on its task face,
 * the three faces it flips through, the long-press that acts on the visible face,
 * the month calendar face and the counts on the stats face.  The current time is a
 * parameter; the animations and drawing are not modelled.
 */
module TaskCard {
  import opened Wrappers
  import opened Calendar
  import opened DateText
  import opened Records

  // ---------------------------------------------------------------------------------
  // getStreakBadgeStyle

  /** `task.stats?.currentStreak || 0`. */
  function CurrentOf(stats: Option<TaskStats>): int {
    if stats.Some? then stats.value.currentStreak else 0
  }

  /** `task.stats?.bestStreak || 0`. */
  function BestOf(stats: Option<TaskStats>): int {
    if stats.Some? then stats.value.bestStreak else 0
  }

  /** `task.stats?.lastStreak || 0`: a missing or `null` last streak reads as 0. */
  function LastOf(stats: Option<TaskStats>): int {
    if stats.Some? && stats.value.lastStreak.Some? then stats.value.lastStreak.value else 0
  }

  /** `task.stats?.streakStatus`. */
  function StatusOf(stats: Option<TaskStats>): Option<StreakStatus> {
    if stats.Some? then stats.value.streakStatus else None
  }

  datatype BadgeIcon = Fire | ClockOutline | Sleep

  datatype Badge = Badge(color: string, icon: BadgeIcon, value: int, showTrophy: bool)

  /** A status is present and is not `never_started`. */
  predicate Started(stats: Option<TaskStats>) {
    StatusOf(stats).Some? && StatusOf(stats) != Some(NeverStarted)
  }

  /**
   * The badge on the task face: none without a started status; for a positive
   * current streak a fire (up to date) or clock (any other status) with that streak
   * and a trophy iff it equals the best; otherwise a sleep badge with a positive last
   * streak, never with a trophy.
   */
  function CardBadge(stats: Option<TaskStats>): (b: Option<Badge>)
    ensures b.Some? <==> Started(stats) && (CurrentOf(stats) > 0 || LastOf(stats) > 0)
    ensures b.Some? ==> b.value.value > 0
    ensures b.Some? && CurrentOf(stats) > 0 ==>
      && b.value.value == CurrentOf(stats)
      && (b.value.icon == Fire <==> StatusOf(stats) == Some(UpToDate))
      && b.value.icon != Sleep
      && (b.value.showTrophy <==> CurrentOf(stats) == BestOf(stats))
    ensures b.Some? && CurrentOf(stats) <= 0 ==> b.value.icon == Sleep && b.value.value == LastOf(stats) && !b.value.showTrophy
  {
    var current := CurrentOf(stats);
    var last := LastOf(stats);
    var best := BestOf(stats);
    var status := StatusOf(stats);
    if status.None? || status.value == NeverStarted then None
    else if current > 0 then
      if status.value == UpToDate then Some(Badge("#FF6B6B", Fire, current, current == best))
      else Some(Badge("#FFA726", ClockOutline, current, current == best))
    else if last > 0 then Some(Badge("#90A4AE", Sleep, last, false))
    else None
  }

  // ---------------------------------------------------------------------------------
  // The faces and flipCard

  datatype Face = TaskFace | CalendarFace | StatsFace

  /** The face that follows: task, calendar, stats, then task again. */
  function Next(f: Face): (g: Face)
    ensures g != f
  {
    match f
    case TaskFace => CalendarFace
    case CalendarFace => StatsFace
    case StatsFace => TaskFace
  }

  /** `f` advanced `n` places round the cycle. */
  function Advance(f: Face, n: nat): Face {
    if n == 0 then f else Next(Advance(f, n - 1))
  }

  /** Three steps round the cycle come back to the start, and fewer do not. */
  lemma NextCycle(f: Face)
    ensures Next(Next(Next(f))) == f
    ensures Next(Next(f)) != f
  {
  }

  /** Advancing three more places lands on the same face. */
  lemma {:induction false} AdvanceByThree(f: Face, n: nat)
    ensures Advance(f, n + 3) == Advance(f, n)
    decreases n
  {
    if n == 0 {
      NextCycle(f);
      assert Advance(f, 3) == Next(Next(Next(f)));
    } else {
      AdvanceByThree(f, n - 1);
      assert Advance(f, n + 3) == Next(Advance(f, n + 2));
    }
  }

  /** The two slots of the card and which of them faces the user. */
  datatype Sides = Sides(front: Face, back: Face, isFlipped: bool) {
    /** `isFlipped ? sides[1] : sides[0]`. */
    function Visible(): Face {
      if isFlipped then back else front
    }

    function Hidden(): Face {
      if isFlipped then front else back
    }
  }

  /**
   * `flipCard`: the slot about to turn visible gets the successor of the visible
   * face, the other slot is left alone, and the card turns over.
   */
  function Flipped(s: Sides): (r: Sides)
    ensures r.isFlipped == !s.isFlipped
    ensures r.Visible() == Next(s.Visible())
    ensures r.Hidden() == s.Visible()
    ensures r.Visible() != r.Hidden()
  {
    if !s.isFlipped then s.(back := Next(s.front), isFlipped := true)
    else s.(front := Next(s.back), isFlipped := false)
  }

  /** The card after `n` flips. */
  function FlippedTimes(s: Sides, n: nat): Sides {
    if n == 0 then s else Flipped(FlippedTimes(s, n - 1))
  }

  /** After `n` flips the visible face has moved `n` places round the cycle. */
  lemma {:induction false} VisibleAfterFlips(s: Sides, n: nat)
    ensures FlippedTimes(s, n).Visible() == Advance(s.Visible(), n)
    decreases n
  {
    if n > 0 {
      VisibleAfterFlips(s, n - 1);
    }
  }

  /** The visible face repeats every three flips. */
  lemma VisibleEveryThreeFlips(s: Sides, n: nat)
    ensures FlippedTimes(s, n + 3).Visible() == FlippedTimes(s, n).Visible()
  {
    VisibleAfterFlips(s, n);
    VisibleAfterFlips(s, n + 3);
    AdvanceByThree(s.Visible(), n);
  }

  /** Each flip turns the card over. */
  lemma {:induction false} FlipParity(s: Sides, n: nat)
    ensures FlippedTimes(s, n).isFlipped == (s.isFlipped != (n % 2 == 1))
    decreases n
  {
    if n > 0 {
      FlipParity(s, n - 1);
    }
  }

  /** From the first flip on, the whole card repeats every six flips. */
  lemma StateRepeatsEverySixFlips(s: Sides, n: nat)
    requires n >= 1
    ensures FlippedTimes(s, n + 6) == FlippedTimes(s, n)
  {
    var a, b := FlippedTimes(s, n), FlippedTimes(s, n + 6);
    VisibleEveryThreeFlips(s, n);
    VisibleEveryThreeFlips(s, n + 3);
    VisibleEveryThreeFlips(s, n - 1);
    VisibleEveryThreeFlips(s, n + 2);
    assert b.Hidden() == FlippedTimes(s, n + 5).Visible();
    assert a.Hidden() == FlippedTimes(s, n - 1).Visible();
    FlipParity(s, n);
    FlipParity(s, n + 6);
  }

  /** What a long press does. */
  datatype LongPressAction = OpenCalendar | OpenStats | StartCompleting | NoAction

  /**
   * `handleLongPress`: acts on the visible face, and only when the card was given
   * the matching handler; only the task face starts completion.
   */
  function LongPressOutcome(visible: Face, hasCalendar: bool, hasStats: bool, hasTask: bool): (a: LongPressAction)
    ensures a == OpenCalendar <==> visible == CalendarFace && hasCalendar
    ensures a == OpenStats <==> visible == StatsFace && hasStats
    ensures a == StartCompleting <==> visible == TaskFace && hasTask
  {
    if visible == CalendarFace && hasCalendar then OpenCalendar
    else if visible == StatsFace && hasStats then OpenStats
    else if visible == TaskFace && hasTask then StartCompleting
    else NoAction
  }

  /** The card's state: its `sides`, `isFlipped` and `isCompleting`. */
  class TaskCardState {
    var front: Face
    var back: Face
    var isFlipped: bool
    var isCompleting: bool

    function Current(): Sides
      reads this
    {
      Sides(front, back, isFlipped)
    }

    /** The card starts with the task face up and the calendar behind it. */
    constructor ()
      ensures Current() == Sides(TaskFace, CalendarFace, false) && !isCompleting
      ensures Current().Visible() != Current().Hidden()
    {
      front := TaskFace;
      back := CalendarFace;
      isFlipped := false;
      isCompleting := false;
    }

    method FlipCard()
      modifies this
      ensures Current() == Flipped(old(Current()))
      ensures isCompleting == old(isCompleting)
    {
      if !isFlipped {
        back := Next(front);
      } else {
        front := Next(back);
      }
      isFlipped := !isFlipped;
    }

    method HandleLongPress(hasCalendar: bool, hasStats: bool, hasTask: bool) returns (a: LongPressAction)
      modifies this
      ensures a == LongPressOutcome(Current().Visible(), hasCalendar, hasStats, hasTask)
      ensures Current() == old(Current())
      ensures isCompleting == (old(isCompleting) || a == StartCompleting)
    {
      var visible := if isFlipped then back else front;
      a := LongPressOutcome(visible, hasCalendar, hasStats, hasTask);
      if a == StartCompleting {
        isCompleting := true;
      }
    }

    /** The effect on a new `task`: any completion in progress is dropped. */
    method TaskChanged()
      modifies this
      ensures Current() == old(Current()) && !isCompleting
    {
      isCompleting := false;
    }
  }

  // ---------------------------------------------------------------------------------
  // CardCalendar

  datatype CalendarDay = CalendarDay(date: CalendarDate, isCompleted: bool, isToday: bool, isMissed: bool, dayNumber: int)

  /** `task.completions?.some(completion => completion.date === text)`. */
  predicate HasRecordOn(t: Task, text: string) {
    var cs := CompletionsOf(t);
    exists i :: 0 <= i < |cs| && Text(cs[i].date) == text
  }

  /** Day `i + 1` of today's month, its flags from comparing `yyyy-MM-dd` strings. */
  function CardDay(t: Task, today: CalendarDate, i: int): CalendarDay
    requires 0 <= i < DaysInMonth(today.year, today.month)
  {
    var date: CalendarDate := Ymd(today.year, today.month, i + 1);
    var text := IsoDate(date);
    var completed := HasRecordOn(t, text);
    CalendarDay(date, completed, text == IsoDate(today), StrLess(text, IsoDate(today)) && !completed, i + 1)
  }

  /** `days`: one entry per day of the current month, in order. */
  function CardDays(t: Task, today: CalendarDate): (days: seq<CalendarDay>)
    ensures |days| == DaysInMonth(today.year, today.month)
    ensures forall i :: 0 <= i < |days| ==> days[i] == CardDay(t, today, i)
  {
    seq(DaysInMonth(today.year, today.month), i requires 0 <= i < DaysInMonth(today.year, today.month) => CardDay(t, today, i))
  }

  /**
   * Each entry is day `i + 1` of today's month; it is today iff it is that date, and
   * missed iff it is an earlier day with no record (four-digit years, where the
   * strings compare as the dates do).
   */
  lemma CardDayMeaning(t: Task, today: CalendarDate, i: int)
    requires FourDigitYear(today.year)
    requires 0 <= i < DaysInMonth(today.year, today.month)
    ensures var d := CardDays(t, today)[i];
      && d.dayNumber == i + 1 && d.date == Ymd(today.year, today.month, i + 1)
      && (d.isToday <==> d.date == today)
      && (d.isMissed <==> DayNumber(d.date) < DayNumber(today) && !d.isCompleted)
  {
    var date: CalendarDate := Ymd(today.year, today.month, i + 1);
    IsoDateOrder(date, today);
  }

  /** A record stored as a bare day marks that day of the month completed. */
  lemma DayRecordMarksDay(t: Task, today: CalendarDate, i: int, k: int)
    requires 0 <= i < DaysInMonth(today.year, today.month)
    requires 0 <= k < |CompletionsOf(t)|
    requires CompletionsOf(t)[k].date == DateOnly(Ymd(today.year, today.month, i + 1))
    ensures CardDays(t, today)[i].isCompleted
  {
  }

  /**
   * Records stored as full timestamps, as completing a task stores them, never
   * match a `yyyy-MM-dd` string: no day of the month shows completed, and every
   * earlier day shows missed.
   */
  lemma TimestampRecordsMarkNoDay(t: Task, today: CalendarDate, i: int)
    requires FourDigitYear(today.year)
    requires 0 <= i < DaysInMonth(today.year, today.month)
    requires forall k :: 0 <= k < |CompletionsOf(t)| ==> CompletionsOf(t)[k].date.Timestamp?
    ensures !CardDays(t, today)[i].isCompleted
    ensures i + 1 < today.day ==> CardDays(t, today)[i].isMissed
  {
    var cs := CompletionsOf(t);
    var date: CalendarDate := Ymd(today.year, today.month, i + 1);
    forall k | 0 <= k < |cs| ensures Text(cs[k].date) != IsoDate(date) {
      assert 'T' in Text(cs[k].date) && 'T' !in IsoDate(date);
    }
    CardDayMeaning(t, today, i);
  }

  /** The calendar grid: `getDay(first of month)` empty cells, then the days. */
  function CardGrid(t: Task, today: CalendarDate): (cells: seq<Option<CalendarDay>>)
    ensures var first := DayOfWeek(StartOfMonth(today)); var days := CardDays(t, today);
      && |cells| == first + |days|
      && (forall i :: 0 <= i < first ==> cells[i].None?)
      && (forall i :: first <= i < |cells| ==> cells[i] == Some(days[i - first]))
  {
    var first := DayOfWeek(StartOfMonth(today));
    var days := CardDays(t, today);
    seq(first, _ => None) + seq(|days|, i requires 0 <= i < |days| => Some(days[i]))
  }

  /** In seven columns, every day of the grid sits under its own weekday. */
  lemma CardGridColumns(t: Task, today: CalendarDate, i: int)
    requires DayOfWeek(StartOfMonth(today)) <= i < |CardGrid(t, today)|
    ensures CardGrid(t, today)[i].Some?
    ensures i % 7 == DayOfWeek(CardGrid(t, today)[i].value.date)
  {
    var first := DayOfWeek(StartOfMonth(today));
    var date := CardDays(t, today)[i - first].date;
    assert date == Ymd(today.year, today.month, i - first + 1);
    MonthDayWeekday(date);
    assert StartOfMonth(date) == StartOfMonth(today);
  }

  // ---------------------------------------------------------------------------------
  // CardStats

  /** A record whose parsed date lies in `[from, to]`. */
  predicate Within(c: Completion, from: DateTime, to: DateTime) {
    Instant(from) <= Instant(Parse(c.date)) <= Instant(to)
  }

  /** `completions.filter(...)` with the window `[from, to]`, in order. */
  function RecordsWithin(cs: seq<Completion>, from: DateTime, to: DateTime): (r: seq<Completion>)
    ensures forall c :: c in r <==> c in cs && Within(c, from, to)
    ensures |r| <= |cs|
  {
    if cs == [] then []
    else
      var c := cs[|cs| - 1];
      assert cs == cs[..|cs| - 1] + [c];
      RecordsWithin(cs[..|cs| - 1], from, to) + if Within(c, from, to) then [c] else []
  }

  const WeekTotal: int := 7
  const MonthTotal: int := 30

  /** "This week": records from the start of the week (Sunday midnight) to now, out of 7. */
  function WeeklyCompleted(t: Task, now: DateTime): (n: int)
    ensures 0 <= n <= |CompletionsOf(t)|
  {
    |RecordsWithin(CompletionsOf(t), StartOfWeek(now), now)|
  }

  /** "Past 30 days": records from 30 days before now to now, out of 30. */
  function MonthlyCompleted(t: Task, now: DateTime): (n: int)
    ensures 0 <= n <= |CompletionsOf(t)|
  {
    |RecordsWithin(CompletionsOf(t), AddDaysTo(now, -30), now)|
  }

  /** A wider window keeps at least as many records. */
  lemma {:induction false} WiderWindowKeepsMore(cs: seq<Completion>, f1: DateTime, t1: DateTime, f2: DateTime, t2: DateTime)
    requires Instant(f2) <= Instant(f1) && Instant(t1) <= Instant(t2)
    ensures |RecordsWithin(cs, f1, t1)| <= |RecordsWithin(cs, f2, t2)|
    decreases |cs|
  {
    if cs != [] {
      WiderWindowKeepsMore(cs[..|cs| - 1], f1, t1, f2, t2);
    }
  }

  /** The week so far lies inside the past 30 days, so its count is never the larger. */
  lemma WeekWithinMonth(t: Task, now: DateTime)
    ensures 0 <= WeeklyCompleted(t, now) <= MonthlyCompleted(t, now) <= |CompletionsOf(t)|
  {
    WiderWindowKeepsMore(CompletionsOf(t), StartOfWeek(now), now, AddDaysTo(now, -30), now);
  }

  /** `isBestStreak`: the current streak equals the best one, and the best one is positive. */
  predicate IsBestStreak(stats: Option<TaskStats>)
    ensures IsBestStreak(stats) ==> CurrentOf(stats) > 0
  {
    stats.Some? && stats.value.currentStreak == stats.value.bestStreak && BestOf(stats) > 0
  }

  /** With a started status and a positive current streak, the badge's trophy and the stats face's "Best!" agree. */
  lemma TrophyIffBest(stats: Option<TaskStats>)
    requires Started(stats) && CurrentOf(stats) > 0
    ensures CardBadge(stats).Some? && (CardBadge(stats).value.showTrophy <==> IsBestStreak(stats))
  {
  }

  /** The streak bar: ten percent per day of the current streak, full from ten days on. */
  function StreakBarWidth(stats: Option<TaskStats>): (w: real)
    ensures w <= 100.0
    ensures w == 100.0 <==> CurrentOf(stats) >= 10
    ensures CurrentOf(stats) < 10 ==> w == (CurrentOf(stats) * 10) as real
  {
    var w := CurrentOf(stats) as real / 10.0 * 100.0;
    if w < 100.0 then w else 100.0
  }
}
