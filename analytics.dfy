/**
 * The dashboard analytics helpers of `app/utils/data.ts`: the named date windows,
 * the day-of-week / hour-of-day patterns, the bucketed chart, the aggregate over all
 * tasks' stats and the two label helpers.  The current time is a parameter.
 */
module Analytics {
  import opened Wrappers
  import opened Calendar
  import opened DateText
  import opened Records
  import opened Tally
  import opened Charts

  datatype DateRange = DateRange(start: DateTime, end: DateTime)

  // ---------------------------------------------------------------------------------
  // hourOfDayLabels

  /** Every sixth hour is labelled on a 12-hour clock (`12am`, `6am`, `12pm`, `6pm`); the rest are blank. */
  function HourLabel(i: int): string
    requires 0 <= i < 24
  {
    if i % 6 == 0 then
      NatToString(if i == 0 || i == 12 then 12 else i % 12) + (if i < 12 then "am" else "pm")
    else ""
  }

  /** `hourOfDayLabels`: one label per hour of the day. */
  function HourOfDayLabels(): (r: seq<string>)
    ensures |r| == 24
  {
    seq(24, i requires 0 <= i < 24 => HourLabel(i))
  }

  /** 24 labels, blank except at midnight, 6am, noon and 6pm. */
  lemma HourLabelsEverySixHours()
    ensures |HourOfDayLabels()| == 24
    ensures HourOfDayLabels()[0] == "12am" && HourOfDayLabels()[6] == "6am"
    ensures HourOfDayLabels()[12] == "12pm" && HourOfDayLabels()[18] == "6pm"
    ensures forall i :: 0 <= i < 24 ==> (HourOfDayLabels()[i] == "" <==> i % 6 != 0)
  {
    assert NatToString(12) == "12" by {
      assert NatToString(1) == "1";
    }
    assert NatToString(6) == "6";
    forall i | 0 <= i < 24 ensures HourOfDayLabels()[i] == "" <==> i % 6 != 0 {
      assert HourOfDayLabels()[i] == HourLabel(i);
    }
  }

  // ---------------------------------------------------------------------------------
  // getDateRange

  /**
   * Every window ends at the start of today; week, month and year go back 7 days,
   * one month and one year; `all` starts at the start of the day of the earliest
   * record (never later than now), or 30 days back when there are no records.
   */
  function DateRangeOf(frame: TimeFrame, tasks: seq<Task>, now: DateTime): DateRange {
    var end := StartOfDay(now);
    match frame
    case Week => DateRange(SubDays(end, 7), end)
    case Month => DateRange(SubMonths(end, 1), end)
    case Year => DateRange(SubYears(end, 1), end)
    case All =>
      var cs := AllCompletions(tasks);
      if cs == [] then DateRange(SubDays(end, 30), end)
      else DateRange(StartOfDay(EarliestFrom(now, cs)), end)
  }

  /** The nested `forEach` over every task's completions that tracks `minDate` and `hasCompletions`. */
  method GetDateRange(frame: TimeFrame, tasks: seq<Task>, now: DateTime) returns (r: DateRange)
    ensures r == DateRangeOf(frame, tasks, now)
  {
    var end := StartOfDay(now);
    if frame == All {
      var minDate := now;
      var hasCompletions := false;
      for i := 0 to |tasks|
        invariant minDate == EarliestFrom(now, AllCompletions(tasks[..i]))
        invariant hasCompletions <==> AllCompletions(tasks[..i]) != []
      {
        var cs := CompletionsOf(tasks[i]);
        var seenAny;
        minDate, seenAny := ScanEarliest(minDate, Dates(cs), Instant);
        hasCompletions := hasCompletions || seenAny;
        AllCompletionsPrefix(tasks, i);
        EarliestConcat(now, AllCompletions(tasks[..i]), cs);
      }
      assert tasks[..|tasks|] == tasks;
      if !hasCompletions {
        return DateRange(SubDays(end, 30), end);
      }
      return DateRange(StartOfDay(minDate), end);
    }
    match frame {
      case Week => r := DateRange(SubDays(end, 7), end);
      case Month => r := DateRange(SubMonths(end, 1), end);
      case Year => r := DateRange(SubYears(end, 1), end);
    }
  }

  /**
   * The inner `forEach`: each date earlier than the running minimum replaces it, and
   * `seenAny` records that the list was not empty.  The key is the date's instant.
   */
  method ScanEarliest<T>(m0: T, dates: seq<T>, key: T -> int) returns (m: T, seenAny: bool)
    ensures m == MinFrom(m0, dates, key) && (seenAny <==> dates != [])
  {
    m, seenAny := m0, false;
    for k := 0 to |dates|
      invariant m == MinFrom(m0, dates[..k], key) && (seenAny <==> k > 0)
    {
      assert dates[..k + 1][..k] == dates[..k];
      if key(dates[k]) < key(m) {
        m := dates[k];
      }
      seenAny := true;
    }
    assert dates[..|dates|] == dates;
  }

  /** Scanning two lists one after the other finds the minimum of their concatenation. */
  lemma {:induction false} MinFromConcat<T>(m: T, a: seq<T>, b: seq<T>, key: T -> int)
    ensures MinFrom(MinFrom(m, a, key), b, key) == MinFrom(m, a + b, key)
    decreases |b|
  {
    if b == [] {
      assert a + b == a;
    } else {
      assert (a + b)[..|a + b| - 1] == a + b[..|b| - 1];
      MinFromConcat(m, a, b[..|b| - 1], key);
    }
  }

  lemma EarliestConcat(now: DateTime, a: seq<Completion>, b: seq<Completion>)
    ensures MinFrom(EarliestFrom(now, a), Dates(b), Instant) == EarliestFrom(now, a + b)
  {
    assert Dates(a + b) == Dates(a) + Dates(b);
    MinFromConcat(now, Dates(a), Dates(b), Instant);
  }

  lemma AllCompletionsPrefix(tasks: seq<Task>, i: int)
    requires 0 <= i < |tasks|
    ensures AllCompletions(tasks[..i + 1]) == AllCompletions(tasks[..i]) + CompletionsOf(tasks[i])
  {
    assert tasks[..i + 1][..i] == tasks[..i];
  }

  /**
   * The window always ends at the start of today and never starts after it; the week
   * window is exactly 7 days; for `all`, every record starts on or after the window's
   * start, and with no records the window is the last 30 days.
   */
  lemma DateRangeBounds(frame: TimeFrame, tasks: seq<Task>, now: DateTime)
    ensures var r := DateRangeOf(frame, tasks, now);
      && r.end == StartOfDay(now)
      && Instant(r.start) <= Instant(r.end)
      && (frame == Week ==> Instant(r.end) - Instant(r.start) == 7 * DayMs)
      && (frame == All && AllCompletions(tasks) == [] ==> Instant(r.end) - Instant(r.start) == 30 * DayMs)
      && (frame == All ==> forall i :: 0 <= i < |AllCompletions(tasks)| ==>
            Instant(r.start) <= Instant(Parse(AllCompletions(tasks)[i].date)))
  {
    var end := StartOfDay(now);
    var r := DateRangeOf(frame, tasks, now);
    match frame {
      case Week =>
      case Month => SubMonthsEarlier(end, 1);
      case Year =>
        DayNumberOrder(SubYears(end, 1).date, end.date);
      case All =>
        var cs := AllCompletions(tasks);
        if cs != [] {
          var m := EarliestFrom(now, cs);
          EarliestIsMinimum(now, cs);
          InstantOrder(m, now);
        }
    }
  }

  // ---------------------------------------------------------------------------------
  // getCompletionPatterns

  /** The `forEach` that adds each record, placed at its date with the hour of `completedAt`, inside the range. */
  method GetCompletionPatterns(range: DateRange, cs: seq<Completion>) returns (p: Patterns)
    ensures p == PatternsOf(cs, Between(range.start, range.end), FromCompletedAt)
  {
    p := CollectPatterns(cs, Between(range.start, range.end), FromCompletedAt);
  }

  /** The pattern loop shared by the screens: seven weekday and 24 hour slots filled record by record. */
  method CollectPatterns(cs: seq<Completion>, win: Window, h: HourSource) returns (p: Patterns)
    ensures p == PatternsOf(cs, win, h)
  {
    p := Patterns(Zeros(7), Zeros(24));
    for i := 0 to |cs|
      invariant p == PatternsOf(cs[..i], win, h)
    {
      PatternsPrefix(cs, i, win, h);
      p := AddToPatterns(win, h, p, cs[i]);
    }
    assert cs[..|cs|] == cs;
  }

  /** The `forEach` callback: the record's moment, counted in its weekday and hour slots if the window admits it. */
  method AddToPatterns(win: Window, h: HourSource, p: Patterns, completion: Completion) returns (q: Patterns)
    requires |p.dayOfWeekData| == 7 && |p.hourOfDayData| == 24
    ensures q == PatternStep(p, completion, win, h)
  {
    var dayOfWeekData, hourOfDayData := p.dayOfWeekData, p.hourOfDayData;
    var date := if h == FromCompletedAt then SetHours(Parse(completion.date), HourOf(completion.completedAt))
                else Parse(completion.date);
    if win.Unbounded? || (Instant(date) >= Instant(win.from) && Instant(date) <= Instant(win.to)) {
      dayOfWeekData := dayOfWeekData[DayOfWeek(date.date) := dayOfWeekData[DayOfWeek(date.date)] + completion.timesCompleted];
      hourOfDayData := hourOfDayData[HourOf(date) := hourOfDayData[HourOf(date)] + completion.timesCompleted];
    }
    q := Patterns(dayOfWeekData, hourOfDayData);
  }

  /**
   * Against the windows of `getDateRange`, which end at midnight today, a record
   * dated today whose `completedAt` hour is 1 or later is never in the patterns.
   */
  lemma TodayAfterMidnightHourLeftOut(frame: TimeFrame, tasks: seq<Task>, now: DateTime, c: Completion)
    requires Parse(c.date).date == now.date && HourOf(c.completedAt) >= 1
    ensures var r := DateRangeOf(frame, tasks, now);
      !Admits(Between(r.start, r.end), Moment(c, FromCompletedAt))
  {
  }

  // ---------------------------------------------------------------------------------
  // getChartData

  /** Where the `all` chart starts: the earliest record, or 30 days before now when there are none. */
  function AllStartOf(cs: seq<Completion>, now: DateTime): DateTime {
    if cs == [] then SubDays(now, 30) else Earliest(cs)
  }

  /** `getChartData`: the `all` chart starts at the earliest record and every record adds its `timesCompleted`. */
  method GetChartData(frame: TimeFrame, cs: seq<Completion>, cumulative: bool, now: DateTime) returns (r: ChartResult)
    ensures r == ChartFor(frame, AllStartOf(cs, now), now, cs, ByTimes, cumulative)
  {
    r := BuildChart(frame, AllStartOf(cs, now), now, cs, ByTimes, cumulative);
  }

  /**
   * The chart code the screens share: the `switch` that prepares labels and zeroed
   * buckets, the `forEach` that fills them, then the running total.  The `all` chart's
   * start is given (each screen finds it its own way); `w` is what one record adds.
   */
  method BuildChart(frame: TimeFrame, allStart: DateTime, today: DateTime, cs: seq<Completion>, w: Weighting,
                    cumulative: bool) returns (r: ChartResult)
    ensures r == ChartFor(frame, allStart, today, cs, w, cumulative)
  {
    var startDate: DateTime;
    var labels: seq<string>;
    var data: seq<int>;
    var groupSize := 1;
    match frame {
      case Week =>
        startDate := SubDays(today, 6);
        labels := WeekLabels(today);
        data := Zeros(7);
      case Month =>
        startDate := SubDays(today, 29);
        labels := MonthLabels(today);
        data := Zeros(30);
      case Year =>
        startDate := SubMonths(today, 11);
        labels := YearLabels(today);
        data := Zeros(12);
      case All =>
        startDate := allStart;
        var totalDays := TotalDays(startDate, today);
        groupSize := GroupSize(totalDays);
        var numGroups := CeilDiv(totalDays, groupSize);
        if numGroups < 0 {
          return RangeError;
        }
        labels := SparseLabels(startDate, numGroups, groupSize, GroupPattern(totalDays));
        data := Zeros(numGroups);
    }
    ghost var l := Layout(frame, startDate, today, groupSize, |data|);
    for i := 0 to |cs|
      invariant data == Bucketed(l, cs[..i], w)
    {
      BucketedPrefix(l, cs, i, w);
      data := AddToBucket(frame, startDate, today, groupSize, w, data, cs[i]);
    }
    assert cs[..|cs|] == cs;
    if cumulative {
      data := RunningTotals(data);
    }
    r := Chart(ChartData(labels, data));
  }

  /** The `forEach` callback: a record in `[startDate, today]` adds its weight to its bucket when the index is in bounds. */
  method AddToBucket(frame: TimeFrame, startDate: DateTime, today: DateTime, groupSize: int, w: Weighting,
                     data: seq<int>, completion: Completion) returns (next: seq<int>)
    requires groupSize >= 1
    ensures next == BucketStep(Layout(frame, startDate, today, groupSize, |data|), data, completion, w)
  {
    next := data;
    var date := Parse(completion.date);
    if Instant(date) >= Instant(startDate) && Instant(date) <= Instant(today) {
      var index :=
        if frame == Week then 6 - (Instant(today) - Instant(date)) / DayMs
        else if frame == Month then 29 - (Instant(today) - Instant(date)) / DayMs
        else if frame == Year then 11 - (Instant(today) - Instant(date)) / (30 * DayMs)
        else (Instant(date) - Instant(startDate)) / (DayMs * groupSize);
      if 0 <= index < |data| {
        next := data[index := data[index] + (if w == ByTimes then completion.timesCompleted else 1)];
      }
    }
  }

  // ---------------------------------------------------------------------------------
  // calculateAggregateStats

  /** The initial `stats` object: zeros, `'never_started'` and a `lastStreak` of 0. */
  const AggregateDefaults: TaskStats := TaskStats(
    currentStreak := 0, bestStreak := 0, totalCompletions := 0, completionRate := 0.0,
    lastCompleted := None, lastStreak := Some(0), streakStatus := Some(NeverStarted))

  /** One step of the fold: a task without stats is skipped. */
  function FoldTask(s: TaskStats, t: Task): TaskStats {
    match t.stats
    case None => s
    case Some(ts) =>
      s.(totalCompletions := s.totalCompletions + |CompletionsOf(t)|,
         completionRate := (s.completionRate + ts.completionRate) / 2.0,
         currentStreak := Max(s.currentStreak, ts.currentStreak),
         bestStreak := Max(s.bestStreak, ts.bestStreak))
  }

  function Max(a: int, b: int): int {
    if a >= b then a else b
  }

  /** The fold over the tasks in order; only four fields ever change. */
  function AggregateFrom(init: TaskStats, tasks: seq<Task>): (r: TaskStats)
    ensures r.lastCompleted == init.lastCompleted && r.lastStreak == init.lastStreak
    ensures r.streakStatus == init.streakStatus
  {
    if tasks == [] then init else FoldTask(AggregateFrom(init, tasks[..|tasks| - 1]), tasks[|tasks| - 1])
  }

  /** `calculateAggregateStats`: the fold from the defaults above. */
  method CalculateAggregateStats(tasks: seq<Task>) returns (stats: TaskStats)
    ensures stats == AggregateFrom(AggregateDefaults, tasks)
  {
    stats := Aggregate(AggregateDefaults, tasks);
  }

  /** The `forEach` over the tasks updating the `stats` object, from the given defaults. */
  method Aggregate(init: TaskStats, tasks: seq<Task>) returns (stats: TaskStats)
    ensures stats == AggregateFrom(init, tasks)
  {
    stats := init;
    for i := 0 to |tasks|
      invariant stats == AggregateFrom(init, tasks[..i])
    {
      assert tasks[..i + 1][..i] == tasks[..i];
      var task := tasks[i];
      if task.stats.Some? {
        var ts := task.stats.value;
        stats := stats.(totalCompletions := stats.totalCompletions + |CompletionsOf(task)|);
        stats := stats.(completionRate := (stats.completionRate + ts.completionRate) / 2.0);
        stats := stats.(currentStreak := Max(stats.currentStreak, ts.currentStreak));
        stats := stats.(bestStreak := Max(stats.bestStreak, ts.bestStreak));
      }
    }
    assert tasks[..|tasks|] == tasks;
  }

  /** The tasks that carry stats, in order. */
  function WithStats(tasks: seq<Task>): (r: seq<Task>)
    ensures |r| <= |tasks|
    ensures forall i :: 0 <= i < |r| ==> r[i].stats.Some?
  {
    if tasks == [] then []
    else
      var front := WithStats(tasks[..|tasks| - 1]);
      var t := tasks[|tasks| - 1];
      if t.stats.Some? then front + [t] else front
  }

  /** Some task carries stats exactly when the filtered list is not empty. */
  lemma {:induction false} WithStatsEmpty(tasks: seq<Task>)
    ensures WithStats(tasks) == [] <==> forall i :: 0 <= i < |tasks| ==> tasks[i].stats.None?
    decreases |tasks|
  {
    if tasks != [] {
      var front := tasks[..|tasks| - 1];
      WithStatsEmpty(front);
      assert forall i :: 0 <= i < |front| ==> front[i] == tasks[i];
    }
  }

  /**
   * Tasks without stats play no part, and `totalCompletions` counts the records (not
   * their `timesCompleted`) of the tasks that have stats.
   */
  lemma {:induction false} AggregateCountsRecords(init: TaskStats, tasks: seq<Task>)
    ensures AggregateFrom(init, tasks) == AggregateFrom(init, WithStats(tasks))
    ensures AggregateFrom(init, tasks).totalCompletions == init.totalCompletions + |AllCompletions(WithStats(tasks))|
    decreases |tasks|
  {
    if tasks != [] {
      var front := tasks[..|tasks| - 1];
      var t := tasks[|tasks| - 1];
      AggregateCountsRecords(init, front);
      var ws := WithStats(front);
      if t.stats.Some? {
        assert WithStats(tasks) == ws + [t];
        assert (ws + [t])[..|ws|] == ws;
        assert AllCompletions(ws + [t]) == AllCompletions(ws) + CompletionsOf(t);
      }
    }
  }

  /**
   * The streak fields are running maxima: no smaller than the start value or any
   * task's figure, and equal to the start value or to one task's figure.
   */
  lemma {:induction false} AggregateStreaksAreMaxima(init: TaskStats, tasks: seq<Task>)
    ensures var r := AggregateFrom(init, tasks);
      && r.currentStreak >= init.currentStreak
      && r.bestStreak >= init.bestStreak
      && (forall i :: 0 <= i < |tasks| && tasks[i].stats.Some? ==>
            r.currentStreak >= tasks[i].stats.value.currentStreak && r.bestStreak >= tasks[i].stats.value.bestStreak)
      && (r.currentStreak == init.currentStreak ||
            exists i :: 0 <= i < |tasks| && tasks[i].stats.Some? && r.currentStreak == tasks[i].stats.value.currentStreak)
      && (r.bestStreak == init.bestStreak ||
            exists i :: 0 <= i < |tasks| && tasks[i].stats.Some? && r.bestStreak == tasks[i].stats.value.bestStreak)
    decreases |tasks|
  {
    if tasks != [] {
      var front := tasks[..|tasks| - 1];
      var n := |tasks| - 1;
      AggregateStreaksAreMaxima(init, front);
      var p := AggregateFrom(init, front);
      var r := AggregateFrom(init, tasks);
      assert forall i :: 0 <= i < |front| ==> front[i] == tasks[i];
      if p.currentStreak != init.currentStreak && r.currentStreak == p.currentStreak {
        var i :| 0 <= i < |front| && front[i].stats.Some? && p.currentStreak == front[i].stats.value.currentStreak;
        assert tasks[i] == front[i];
      }
      if p.bestStreak != init.bestStreak && r.bestStreak == p.bestStreak {
        var i :| 0 <= i < |front| && front[i].stats.Some? && p.bestStreak == front[i].stats.value.bestStreak;
        assert tasks[i] == front[i];
      }
    }
  }

  // ---------------------------------------------------------------------------------
  // The pairwise rate average, and the mean it stands for

  /**
   * As written, the rate is halved at every task with stats: a single task's rate
   * comes out at half its value, and the result depends on the tasks' order.
   */
  lemma RateIsHalvedAndOrdered(t: Task, u: Task)
    requires t.stats.Some? && u.stats.Some?
    ensures AggregateFrom(AggregateDefaults, [t]).completionRate == t.stats.value.completionRate / 2.0
    ensures AggregateFrom(AggregateDefaults, [t, u]).completionRate ==
      t.stats.value.completionRate / 4.0 + u.stats.value.completionRate / 2.0
    ensures t.stats.value.completionRate != u.stats.value.completionRate ==>
      AggregateFrom(AggregateDefaults, [t, u]).completionRate != AggregateFrom(AggregateDefaults, [u, t]).completionRate
  {
    assert [t, u][..1] == [t];
    assert [u, t][..1] == [u];
  }

  /** The sum of the rates of the tasks that carry stats. */
  function RateSum(tasks: seq<Task>): real {
    if tasks == [] then 0.0
    else
      var t := tasks[|tasks| - 1];
      RateSum(tasks[..|tasks| - 1]) + if t.stats.Some? then t.stats.value.completionRate else 0.0
  }

  /** The mean completion rate of the tasks that carry stats, 0 when none does. */
  function MeanRate(tasks: seq<Task>): real {
    var n := |WithStats(tasks)|;
    if n == 0 then 0.0 else RateSum(tasks) / n as real
  }

  lemma {:induction false} RateSumOfEqualRates(tasks: seq<Task>, x: real)
    requires forall i :: 0 <= i < |tasks| && tasks[i].stats.Some? ==> tasks[i].stats.value.completionRate == x
    ensures RateSum(tasks) == (|WithStats(tasks)| as real) * x
    decreases |tasks|
  {
    if tasks != [] {
      var front := tasks[..|tasks| - 1];
      assert forall i :: 0 <= i < |front| ==> front[i] == tasks[i];
      RateSumOfEqualRates(front, x);
      var k := |WithStats(front)|;
      if tasks[|tasks| - 1].stats.Some? {
        assert |WithStats(tasks)| == k + 1;
        assert RateSum(tasks) == RateSum(front) + x;
        OneMore(k as real, x);
      } else {
        assert WithStats(tasks) == WithStats(front);
      }
    }
  }

  lemma OneMore(k: real, x: real)
    ensures (k + 1.0) * x == k * x + x
  {
  }

  lemma DivCancel(n: int, sum: real, x: real)
    requires n > 0 && sum == (n as real) * x
    ensures sum / (n as real) == x
  {
  }

  /** The mean is the common rate when every task with stats has the same rate, so one task gives its own. */
  lemma MeanRateOfEqualRates(tasks: seq<Task>, x: real)
    requires forall i :: 0 <= i < |tasks| && tasks[i].stats.Some? ==> tasks[i].stats.value.completionRate == x
    requires exists i :: 0 <= i < |tasks| && tasks[i].stats.Some?
    ensures MeanRate(tasks) == x
  {
    var i :| 0 <= i < |tasks| && tasks[i].stats.Some?;
    SomeWithStats(tasks, i);
    RateSumOfEqualRates(tasks, x);
    DivCancel(|WithStats(tasks)|, RateSum(tasks), x);
  }

  lemma SomeWithStats(tasks: seq<Task>, i: int)
    requires 0 <= i < |tasks| && tasks[i].stats.Some?
    ensures |WithStats(tasks)| > 0
  {
    WithStatsEmpty(tasks);
  }

  // ---------------------------------------------------------------------------------
  // getDateRangeLabel

  /** Same month: `MMM d - d`; same year: `MMM d - MMM d`; otherwise both dates with their year. */
  function DateRangeLabel(range: DateRange): string {
    var s, e := range.start.date, range.end.date;
    if s.year == e.year && s.month == e.month then Format(s, MonthDay) + " - " + NatToString(e.day)
    else if s.year == e.year then Format(s, MonthDay) + " - " + Format(e, MonthDay)
    else Format(s, MonthDayYear) + " - " + Format(e, MonthDayYear)
  }

  lemma FormatWithYearHasComma(d: CalendarDate)
    ensures ',' in Format(d, MonthDayYear)
  {
    var month := MonthNames[d.month - 1];
    var s := Format(d, MonthDayYear);
    assert s[|month + " " + NatToString(d.day)|] == ',';
  }

  lemma NoCommaInDigits(n: nat)
    ensures ',' !in NatToString(n)
  {
  }

  /**
   * The label names a year (carries a comma) exactly when the two years differ; it
   * always starts with the start's `MMM d`, and within one month it ends with the
   * end's day number alone.
   */
  lemma DateRangeLabelFormats(range: DateRange)
    ensures var s, e := range.start.date, range.end.date;
      && (',' in DateRangeLabel(range) <==> s.year != e.year)
      && (s.year == e.year ==> DateRangeLabel(range)[..|Format(s, MonthDay)|] == Format(s, MonthDay))
      && (s.year == e.year && s.month == e.month ==>
            DateRangeLabel(range) == Format(s, MonthDay) + " - " + NatToString(e.day))
  {
    var s, e := range.start.date, range.end.date;
    if s.year != e.year {
      FormatWithYearHasComma(s);
      assert Format(s, MonthDayYear) <= DateRangeLabel(range);
    } else if s.month == e.month {
      NoCommaInDigits(e.day);
      assert DateRangeLabel(range) == Format(s, MonthDay) + (" - " + NatToString(e.day));
    } else {
      assert DateRangeLabel(range) == Format(s, MonthDay) + (" - " + Format(e, MonthDay));
    }
  }
}
