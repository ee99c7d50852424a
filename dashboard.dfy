/**
 * The dashboard screen (`app/screens/DashboardScreen.tsx`): the set of selected
 * tasks, the records of the selected tasks cut to the chosen window, the aggregate
 * over them, the chart that counts records and the patterns read from the records'
 * own dates.  Its `getDateRange` and `getDateRangeLabel` are the same code as
 * Analytics.DateRangeOf and Analytics.DateRangeLabel, and its chart shares
 * Analytics.BuildChart.  The current time is a parameter.
 */
module Dashboard {
  import opened Wrappers
  import opened Calendar
  import opened DateText
  import opened Records
  import opened Tally
  import opened Charts
  import opened Analytics

  // ---------------------------------------------------------------------------------
  // onTaskToggle

  /** `prev.filter(x => x !== id)`: every occurrence of `id` dropped, the rest in order. */
  function Without(s: seq<string>, id: string): (r: seq<string>)
    ensures forall x :: x in r <==> x in s && x != id
    ensures |r| <= |s|
  {
    if s == [] then []
    else
      var front := Without(s[..|s| - 1], id);
      assert s == s[..|s| - 1] + [s[|s| - 1]];
      if s[|s| - 1] == id then front else front + [s[|s| - 1]]
  }

  /** A selected task is dropped from the selection, an unselected one appended to it. */
  function Toggle(selected: seq<string>, id: string): (r: seq<string>)
    ensures id in r <==> id !in selected
    ensures forall x :: x != id ==> (x in r <==> x in selected)
    ensures id !in selected ==> |r| == |selected| + 1 && r[..|selected|] == selected
  {
    if id in selected then Without(selected, id) else selected + [id]
  }

  /** Toggling the same task twice leaves the same tasks selected. */
  lemma ToggleTwice(selected: seq<string>, id: string)
    ensures forall x :: x in Toggle(Toggle(selected, id), id) <==> x in selected
  {
  }

  // ---------------------------------------------------------------------------------
  // filteredTasks and getFilteredCompletions

  /** `tasks.filter(task => selectedTasks.includes(task.id))`. */
  function FilteredTasks(tasks: seq<Task>, selected: seq<string>): (r: seq<Task>)
    ensures forall t :: t in r <==> t in tasks && t.id in selected
    ensures |r| <= |tasks|
  {
    if tasks == [] then []
    else
      var t := tasks[|tasks| - 1];
      assert tasks == tasks[..|tasks| - 1] + [t];
      FilteredTasks(tasks[..|tasks| - 1], selected) + if t.id in selected then [t] else []
  }

  /** Filtering keeps the tasks' order: filtering a concatenation concatenates the filtered parts. */
  lemma {:induction false} FilteredTasksConcat(a: seq<Task>, b: seq<Task>, selected: seq<string>)
    ensures FilteredTasks(a + b, selected) == FilteredTasks(a, selected) + FilteredTasks(b, selected)
    decreases |b|
  {
    if b == [] {
      assert a + b == a;
    } else {
      var front, t := b[..|b| - 1], b[|b| - 1];
      var extra := if t.id in selected then [t] else [];
      assert (a + b)[..|a + b| - 1] == a + front;
      assert (a + b)[|a + b| - 1] == t;
      assert FilteredTasks(a + b, selected) == FilteredTasks(a + front, selected) + extra;
      FilteredTasksConcat(a, front, selected);
      assert FilteredTasks(b, selected) == FilteredTasks(front, selected) + extra;
    }
  }

  /** A record is kept iff its parsed date lies in `[start, end]`. */
  predicate InRange(c: Completion, range: DateRange) {
    Instant(range.start) <= Instant(Parse(c.date)) <= Instant(range.end)
  }

  /** The `completions?.filter(...)`: everything for `all`, the records inside the range otherwise. */
  function KeepInRange(cs: seq<Completion>, frame: TimeFrame, range: DateRange): (r: seq<Completion>)
    ensures forall c :: c in r <==> c in cs && (frame == All || InRange(c, range))
    ensures frame == All ==> r == cs
    ensures |r| <= |cs|
  {
    if cs == [] then []
    else
      var c := cs[|cs| - 1];
      assert cs == cs[..|cs| - 1] + [c];
      KeepInRange(cs[..|cs| - 1], frame, range) + if frame == All || InRange(c, range) then [c] else []
  }

  /** One selected task with its records cut to the window; a task without records gets an empty list. */
  function WithRecordsIn(t: Task, frame: TimeFrame, range: DateRange): Task {
    t.(completions := Some(KeepInRange(CompletionsOf(t), frame, range)))
  }

  /** `filteredTasks.map(...)`: the selected tasks, in order, each keeping only its records in the window. */
  function FilteredData(tasks: seq<Task>, frame: TimeFrame, range: DateRange): (r: seq<Task>)
    ensures |r| == |tasks|
  {
    seq(|tasks|, i requires 0 <= i < |tasks| => WithRecordsIn(tasks[i], frame, range))
  }

  /** Each task keeps its id and stats, and exactly those of its records the window admits. */
  lemma FilteredDataKeeps(tasks: seq<Task>, frame: TimeFrame, range: DateRange, i: int)
    requires 0 <= i < |tasks|
    ensures var t := FilteredData(tasks, frame, range)[i];
      && t.id == tasks[i].id && t.stats == tasks[i].stats && t.completions.Some?
      && forall c :: c in CompletionsOf(t) <==> c in CompletionsOf(tasks[i]) && (frame == All || InRange(c, range))
  {
  }

  /**
   * The window of a fixed frame ends at midnight today, so a record dated today at
   * any later time of day is never kept, whatever the frame's length.
   */
  lemma TodayAfterMidnightFiltered(frame: TimeFrame, tasks: seq<Task>, now: DateTime, c: Completion)
    requires frame != All
    requires Parse(c.date).date == now.date && Parse(c.date).msOfDay > 0
    ensures !InRange(c, DateRangeOf(frame, tasks, now))
  {
  }

  /** The window the fixed frames evidently mean: the same start, ending now rather than at midnight. */
  function IntendedRange(frame: TimeFrame, tasks: seq<Task>, now: DateTime): (r: DateRange)
    ensures r.start == DateRangeOf(frame, tasks, now).start && r.end == now
  {
    DateRangeOf(frame, tasks, now).(end := now)
  }

  /** With the intended window, every record of today up to now is kept. */
  lemma TodayKeptInIntendedRange(frame: TimeFrame, tasks: seq<Task>, now: DateTime, c: Completion)
    requires Parse(c.date).date == now.date && Instant(Parse(c.date)) <= Instant(now)
    ensures InRange(c, IntendedRange(frame, tasks, now))
  {
    DateRangeBounds(frame, tasks, now);
    assert Instant(StartOfDay(now)) <= Instant(Parse(c.date)) by {
      assert StartOfDay(now) == Stamp(Parse(c.date).date, 0);
    }
  }

  // ---------------------------------------------------------------------------------
  // calculateAggregateStats

  /** The dashboard's initial `stats`: as in `data.ts` but with a `null` `lastStreak`. */
  const DashboardDefaults: TaskStats := AggregateDefaults.(lastStreak := None)

  /** The `forEach` over the filtered tasks, counting only the records left in the window. */
  method CalculateAggregateStats(data: seq<Task>) returns (stats: TaskStats)
    ensures stats == AggregateFrom(DashboardDefaults, data)
  {
    stats := Aggregate(DashboardDefaults, data);
  }

  /** The dashboard's aggregate is the `data.ts` one except for `lastStreak`. */
  lemma {:induction false} DashboardAggregateDiffersInLastStreak(tasks: seq<Task>)
    ensures AggregateFrom(DashboardDefaults, tasks) == AggregateFrom(AggregateDefaults, tasks).(lastStreak := None)
    decreases |tasks|
  {
    if tasks != [] {
      DashboardAggregateDiffersInLastStreak(tasks[..|tasks| - 1]);
    }
  }

  /** With `all` nothing is cut: the aggregate of the filtered data is that of the selected tasks. */
  lemma {:induction false} AllFrameKeepsAggregate(init: TaskStats, tasks: seq<Task>, range: DateRange)
    ensures AggregateFrom(init, FilteredData(tasks, All, range)) == AggregateFrom(init, tasks)
    decreases |tasks|
  {
    if tasks != [] {
      var front := tasks[..|tasks| - 1];
      assert FilteredData(tasks, All, range)[..|tasks| - 1] == FilteredData(front, All, range);
      AllFrameKeepsAggregate(init, front, range);
    }
  }

  // ---------------------------------------------------------------------------------
  // getChartData

  /**
   * The dashboard chart: the `all` chart starts at the earliest record of the
   * filtered tasks, and every record adds one (`data[index]++`), not its
   * `timesCompleted`.  The nested `forEach` visits the records task by task,
   * which is the order of AllCompletions.
   */
  method GetChartData(frame: TimeFrame, data: seq<Task>, cumulative: bool, now: DateTime) returns (r: ChartResult)
    ensures r == ChartFor(frame, AllStartOf(AllCompletions(data), now), now, AllCompletions(data), ByRecord, cumulative)
  {
    var cs := AllCompletions(data);
    r := BuildChart(frame, AllStartOf(cs, now), now, cs, ByRecord, cumulative);
  }

  /** Week, month and year: the plain chart holds the number of records in the window, however many times each was completed. */
  lemma ChartCountsRecords(frame: TimeFrame, data: seq<Task>, now: DateTime)
    requires frame != All
    ensures var cs := AllCompletions(data);
      var r := ChartFor(frame, AllStartOf(cs, now), now, cs, ByRecord, false);
      r.Chart? && Sum(r.chart.data) <= |cs|
  {
    var cs := AllCompletions(data);
    FixedChartCountsWindow(frame, AllStartOf(cs, now), now, cs, ByRecord);
    WindowedRecordsAtMost(Layout(frame, FixedStart(frame, now), now, 1, FixedSize(frame)), cs);
  }

  /** Counting one per record, the window never holds more than the list. */
  lemma {:induction false} WindowedRecordsAtMost(l: Layout, cs: seq<Completion>)
    ensures 0 <= WindowWeight(l, cs, ByRecord) <= |cs|
    decreases |cs|
  {
    if cs != [] {
      WindowedRecordsAtMost(l, cs[..|cs| - 1]);
    }
  }

  // ---------------------------------------------------------------------------------
  // getCompletionPatterns

  /** Where the pattern window starts: 6 or 29 days or 11 months back, or the earliest record for `all`. */
  function PatternStart(frame: TimeFrame, cs: seq<Completion>, now: DateTime): DateTime {
    match frame
    case Week => SubDays(now, 6)
    case Month => SubDays(now, 29)
    case Year => SubMonths(now, 11)
    case All => AllStartOf(cs, now)
  }

  /** The `switch` for the start, then the nested `forEach` counting each record at its own parsed date. */
  method GetCompletionPatterns(frame: TimeFrame, data: seq<Task>, now: DateTime) returns (p: Patterns)
    ensures var cs := AllCompletions(data);
      p == PatternsOf(cs, Between(PatternStart(frame, cs, now), now), FromDate)
  {
    var cs := AllCompletions(data);
    var startDate := match frame
      case Week => SubDays(now, 6)
      case Month => SubDays(now, 29)
      case Year => SubMonths(now, 11)
      case All => if cs == [] then SubDays(now, 30) else Earliest(cs);
    p := CollectPatterns(cs, Between(startDate, now), FromDate);
  }

  /**
   * The hour is read from the record's `date`, not from `completedAt`: a record
   * stored as a bare day always lands in the midnight slot, on its own weekday.
   */
  lemma DayRecordsCountAtMidnight(c: Completion)
    requires c.date.DateOnly?
    ensures HourOf(Moment(c, FromDate)) == 0 && Moment(c, FromDate).date == c.date.day
  {
  }
}
