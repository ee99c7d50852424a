/**
 * The per-task statistics screen (`app/screens/TaskStatsScreen.tsx`): the chart of
 * one task's records for a chosen frame and the weekday and hour patterns of all of
 * its records.  The fixed frames are the dashboard's; the `all` chart runs from the
 * earliest record to the latest one, or from the task's creation to now when it has
 * none.  The current time is a parameter.
 */
module TaskStatsScreen {
  import opened Calendar
  import opened DateText
  import opened Records
  import opened Tally
  import opened Charts
  import opened Analytics

  /** The start of the `all` chart: the earliest record, or the task's creation when there is none. */
  function StatsStart(t: Task): DateTime {
    var cs := CompletionsOf(t);
    if cs == [] then t.createdAt else Earliest(cs)
  }

  /** The chart's end: now, except that an `all` chart with records ends at the latest of them. */
  function StatsEnd(frame: TimeFrame, t: Task, now: DateTime): DateTime {
    var cs := CompletionsOf(t);
    if frame == All && cs != [] then Latest(cs) else now
  }

  /** `getTimeRangeData`: the task's records, each adding its `timesCompleted`; no running total. */
  method GetTimeRangeData(frame: TimeFrame, t: Task, now: DateTime) returns (r: ChartResult)
    ensures r == ChartFor(frame, StatsStart(t), StatsEnd(frame, t, now), CompletionsOf(t), ByTimes, false)
  {
    var cs := CompletionsOf(t);
    var today := now;
    var startDate := t.createdAt;
    if frame == All && cs != [] {
      startDate := Earliest(cs);
      today := Latest(cs);
    }
    r := BuildChart(frame, startDate, today, cs, ByTimes, false);
  }

  /** Week, month and year: the chart `data.ts` draws for the same records. */
  lemma FixedFramesAsShared(frame: TimeFrame, t: Task, now: DateTime)
    requires frame != All
    ensures ChartFor(frame, StatsStart(t), StatsEnd(frame, t, now), CompletionsOf(t), ByTimes, false)
         == ChartFor(frame, AllStartOf(CompletionsOf(t), now), now, CompletionsOf(t), ByTimes, false)
  {
  }

  /** The earliest and latest records are records of the list, the one no later than the other. */
  lemma SpanEnds(cs: seq<Completion>)
    requires cs != []
    ensures Instant(Earliest(cs)) <= Instant(Latest(cs))
    ensures exists i :: 0 <= i < |cs| && Parse(cs[i].date) == Earliest(cs)
    ensures exists i :: 0 <= i < |cs| && Parse(cs[i].date) == Latest(cs)
    ensures forall i :: 0 <= i < |cs| ==> Instant(Earliest(cs)) <= Instant(Parse(cs[i].date)) <= Instant(Latest(cs))
  {
    EarliestIsMinimum(Parse(cs[0].date), cs);
    LatestIsMaximum(Parse(cs[0].date), cs);
  }

  /**
   * Records that all fall at one instant (a single record among them) give an `all`
   * chart with no buckets and no labels: it spans zero days.
   */
  lemma OneInstantEmptyChart(cs: seq<Completion>, w: Weighting)
    requires cs != []
    requires forall i :: 0 <= i < |cs| ==> Parse(cs[i].date) == Parse(cs[0].date)
    ensures ChartFor(All, Earliest(cs), Latest(cs), cs, w, false) == Chart(ChartData([], []))
  {
    SpanEnds(cs);
    assert Earliest(cs) == Latest(cs);
    ZeroSpanEmptyChart(Earliest(cs), cs, w);
  }

  /** An `all` chart that starts where it ends has zero days, hence no buckets. */
  lemma ZeroSpanEmptyChart(s: DateTime, cs: seq<Completion>, w: Weighting)
    ensures ChartFor(All, s, s, cs, w, false) == Chart(ChartData([], []))
  {
    ZeroDays(s);
    AllChartUnfold(s, s, cs, w);
    NoGroupsNoLabels(s, GroupSize(0), GroupPattern(0));
    assert Bucketed(AllLayout(s, s), cs, w) == [];
  }

  lemma ZeroDays(s: DateTime)
    ensures TotalDays(s, s) == 0 && NumGroups(TotalDays(s, s)) == 0
  {
  }

  /** The `all` branch of ChartFor, for a span whose bucket count is not negative. */
  lemma AllChartUnfold(s: DateTime, e: DateTime, cs: seq<Completion>, w: Weighting)
    requires NumGroups(TotalDays(s, e)) >= 0
    ensures var td := TotalDays(s, e);
      ChartFor(All, s, e, cs, w, false)
        == Chart(ChartData(SparseLabels(s, NumGroups(td), GroupSize(td), GroupPattern(td)), Bucketed(AllLayout(s, e), cs, w)))
  {
  }

  lemma NoGroupsNoLabels(s: DateTime, g: int, p: Pattern)
    ensures SparseLabels(s, 0, g, p) == []
  {
    assert |SparseLabels(s, 0, g, p)| == 0;
  }

  /**
   * With records stored as bare days, spanning one to thirty days, the `all` chart
   * has one daily bucket per day of the span, so the latest record's index is one past
   * the last bucket: it lies in the window and is still dropped.
   */
  lemma LatestDayDropped(cs: seq<Completion>)
    requires cs != []
    requires forall i :: 0 <= i < |cs| ==> cs[i].date.DateOnly?
    requires Instant(Earliest(cs)) < Instant(Latest(cs)) <= Instant(Earliest(cs)) + 30 * DayMs
    ensures NumGroups(TotalDays(Earliest(cs), Latest(cs))) == (Instant(Latest(cs)) - Instant(Earliest(cs))) / DayMs
    ensures exists i :: (0 <= i < |cs| && Parse(cs[i].date) == Latest(cs)
                         && Windowed(AllLayout(Earliest(cs), Latest(cs)), Parse(cs[i].date))
                         && !Counted(AllLayout(Earliest(cs), Latest(cs)), cs[i]))
  {
    var e, l := Earliest(cs), Latest(cs);
    SpanEnds(cs);
    var a :| 0 <= a < |cs| && Parse(cs[a].date) == e;
    var b :| 0 <= b < |cs| && Parse(cs[b].date) == l;
    LastIndexOnePastEnd(e, l);
  }

  /** Two midnights one to thirty days apart: the later one's index is the bucket count. */
  lemma LastIndexOnePastEnd(e: DateTime, l: DateTime)
    requires e.msOfDay == 0 && l.msOfDay == 0
    requires Instant(e) < Instant(l) <= Instant(e) + 30 * DayMs
    ensures NumGroups(TotalDays(e, l)) == (Instant(l) - Instant(e)) / DayMs
    ensures BucketIndex(AllLayout(e, l), l) == NumGroups(TotalDays(e, l))
  {
    var k := DayNumber(l.date) - DayNumber(e.date);
    assert Instant(l) - Instant(e) == k * DayMs;
    WholeDays(k);
    AllBucketIndex(e, l, l);
  }

  /** A span of k whole days, 1 to 30 of them, is k days and k daily buckets. */
  lemma WholeDays(k: int)
    requires 1 <= k <= 30
    ensures CeilDiv(k * DayMs, DayMs) == k && GroupSize(k) == 1 && NumGroups(k) == k
    ensures (k * DayMs) / (DayMs * 1) == k
  {
    assert (-(k * DayMs)) / DayMs == -k;
  }

  /** The end the `all` chart evidently means: one day past the latest record, so that its day gets a bucket. */
  function IntendedEnd(cs: seq<Completion>): (e: DateTime)
    requires cs != []
    ensures Instant(e) == Instant(Latest(cs)) + DayMs
  {
    AddDaysTo(Latest(cs), 1)
  }

  /** Every record lies in the window from the earliest record to the intended end, before that end. */
  lemma IntendedWindow(cs: seq<Completion>)
    requires cs != []
    ensures Instant(Earliest(cs)) <= Instant(IntendedEnd(cs))
    ensures forall i :: 0 <= i < |cs| ==> Instant(Earliest(cs)) <= Instant(Parse(cs[i].date)) < Instant(IntendedEnd(cs))
  {
    SpanEnds(cs);
  }

  /** Ending one day past the latest record, the `all` chart holds every record's `timesCompleted`. */
  lemma IntendedChartCountsEveryRecord(cs: seq<Completion>)
    requires cs != []
    ensures ChartFor(All, Earliest(cs), IntendedEnd(cs), cs, ByTimes, false).Chart?
    ensures Sum(ChartFor(All, Earliest(cs), IntendedEnd(cs), cs, ByTimes, false).chart.data) == SumTimes(cs)
  {
    IntendedWindow(cs);
    AllChartCountsEveryRecord(Earliest(cs), IntendedEnd(cs), cs, ByTimes);
  }

  /** `getCompletionPatterns`: every record, unfiltered, at the weekday and hour of its own parsed date. */
  method GetCompletionPatterns(t: Task) returns (p: Patterns)
    ensures p == PatternsOf(CompletionsOf(t), Unbounded, FromDate)
  {
    p := CollectPatterns(CompletionsOf(t), Unbounded, FromDate);
  }

  /** Both pattern charts add up to the task's total `timesCompleted`. */
  lemma PatternsCountEveryTime(t: Task)
    ensures Sum(PatternsOf(CompletionsOf(t), Unbounded, FromDate).dayOfWeekData) == SumTimes(CompletionsOf(t))
    ensures Sum(PatternsOf(CompletionsOf(t), Unbounded, FromDate).hourOfDayData) == SumTimes(CompletionsOf(t))
  {
    PatternTotals(CompletionsOf(t), Unbounded, FromDate);
  }
}
