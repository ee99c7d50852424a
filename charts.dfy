/**
 * The time-bucketed charts and the day-of-week / hour-of-day patterns.  The same
 * computation appears three times in the source, in `app/utils/data.ts`,
 * `app/screens/DashboardScreen.tsx` and `app/screens/TaskStatsScreen.tsx`; this module
 * holds the parts they share, and each copy picks its own start, end, weighting and
 * hour source.
 */
module Charts {
  import opened Wrappers
  import opened Calendar
  import opened DateText
  import opened Records
  import opened Tally

  datatype TimeFrame = Week | Month | Year | All

  datatype ChartData = ChartData(labels: seq<string>, data: seq<int>)

  /** `Array(numGroups).fill(0)` throws a RangeError when numGroups is negative. */
  datatype ChartResult = Chart(chart: ChartData) | RangeError

  /** What one record adds to its bucket: `timesCompleted`, or 1 (`data[index]++`). */
  datatype Weighting = ByTimes | ByRecord

  function Weight(w: Weighting, c: Completion): int {
    if w == ByTimes then c.timesCompleted else 1
  }

  // ---------------------------------------------------------------------------------
  // Earliest and latest record (`Math.min(...)`, `Math.max(...)` and the `minDate` loop)

  /** The parsed `date` of every record, in order. */
  function Dates(cs: seq<Completion>): (ds: seq<DateTime>)
    ensures |ds| == |cs| && forall i :: 0 <= i < |cs| ==> ds[i] == Parse(cs[i].date)
  {
    seq(|cs|, i requires 0 <= i < |cs| => Parse(cs[i].date))
  }

  /** The element of smallest key, starting from m; a later element replaces it only if strictly smaller. */
  function MinFrom<T>(m: T, s: seq<T>, key: T -> int): T {
    if s == [] then m
    else
      var e := MinFrom(m, s[..|s| - 1], key);
      if key(s[|s| - 1]) < key(e) then s[|s| - 1] else e
  }

  /** The element of largest key, starting from m; a later element replaces it only if strictly larger. */
  function MaxFrom<T>(m: T, s: seq<T>, key: T -> int): T {
    if s == [] then m
    else
      var e := MaxFrom(m, s[..|s| - 1], key);
      if key(s[|s| - 1]) > key(e) then s[|s| - 1] else e
  }

  /** MinFrom is a minimum: no larger than m or any element, and m or one of the elements. */
  lemma {:induction false} MinFromIsMinimum<T>(m: T, s: seq<T>, key: T -> int)
    ensures key(MinFrom(m, s, key)) <= key(m)
    ensures forall i :: 0 <= i < |s| ==> key(MinFrom(m, s, key)) <= key(s[i])
    ensures MinFrom(m, s, key) == m || exists i :: 0 <= i < |s| && MinFrom(m, s, key) == s[i]
    decreases |s|
  {
    if s != [] {
      var front := s[..|s| - 1];
      MinFromIsMinimum(m, front, key);
      var e := MinFrom(m, front, key);
      if e != m {
        var i :| 0 <= i < |front| && e == front[i];
        assert s[i] == front[i];
      }
      forall i | 0 <= i < |s| ensures key(MinFrom(m, s, key)) <= key(s[i]) {
        if i < |front| {
          assert s[i] == front[i];
        }
      }
    }
  }

  /** MaxFrom is a maximum: no smaller than m or any element, and m or one of the elements. */
  lemma {:induction false} MaxFromIsMaximum<T>(m: T, s: seq<T>, key: T -> int)
    ensures key(MaxFrom(m, s, key)) >= key(m)
    ensures forall i :: 0 <= i < |s| ==> key(MaxFrom(m, s, key)) >= key(s[i])
    ensures MaxFrom(m, s, key) == m || exists i :: 0 <= i < |s| && MaxFrom(m, s, key) == s[i]
    decreases |s|
  {
    if s != [] {
      var front := s[..|s| - 1];
      MaxFromIsMaximum(m, front, key);
      var e := MaxFrom(m, front, key);
      if e != m {
        var i :| 0 <= i < |front| && e == front[i];
        assert s[i] == front[i];
      }
      forall i | 0 <= i < |s| ensures key(MaxFrom(m, s, key)) >= key(s[i]) {
        if i < |front| {
          assert s[i] == front[i];
        }
      }
    }
  }

  /** The earliest of m and the records' parsed dates (the `minDate` loop and `Math.min`). */
  function EarliestFrom(m: DateTime, cs: seq<Completion>): DateTime {
    MinFrom(m, Dates(cs), Instant)
  }

  function LatestFrom(m: DateTime, cs: seq<Completion>): DateTime {
    MaxFrom(m, Dates(cs), Instant)
  }

  /** The earliest parsed date is no later than m or than any record, and is m or one of the records' dates. */
  lemma EarliestIsMinimum(m: DateTime, cs: seq<Completion>)
    ensures Instant(EarliestFrom(m, cs)) <= Instant(m)
    ensures forall i :: 0 <= i < |cs| ==> Instant(EarliestFrom(m, cs)) <= Instant(Parse(cs[i].date))
    ensures EarliestFrom(m, cs) == m || exists i :: 0 <= i < |cs| && EarliestFrom(m, cs) == Parse(cs[i].date)
  {
    MinFromIsMinimum(m, Dates(cs), Instant);
  }

  /** The latest parsed date is no earlier than m or than any record, and is m or one of the records' dates. */
  lemma LatestIsMaximum(m: DateTime, cs: seq<Completion>)
    ensures Instant(LatestFrom(m, cs)) >= Instant(m)
    ensures forall i :: 0 <= i < |cs| ==> Instant(LatestFrom(m, cs)) >= Instant(Parse(cs[i].date))
    ensures LatestFrom(m, cs) == m || exists i :: 0 <= i < |cs| && LatestFrom(m, cs) == Parse(cs[i].date)
  {
    MaxFromIsMaximum(m, Dates(cs), Instant);
  }

  /** One more record: it replaces the running minimum only when strictly earlier (the `minDate` update). */
  lemma EarliestStep(m: DateTime, cs: seq<Completion>, c: Completion)
    ensures EarliestFrom(m, cs + [c]) ==
      if Instant(Parse(c.date)) < Instant(EarliestFrom(m, cs)) then Parse(c.date) else EarliestFrom(m, cs)
  {
    assert Dates(cs + [c]) == Dates(cs) + [Parse(c.date)];
    assert (Dates(cs) + [Parse(c.date)])[..|cs|] == Dates(cs);
  }

  /** `new Date(Math.min(...dates))` over a non-empty list. */
  function Earliest(cs: seq<Completion>): DateTime
    requires cs != []
  {
    EarliestFrom(Parse(cs[0].date), cs)
  }

  /** `new Date(Math.max(...dates))` over a non-empty list. */
  function Latest(cs: seq<Completion>): DateTime
    requires cs != []
  {
    LatestFrom(Parse(cs[0].date), cs)
  }

  // ---------------------------------------------------------------------------------
  // Granularity of the `all` chart

  /** `Math.ceil(x / d)`. */
  function CeilDiv(x: int, d: int): int
    requires d > 0
  {
    -((-x) / d)
  }

  lemma CeilDivBounds(x: int, d: int)
    requires d > 0
    ensures (CeilDiv(x, d) - 1) * d < x <= CeilDiv(x, d) * d
  {
    var q := (-x) / d;
    assert -x == q * d + (-x) % d;
    assert CeilDiv(x, d) * d == -(q * d);
    assert (CeilDiv(x, d) - 1) * d == -(q * d) - d;
  }

  /** `Math.ceil((today - start) / one day)`. */
  function TotalDays(start: DateTime, today: DateTime): int {
    CeilDiv(Instant(today) - Instant(start), DayMs)
  }

  /** Days per bucket: daily up to 30 days, weekly up to 90, 30-day months up to 365, else 90-day quarters. */
  function GroupSize(totalDays: int): (g: int)
    ensures g == 1 || g == 7 || g == 30 || g == 90
  {
    if totalDays <= 30 then 1
    else if totalDays <= 90 then 7
    else if totalDays <= 365 then 30
    else 90
  }

  /** The label pattern chosen alongside the group size. */
  function GroupPattern(totalDays: int): Pattern {
    if totalDays <= 90 then MonthDay
    else if totalDays <= 365 then MonthName
    else MonthYear
  }

  /** `Math.ceil(totalDays / groupSize)`. */
  function NumGroups(totalDays: int): int {
    CeilDiv(totalDays, GroupSize(totalDays))
  }

  /** The buckets cover the span: n groups of g days hold totalDays, and n - 1 do not. */
  lemma NumGroupsCoversSpan(totalDays: int)
    ensures var g, n := GroupSize(totalDays), NumGroups(totalDays);
      (n - 1) * g < totalDays <= n * g
    ensures NumGroups(totalDays) < 0 <==> totalDays < 0
  {
    CeilDivBounds(totalDays, GroupSize(totalDays));
  }

  /** Labels only at the first, middle and last bucket, each the start day of its bucket. */
  function SparseLabels(start: DateTime, n: nat, g: int, p: Pattern): seq<string> {
    seq(n, i requires 0 <= i < n =>
      if i == 0 || i == n / 2 || i == n - 1 then Format(AddDaysTo(start, i * g).date, p) else "")
  }

  lemma SparseLabelsShown(start: DateTime, n: nat, g: int, p: Pattern)
    ensures |SparseLabels(start, n, g, p)| == n
    ensures forall i :: 0 <= i < n ==> (SparseLabels(start, n, g, p)[i] != "" <==> i == 0 || i == n / 2 || i == n - 1)
    ensures n > 0 ==> SparseLabels(start, n, g, p)[0] == Format(start.date, p)
  {
    assert AddDaysTo(start, 0 * g) == start;
  }

  // ---------------------------------------------------------------------------------
  // Labels of the fixed frames

  /** `format(subDays(today, 6 - j), 'EEE')`. */
  function WeekLabel(today: DateTime, j: int): string {
    Format(SubDays(today, 6 - j).date, Weekday)
  }

  function WeekLabels(today: DateTime): seq<string> {
    seq(7, j requires 0 <= j < 7 => WeekLabel(today, j))
  }

  lemma WeekLabelIsWeekday(today: DateTime, j: int)
    ensures WeekLabel(today, j) == WeekdayNames[(DayOfWeek(today.date) + j + 1) % 7]
  {
    var d := SubDays(today, 6 - j).date;
    DayOfWeekShift(today.date, d, j - 6);
    ModOffset(-1, DayOfWeek(today.date) + j + 1);
  }

  /** The week labels are the seven weekdays in order, ending with today's. */
  lemma WeekLabelsEndToday(today: DateTime)
    ensures |WeekLabels(today)| == 7
    ensures forall j :: 0 <= j < 7 ==> WeekLabels(today)[j] == WeekdayNames[(DayOfWeek(today.date) + j + 1) % 7]
  {
    forall j | 0 <= j < 7 ensures WeekLabels(today)[j] == WeekdayNames[(DayOfWeek(today.date) + j + 1) % 7] {
      WeekLabelIsWeekday(today, j);
    }
  }

  /** `i % 5 === 0 ? format(subDays(today, i), 'MMM d') : ''` with i = 29 - j. */
  function MonthLabel(today: DateTime, j: int): string {
    if (29 - j) % 5 == 0 then Format(SubDays(today, 29 - j).date, MonthDay) else ""
  }

  function MonthLabels(today: DateTime): seq<string> {
    seq(30, j requires 0 <= j < 30 => MonthLabel(today, j))
  }

  lemma MonthLabelShown(today: DateTime, j: int)
    requires 0 <= j < 30
    ensures MonthLabels(today)[j] != "" <==> j % 5 == 4
  {
    assert MonthLabels(today)[j] == MonthLabel(today, j);
    FifthFromEnd(j);
  }

  lemma FifthFromEnd(j: int)
    ensures (29 - j) % 5 == 0 <==> j % 5 == 4
  {
  }

  lemma MonthLabelToday(today: DateTime)
    ensures MonthLabels(today)[29] == Format(today.date, MonthDay)
  {
    assert MonthLabels(today)[29] == MonthLabel(today, 29);
    DayNumberOrder(SubDays(today, 0).date, today.date);
  }

  /** Every fifth day carries a label, ending with today's. */
  lemma MonthLabelsEveryFifthDay(today: DateTime)
    ensures |MonthLabels(today)| == 30
    ensures forall j :: 0 <= j < 30 ==> (MonthLabels(today)[j] != "" <==> j % 5 == 4)
    ensures MonthLabels(today)[29] == Format(today.date, MonthDay)
  {
    forall j | 0 <= j < 30 ensures MonthLabels(today)[j] != "" <==> j % 5 == 4 {
      MonthLabelShown(today, j);
    }
    MonthLabelToday(today);
  }

  /** `format(subMonths(today, 11 - j), 'MMM')`. */
  function YearLabel(today: DateTime, j: int): string {
    Format(SubMonths(today, 11 - j).date, MonthName)
  }

  function YearLabels(today: DateTime): seq<string> {
    seq(12, j requires 0 <= j < 12 => YearLabel(today, j))
  }

  lemma YearLabelIsMonth(today: DateTime, j: int)
    ensures YearLabel(today, j) == MonthNames[(MonthIndex(today.date) + j + 1) % 12]
  {
    var d := SubMonths(today, 11 - j).date;
    var k := MonthIndex(today.date) + j + 1;
    assert MonthIndex(d) == k - 12;
    assert d.month - 1 == (k - 12) % 12;
  }

  /** The year labels are twelve consecutive month names, ending with the current month's. */
  lemma YearLabelsEndThisMonth(today: DateTime)
    ensures |YearLabels(today)| == 12
    ensures forall j :: 0 <= j < 12 ==> YearLabels(today)[j] == MonthNames[(MonthIndex(today.date) + j + 1) % 12]
  {
    forall j | 0 <= j < 12 ensures YearLabels(today)[j] == MonthNames[(MonthIndex(today.date) + j + 1) % 12] {
      YearLabelIsMonth(today, j);
    }
  }

  // ---------------------------------------------------------------------------------
  // Buckets

  /** Where a fixed frame's chart begins: 6 or 29 days, or 11 months, before `today`. */
  function FixedStart(frame: TimeFrame, today: DateTime): DateTime
    requires frame != All
  {
    match frame
    case Week => SubDays(today, 6)
    case Month => SubDays(today, 29)
    case Year => SubMonths(today, 11)
  }

  function FixedSize(frame: TimeFrame): nat
    requires frame != All
  {
    match frame
    case Week => 7
    case Month => 30
    case Year => 12
  }

  function FixedLabels(frame: TimeFrame, today: DateTime): seq<string>
    requires frame != All
  {
    match frame
    case Week => WeekLabels(today)
    case Month => MonthLabels(today)
    case Year => YearLabels(today)
  }

  /** The frame, window and bucket count a chart fills. */
  datatype Layout = Layout(frame: TimeFrame, start: DateTime, today: DateTime, groupSize: int, size: nat)

  predicate Windowed(l: Layout, t: DateTime) {
    Instant(l.start) <= Instant(t) <= Instant(l.today)
  }

  /** The bucket a date falls in: counted back from today for the fixed frames, forward from the start for `all`. */
  function BucketIndex(l: Layout, t: DateTime): int
    requires l.groupSize >= 1
  {
    match l.frame
    case Week => 6 - (Instant(l.today) - Instant(t)) / DayMs
    case Month => 29 - (Instant(l.today) - Instant(t)) / DayMs
    case Year => 11 - (Instant(l.today) - Instant(t)) / (30 * DayMs)
    case All => (Instant(t) - Instant(l.start)) / (DayMs * l.groupSize)
  }

  /** A record lands in a bucket iff its date is in the window and its index is in bounds. */
  predicate Counted(l: Layout, c: Completion)
    requires l.groupSize >= 1
  {
    var t := Parse(c.date);
    Windowed(l, t) && 0 <= BucketIndex(l, t) < l.size
  }

  /** The buckets after the `forEach` over the records. */
  function Bucketed(l: Layout, cs: seq<Completion>, w: Weighting): (data: seq<int>)
    requires l.groupSize >= 1
    ensures |data| == l.size
  {
    if cs == [] then Zeros(l.size)
    else BucketStep(l, Bucketed(l, cs[..|cs| - 1], w), cs[|cs| - 1], w)
  }

  /** One record's effect on the buckets: its weight added to its bucket, or nothing. */
  function BucketStep(l: Layout, data: seq<int>, c: Completion, w: Weighting): (r: seq<int>)
    requires l.groupSize >= 1 && |data| == l.size
    ensures |r| == l.size
  {
    if Counted(l, c) then AddAt(data, BucketIndex(l, Parse(c.date)), Weight(w, c)) else data
  }

  lemma BucketedPrefix(l: Layout, cs: seq<Completion>, i: int, w: Weighting)
    requires l.groupSize >= 1 && 0 <= i < |cs|
    ensures Bucketed(l, cs[..i + 1], w) == BucketStep(l, Bucketed(l, cs[..i], w), cs[i], w)
  {
    assert cs[..i + 1][..i] == cs[..i];
  }

  /** The total weight of the records dated inside the window. */
  function WindowWeight(l: Layout, cs: seq<Completion>, w: Weighting): int {
    if cs == [] then 0
    else
      var c := cs[|cs| - 1];
      WindowWeight(l, cs[..|cs| - 1], w) + if Windowed(l, Parse(c.date)) then Weight(w, c) else 0
  }

  /**
   * Every windowed record adds its weight to one bucket when its index is in bounds
   * and is dropped otherwise: with non-negative weights the buckets hold at most the
   * window's weight, and exactly that when no windowed record is out of bounds.
   */
  lemma {:induction false} BucketsAccountForWindow(l: Layout, cs: seq<Completion>, w: Weighting)
    requires l.groupSize >= 1
    ensures (forall i :: 0 <= i < |cs| ==> Weight(w, cs[i]) >= 0) ==> Sum(Bucketed(l, cs, w)) <= WindowWeight(l, cs, w)
    ensures (forall i :: 0 <= i < |cs| && Windowed(l, Parse(cs[i].date)) ==> Counted(l, cs[i])) ==>
      Sum(Bucketed(l, cs, w)) == WindowWeight(l, cs, w)
    decreases |cs|
  {
    if cs != [] {
      var front := cs[..|cs| - 1];
      BucketsAccountForWindow(l, front, w);
      var c := cs[|cs| - 1];
      if Counted(l, c) {
        SumAddAt(Bucketed(l, front, w), BucketIndex(l, Parse(c.date)), Weight(w, c));
      }
      assert forall i :: 0 <= i < |front| ==> front[i] == cs[i];
    }
  }

  /** Week, month and year: every date in the window gets an index in bounds. */
  lemma FixedFrameIndexInBounds(frame: TimeFrame, today: DateTime, t: DateTime)
    requires frame != All
    requires var l := Layout(frame, FixedStart(frame, today), today, 1, FixedSize(frame)); Windowed(l, t)
    ensures var l := Layout(frame, FixedStart(frame, today), today, 1, FixedSize(frame));
      0 <= BucketIndex(l, t) < FixedSize(frame)
  {
    if frame == Year {
      YearIndexInBounds(today, t);
    }
  }

  /**
   * Year: the window opens eleven months back, at most 337 days, so every date in it
   * is fewer than twelve 30-day periods before today and gets one of the 12 buckets.
   */
  lemma YearIndexInBounds(today: DateTime, t: DateTime)
    requires Windowed(Layout(Year, FixedStart(Year, today), today, 1, 12), t)
    ensures 0 <= BucketIndex(Layout(Year, FixedStart(Year, today), today, 1, 12), t) < 12
  {
    var start := SubMonths(today, 11);
    ElevenMonthsSpan(today.date);
    var days := DayNumber(today.date) - DayNumber(start.date);
    assert Instant(today) - Instant(start) == days * DayMs;
    MulLe(days, 337, DayMs);
    var diff := Instant(today) - Instant(t);
    assert 0 <= diff < 12 * (30 * DayMs);
    DivBelow(diff, 30 * DayMs, 12);
  }

  /** The layout of the `all` chart from its start to its end, when the bucket count is not negative. */
  function AllLayout(start: DateTime, today: DateTime): Layout
    requires NumGroups(TotalDays(start, today)) >= 0
  {
    var td := TotalDays(start, today);
    Layout(All, start, today, GroupSize(td), NumGroups(td))
  }

  /** `all`: a date in the window and before the end always gets an index in bounds. */
  lemma AllIndexInBounds(start: DateTime, today: DateTime, t: DateTime)
    requires NumGroups(TotalDays(start, today)) >= 0
    requires Windowed(AllLayout(start, today), t) && Instant(t) < Instant(today)
    ensures 0 <= BucketIndex(AllLayout(start, today), t) < NumGroups(TotalDays(start, today))
  {
    AllBucketIndex(start, today, t);
    GroupIndexBound(Instant(t) - Instant(start), Instant(today) - Instant(start));
  }

  lemma AllBucketIndex(start: DateTime, today: DateTime, t: DateTime)
    requires NumGroups(TotalDays(start, today)) >= 0
    ensures BucketIndex(AllLayout(start, today), t)
      == (Instant(t) - Instant(start)) / (DayMs * GroupSize(CeilDiv(Instant(today) - Instant(start), DayMs)))
  {
  }

  /** An offset below the span falls in one of the `ceil(totalDays / groupSize)` groups. */
  lemma GroupIndexBound(diff: int, span: int)
    requires 0 <= diff < span
    ensures var td := CeilDiv(span, DayMs);
      0 <= diff / (DayMs * GroupSize(td)) < NumGroups(td)
  {
    var td := CeilDiv(span, DayMs);
    var g, n := GroupSize(td), NumGroups(td);
    CeilDivBounds(span, DayMs);
    NumGroupsCoversSpan(td);
    MulLe(td, n * g, DayMs);
    assert n * g * DayMs == n * (DayMs * g);
    DivBelow(diff, DayMs * g, n);
  }

  lemma MulLe(a: int, b: int, c: int)
    requires a <= b && c >= 0
    ensures a * c <= b * c
  {
  }

  lemma DivBelow(x: int, d: int, n: int)
    requires d > 0 && 0 <= x < n * d
    ensures x / d < n
  {
    assert (x / d) * d <= x;
  }

  // ---------------------------------------------------------------------------------
  // Whole charts

  function Finish(raw: seq<int>, cumulative: bool): seq<int> {
    if cumulative then PrefixSums(raw) else raw
  }

  /**
   * A chart for a frame: the fixed frames start 6 days, 29 days or 11 months before
   * `today`; `all` runs from `allStart` to `today` in 1/7/30/90-day groups.
   */
  function ChartFor(frame: TimeFrame, allStart: DateTime, today: DateTime, cs: seq<Completion>,
                    w: Weighting, cumulative: bool): ChartResult
  {
    if frame == All then
      var td := TotalDays(allStart, today);
      var n := NumGroups(td);
      if n < 0 then RangeError
      else
        var l := AllLayout(allStart, today);
        Chart(ChartData(SparseLabels(allStart, n, GroupSize(td), GroupPattern(td)), Finish(Bucketed(l, cs, w), cumulative)))
    else
      var l := Layout(frame, FixedStart(frame, today), today, 1, FixedSize(frame));
      Chart(ChartData(FixedLabels(frame, today), Finish(Bucketed(l, cs, w), cumulative)))
  }

  /**
   * Labels and data always have the same length: 7, 30 and 12 for the fixed frames and
   * `ceil(totalDays / groupSize)` for `all`; the only failure is an `all` chart whose
   * start is at least a day after its end.
   */
  lemma ChartShape(frame: TimeFrame, allStart: DateTime, today: DateTime, cs: seq<Completion>, w: Weighting, cumulative: bool)
    ensures var r := ChartFor(frame, allStart, today, cs, w, cumulative);
      && (r.RangeError? <==> frame == All && Instant(allStart) >= Instant(today) + DayMs)
      && (r.Chart? ==> |r.chart.labels| == |r.chart.data|)
      && (r.Chart? && frame != All ==> |r.chart.data| == FixedSize(frame))
      && (r.Chart? && frame == All ==> |r.chart.data| == NumGroups(TotalDays(allStart, today)))
  {
    var td := TotalDays(allStart, today);
    NumGroupsCoversSpan(td);
    CeilDivBounds(Instant(today) - Instant(allStart), DayMs);
    if frame == All && NumGroups(td) >= 0 {
      SparseLabelsShown(allStart, NumGroups(td), GroupSize(td), GroupPattern(td));
    }
  }

  /**
   * Cumulative mode keeps the labels and replaces entry i by the sum of the plain
   * buckets through i: never decreasing for non-negative weights, ending at the total.
   */
  lemma CumulativeIsPrefixSum(frame: TimeFrame, allStart: DateTime, today: DateTime, cs: seq<Completion>, w: Weighting)
    ensures var plain, cum := ChartFor(frame, allStart, today, cs, w, false), ChartFor(frame, allStart, today, cs, w, true);
      && plain.Chart? == cum.Chart?
      && (plain.Chart? ==>
            && cum.chart.labels == plain.chart.labels
            && |cum.chart.data| == |plain.chart.data|
            && forall i :: 0 <= i < |plain.chart.data| ==> cum.chart.data[i] == Sum(plain.chart.data[..i + 1]))
  {
  }

  /** When every record is in the window, the window's weight is the whole list's. */
  lemma {:induction false} WindowWeightOfAll(l: Layout, cs: seq<Completion>)
    requires forall i :: 0 <= i < |cs| ==> Windowed(l, Parse(cs[i].date))
    ensures WindowWeight(l, cs, ByTimes) == SumTimes(cs)
    ensures WindowWeight(l, cs, ByRecord) == |cs|
    decreases |cs|
  {
    if cs != [] {
      var front := cs[..|cs| - 1];
      assert forall i :: 0 <= i < |front| ==> front[i] == cs[i];
      WindowWeightOfAll(l, front);
    }
  }

  /** Week, month and year: the plain chart's buckets hold exactly the weight of the records in the window. */
  lemma FixedChartCountsWindow(frame: TimeFrame, allStart: DateTime, today: DateTime, cs: seq<Completion>, w: Weighting)
    requires frame != All
    ensures var r := ChartFor(frame, allStart, today, cs, w, false);
      r.Chart? && Sum(r.chart.data) == WindowWeight(Layout(frame, FixedStart(frame, today), today, 1, FixedSize(frame)), cs, w)
  {
    var l := Layout(frame, FixedStart(frame, today), today, 1, FixedSize(frame));
    forall i | 0 <= i < |cs| && Windowed(l, Parse(cs[i].date)) ensures Counted(l, cs[i]) {
      FixedFrameIndexInBounds(frame, today, Parse(cs[i].date));
    }
    BucketsAccountForWindow(l, cs, w);
  }

  /**
   * `all`: when the chart starts no later than every record and every record is
   * strictly before its end, no record is dropped: the buckets hold all of them.
   */
  lemma AllChartCountsEveryRecord(allStart: DateTime, today: DateTime, cs: seq<Completion>, w: Weighting)
    requires Instant(allStart) <= Instant(today)
    requires forall i :: 0 <= i < |cs| ==> Instant(allStart) <= Instant(Parse(cs[i].date)) < Instant(today)
    ensures ChartFor(All, allStart, today, cs, w, false).Chart?
    ensures Sum(ChartFor(All, allStart, today, cs, w, false).chart.data) == WindowWeight(AllLayout(allStart, today), cs, w)
    ensures w == ByTimes ==> Sum(ChartFor(All, allStart, today, cs, w, false).chart.data) == SumTimes(cs)
    ensures w == ByRecord ==> Sum(ChartFor(All, allStart, today, cs, w, false).chart.data) == |cs|
  {
    var td := TotalDays(allStart, today);
    CeilDivBounds(Instant(today) - Instant(allStart), DayMs);
    NumGroupsCoversSpan(td);
    assert NumGroups(td) >= 0;
    var l := AllLayout(allStart, today);
    assert ChartFor(All, allStart, today, cs, w, false).chart.data == Bucketed(l, cs, w);
    forall i | 0 <= i < |cs| && Windowed(l, Parse(cs[i].date)) ensures Counted(l, cs[i]) {
      AllIndexInBounds(allStart, today, Parse(cs[i].date));
    }
    BucketsAccountForWindow(l, cs, w);
    WindowWeightOfAll(l, cs);
  }

  /** Records all dated before today lie in the window from the earliest of them to today. */
  lemma EarliestWindow(cs: seq<Completion>, today: DateTime)
    requires cs != []
    requires forall i :: 0 <= i < |cs| ==> Instant(Parse(cs[i].date)) < Instant(today)
    ensures Instant(Earliest(cs)) <= Instant(today)
    ensures forall i :: 0 <= i < |cs| ==> Instant(Earliest(cs)) <= Instant(Parse(cs[i].date)) < Instant(today)
  {
    EarliestIsMinimum(Parse(cs[0].date), cs);
  }

  // ---------------------------------------------------------------------------------
  // Week columns: rolling 24-hour windows under calendar-day labels

  /**
   * As written, the week window starts at `now` minus 6 days and a record's column is
   * 6 minus the whole 24-hour periods since `now`.  A record from 11:00 yesterday,
   * seen at 10:00 today, lands in the column labelled with today's weekday.
   */
  lemma WeekColumnMislabels(now: DateTime)
    requires now.msOfDay == 10 * HourMs
    ensures var t := Stamp(PrevDate(now.date), 11 * HourMs);
      var l := Layout(Week, FixedStart(Week, now), now, 1, 7);
      && Windowed(l, t)
      && BucketIndex(l, t) == 6
      && WeekLabels(now)[6] != Format(t.date, Weekday)
  {
    var t := Stamp(PrevDate(now.date), 11 * HourMs);
    assert Instant(now) - Instant(t) == DayMs - HourMs;
    WeekLabelIsWeekday(now, 6);
    DayOfWeekShift(now.date, t.date, -1);
    ModOffset(1, DayOfWeek(now.date) - 1);
  }

  /** As written, a record made at 09:00 six days ago, seen at 10:00 today, is outside the week window. */
  lemma WeekFirstDayCutShort(now: DateTime)
    requires now.msOfDay == 10 * HourMs
    ensures !Windowed(Layout(Week, FixedStart(Week, now), now, 1, 7), Stamp(SubDays(now, 6).date, 9 * HourMs))
  {
  }

  /** The week window as its labels describe it: from the start of the day six days ago. */
  function CalendarWeekStart(today: DateTime): DateTime {
    StartOfDay(SubDays(today, 6))
  }

  /** The column of the record's own calendar day: 6 for today, 0 for six days ago. */
  function CalendarDayColumn(today: DateTime, t: DateTime): int {
    6 - (DayNumber(today.date) - DayNumber(t.date))
  }

  /**
   * With the window starting at midnight six days ago and columns by calendar day,
   * every record of the last seven days up to `now` has a column, and that column's
   * label is the record's own weekday.
   */
  lemma CalendarWeekColumnMatchesLabel(today: DateTime, t: DateTime)
    requires Instant(CalendarWeekStart(today)) <= Instant(t) <= Instant(today)
    ensures 0 <= CalendarDayColumn(today, t) < 7
    ensures WeekLabels(today)[CalendarDayColumn(today, t)] == Format(t.date, Weekday)
  {
    var start := CalendarWeekStart(today);
    InstantOrder(start, t);
    InstantOrder(t, today);
    var j := CalendarDayColumn(today, t);
    WeekLabelIsWeekday(today, j);
    DayOfWeekShift(today.date, t.date, j - 6);
    ModOffset(-1, DayOfWeek(today.date) + j + 1);
  }

  // ---------------------------------------------------------------------------------
  // Completion patterns

  datatype Patterns = Patterns(dayOfWeekData: seq<int>, hourOfDayData: seq<int>)

  /** The hour comes from `completedAt` (`setHours`), or from the parsed `date` itself. */
  datatype HourSource = FromCompletedAt | FromDate

  /** The date filter applied: none, or `from <= date <= to`. */
  datatype Window = Unbounded | Between(from: DateTime, to: DateTime)

  function Moment(c: Completion, h: HourSource): DateTime {
    if h == FromCompletedAt then SetHours(Parse(c.date), HourOf(c.completedAt)) else Parse(c.date)
  }

  predicate Admits(win: Window, t: DateTime) {
    win.Unbounded? || Instant(win.from) <= Instant(t) <= Instant(win.to)
  }

  /** Seven weekday and 24 hour slots, each admitted record adding `timesCompleted` to one of each. */
  function PatternsOf(cs: seq<Completion>, win: Window, h: HourSource): (p: Patterns)
    ensures |p.dayOfWeekData| == 7 && |p.hourOfDayData| == 24
  {
    if cs == [] then Patterns(Zeros(7), Zeros(24))
    else PatternStep(PatternsOf(cs[..|cs| - 1], win, h), cs[|cs| - 1], win, h)
  }

  /** One admitted record adds its `timesCompleted` to its weekday slot and its hour slot. */
  function PatternStep(p: Patterns, c: Completion, win: Window, h: HourSource): (r: Patterns)
    requires |p.dayOfWeekData| == 7 && |p.hourOfDayData| == 24
    ensures |r.dayOfWeekData| == 7 && |r.hourOfDayData| == 24
  {
    var t := Moment(c, h);
    if Admits(win, t) then
      Patterns(AddAt(p.dayOfWeekData, DayOfWeek(t.date), c.timesCompleted),
               AddAt(p.hourOfDayData, HourOf(t), c.timesCompleted))
    else p
  }

  lemma PatternsPrefix(cs: seq<Completion>, i: int, win: Window, h: HourSource)
    requires 0 <= i < |cs|
    ensures PatternsOf(cs[..i + 1], win, h) == PatternStep(PatternsOf(cs[..i], win, h), cs[i], win, h)
  {
    assert cs[..i + 1][..i] == cs[..i];
  }

  /** The `timesCompleted` total of the admitted records. */
  function AdmittedTimes(cs: seq<Completion>, win: Window, h: HourSource): int {
    if cs == [] then 0
    else
      var c := cs[|cs| - 1];
      AdmittedTimes(cs[..|cs| - 1], win, h) + if Admits(win, Moment(c, h)) then c.timesCompleted else 0
  }

  /** Both pattern arrays sum to the admitted records' `timesCompleted`; with no filter, to all of it. */
  lemma {:induction false} PatternTotals(cs: seq<Completion>, win: Window, h: HourSource)
    ensures Sum(PatternsOf(cs, win, h).dayOfWeekData) == AdmittedTimes(cs, win, h)
    ensures Sum(PatternsOf(cs, win, h).hourOfDayData) == AdmittedTimes(cs, win, h)
    ensures win.Unbounded? ==> AdmittedTimes(cs, win, h) == SumTimes(cs)
    decreases |cs|
  {
    if cs != [] {
      var front := cs[..|cs| - 1];
      PatternTotals(front, win, h);
      var p := PatternsOf(front, win, h);
      var c := cs[|cs| - 1];
      var t := Moment(c, h);
      if Admits(win, t) {
        SumAddAt(p.dayOfWeekData, DayOfWeek(t.date), c.timesCompleted);
        SumAddAt(p.hourOfDayData, HourOf(t), c.timesCompleted);
      }
    }
  }
}
