/**
 * The task store and the per-task statistics (`app/context/TaskContext.tsx`).
 *
 * `calculateTaskStats` sorts a task's completion records by the instant their `date`
 * parses to and scans neighbouring pairs: a pair exactly one day (86 400 000 ms) apart
 * extends the running streak, any other gap resets it.  `bestStreak` is the largest
 * running value (a run of k records scores k - 1) and `currentStreak` is the trailing
 * run's record count, but only when the last record's `date` text equals today's
 * `yyyy-MM-dd`.  The store's operations are list transforms of the `tasks` state;
 * the clock (`new Date()`, `Date.now()`) is the parameter `now`.
 */
module TaskContext {
  import opened Wrappers
  import opened Calendar
  import opened DateText
  import opened Records
  import opened Sorting
  import opened Runs

  // ---------------------------------------------------------------------------------
  // The statistics of one task

  /** `[...completions].sort((a, b) => time(a) - time(b))`: oldest first, ties in their original order. */
  function SortByDate(cs: seq<Completion>): (r: seq<Completion>)
    ensures multiset(r) == multiset(cs)
    ensures forall i, j :: 0 <= i < j < |r| ==> Key(r[i]) <= Key(r[j])
  {
    SortBy(cs, Key)
  }

  /** The instants the records' dates parse to, in list order. */
  function Keys(s: seq<Completion>): (k: seq<int>)
    ensures |k| == |s|
  {
    if s == [] then [] else Keys(s[..|s| - 1]) + [Key(s[|s| - 1])]
  }

  lemma {:induction false} KeyAt(s: seq<Completion>, i: int)
    requires 0 <= i < |s|
    ensures Keys(s)[i] == Key(s[i])
    decreases |s|
  {
    if i < |s| - 1 {
      KeyAt(s[..|s| - 1], i);
    }
  }

  /** `Math.round(totalCompletions / (taskCount * 7) * 100)` in exact arithmetic. */
  function RoundedRate(total: int, taskCount: int): int
    requires taskCount >= 1
  {
    (200 * total + 7 * taskCount) / (14 * taskCount)
  }

  /** The streak of a date-sorted list: the trailing run's record count if the last record is dated today. */
  function CurrentStreakOf(sorted: seq<Completion>, now: DateTime): int {
    if sorted != [] && Text(sorted[|sorted| - 1].date) == IsoDate(now.date) then
      TrailingRun(Steps(Keys(sorted))) + 1
    else 0
  }

  /** The largest `tempStreak` value of the scan over a date-sorted list. */
  function BestStreakOf(sorted: seq<Completion>): int {
    LongestRun(Steps(Keys(sorted)))
  }

  /** What `calculateTaskStats(completions)` returns when `tasks` has taskCount entries. */
  function StatsOf(completions: seq<Completion>, now: DateTime, taskCount: int): TaskStats
    requires taskCount >= 1
  {
    var sorted := SortByDate(completions);
    var total := SumTimes(completions);
    TaskStats(
      currentStreak := CurrentStreakOf(sorted, now),
      bestStreak := BestStreakOf(sorted),
      totalCompletions := total,
      completionRate := RoundedRate(total, taskCount) as real,
      lastCompleted := if sorted == [] then None else Some(sorted[|sorted| - 1].date),
      lastStreak := None,
      streakStatus := None)
  }

  /**
   * The loop of `calculateTaskStats` over the sorted records: `tempStreak` counts the
   * one-day steps since the last other gap and `bestStreak` keeps its largest value.
   */
  method ScanStreaks(sorted: seq<Completion>) returns (tempStreak: int, bestStreak: int)
    ensures tempStreak == TrailingRun(Steps(Keys(sorted)))
    ensures bestStreak == BestStreakOf(sorted)
  {
    bestStreak, tempStreak := 0, 0;
    ghost var steps := Steps(Keys(sorted));
    var i := 0;
    while i < |sorted|
      invariant 0 <= i <= |sorted|
      invariant tempStreak == TrailingRun(steps[..Min(i, |steps|)])
      invariant bestStreak == LongestRun(steps[..Min(i, |steps|)])
    {
      if i + 1 < |sorted| {
        assert steps[..i + 1][..i] == steps[..i];
        KeyAt(sorted, i);
        KeyAt(sorted, i + 1);
        var dayDiff := Key(sorted[i + 1]) - Key(sorted[i]);
        if dayDiff == DayMs {
          tempStreak := tempStreak + 1;
          if tempStreak > bestStreak {
            bestStreak := tempStreak;
          }
        } else {
          tempStreak := 0;
        }
      }
      i := i + 1;
    }
    assert steps[..|steps|] == steps;
  }

  /** `calculateTaskStats`: sort, scan, then read the streak, total, rate and last date off. */
  method CalculateTaskStats(completions: seq<Completion>, now: DateTime, taskCount: int)
    returns (stats: TaskStats)
    requires taskCount >= 1
    ensures stats == StatsOf(completions, now, taskCount)
  {
    var sorted := SortByDate(completions);
    var today := IsoDate(now.date);
    var tempStreak, bestStreak := ScanStreaks(sorted);
    var currentStreak := 0;
    var lastCompleted: Option<DateField> := None;
    if |sorted| > 0 {
      lastCompleted := Some(sorted[|sorted| - 1].date);
      if Text(sorted[|sorted| - 1].date) == today {
        currentStreak := tempStreak + 1;
      }
    }
    assert currentStreak == CurrentStreakOf(sorted, now);
    var totalCompletions := SumTimes(completions);
    stats := TaskStats(currentStreak, bestStreak, totalCompletions,
      RoundedRate(totalCompletions, taskCount) as real, lastCompleted, None, None);
  }

  /** Records lo .. lo + len of a list, each exactly one day after the one before. */
  ghost predicate ConsecutiveDays(s: seq<Completion>, lo: int, len: int) {
    var keys := Keys(s);
    0 <= lo && 0 <= len && lo + len < |s| && forall k :: lo <= k < lo + len ==> keys[k + 1] - keys[k] == DayMs
  }

  /**
   * On a list in date order, `bestStreak` is one less than the record count of a
   * longest run of consecutive days (0 for an empty list); a repeated date breaks a run.
   */
  lemma BestStreakIsLongestRun(s: seq<Completion>)
    ensures s != [] ==> exists lo :: ConsecutiveDays(s, lo, BestStreakOf(s))
    ensures forall lo, len :: ConsecutiveDays(s, lo, len) ==> len <= BestStreakOf(s)
    ensures |s| <= 1 ==> BestStreakOf(s) == 0
  {
    var b := Steps(Keys(s));
    LongestRunIsMaximum(b);
    var best := LongestRun(b);
    if s != [] {
      var lo :| RunAt(b, lo, best);
      assert ConsecutiveDays(s, lo, BestStreakOf(s));
    }
    forall lo, len | ConsecutiveDays(s, lo, len) ensures len <= best {
      assert RunAt(b, lo, len);
    }
  }

  /**
   * On a list in date order, `currentStreak` is positive exactly when the last record's
   * text is today's date; it then counts the records of the run of consecutive days
   * that ends the list, the record before that run (if any) is not one day earlier,
   * and it is at most `bestStreak + 1`.
   */
  lemma CurrentStreakIsTrailingRun(s: seq<Completion>, now: DateTime)
    ensures CurrentStreakOf(s, now) > 0 <==> s != [] && Text(s[|s| - 1].date) == IsoDate(now.date)
    ensures var cur := CurrentStreakOf(s, now);
      && (cur > 0 ==> ConsecutiveDays(s, |s| - cur, cur - 1))
      && (0 < cur < |s| ==> !ConsecutiveDays(s, |s| - 1 - cur, cur))
      && cur <= BestStreakOf(s) + 1
  {
    var b := Steps(Keys(s));
    TrailingRunIsMaximal(b);
    TrailingWithinLongest(b);
    var cur := CurrentStreakOf(s, now);
    if cur > 0 {
      assert RunAt(b, |b| - TrailingRun(b), TrailingRun(b));
      assert ConsecutiveDays(s, |s| - cur, cur - 1);
      if cur < |s| {
        assert !b[|b| - 1 - TrailingRun(b)];
      }
    }
  }

  /**
   * The rate r is `Math.round` of the percentage 100 * total / (7 * taskCount): with
   * both sides multiplied by 14 * taskCount, r - 1/2 <= percentage < r + 1/2.  With
   * seven completions per task the rate is 100.
   */
  lemma RateIsRoundedPercentage(total: int, taskCount: int)
    requires taskCount >= 1
    ensures var r, n := RoundedRate(total, taskCount), 7 * taskCount;
      2 * r * n - n <= 200 * total < 2 * r * n + n
    ensures total == 7 * taskCount ==> RoundedRate(total, taskCount) == 100
  {
    var n := 7 * taskCount;
    var q := RoundedRate(total, taskCount);
    var m := 200 * total + n;
    assert m == q * (2 * n) + m % (2 * n);
    assert 2 * q * n == q * (2 * n);
    if total == 7 * taskCount {
      DivisionUnique(m, 2 * n, 100, n);
    }
  }

  lemma DivisionUnique(m: int, d: int, q: int, r: int)
    requires 0 <= r < d && m == q * d + r
    ensures m / d == q
  {
    var k := m / d - q;
    assert m == (m / d) * d + m % d;
    assert k * d == r - m % d;
    if k > 0 {
      MulAtLeast(k, d);
    } else if k < 0 {
      MulAtLeast(-k, d);
    }
  }

  lemma {:induction false} MulAtLeast(k: int, d: int)
    requires k >= 1 && d >= 0
    ensures k * d >= d
    decreases k
  {
    if k > 1 {
      MulAtLeast(k - 1, d);
      assert k * d == (k - 1) * d + d;
    }
  }

  /** The statistics' total sums `timesCompleted`, and the last completion is the latest one. */
  lemma TotalAndLast(completions: seq<Completion>, now: DateTime, taskCount: int)
    requires taskCount >= 1
    ensures StatsOf(completions, now, taskCount).totalCompletions == SumTimes(completions)
    ensures StatsOf(completions, now, taskCount).lastCompleted.None? <==> completions == []
    ensures StatsOf(completions, now, taskCount).lastCompleted.Some? ==>
      exists c :: c in completions && c.date == StatsOf(completions, now, taskCount).lastCompleted.value &&
        forall d :: d in completions ==> Key(d) <= Key(c)
  {
    if completions != [] {
      var c := LatestRecord(completions);
      assert StatsOf(completions, now, taskCount).lastCompleted.value == c.date;
    }
  }

  /** The last record of the sorted list: one of the records, with no later one. */
  function LatestRecord(completions: seq<Completion>): (c: Completion)
    requires completions != []
    ensures c in completions
    ensures forall d :: d in completions ==> Key(d) <= Key(c)
  {
    SortedLast(completions, Key);
    var s := SortByDate(completions);
    s[|s| - 1]
  }

  /**
   * Records dated on three consecutive days the last of which is today (2024-01-01, 02
   * and 03 with today 2024-01-03, say) give current streak 3 but best streak 2.
   */
  lemma ThreeDayScenario(now: DateTime, c1: Completion, c2: Completion, c3: Completion)
    requires c1.date.DateOnly? && c2.date == DateOnly(NextDate(c1.date.day))
    requires c3.date == DateOnly(NextDate(c2.date.day)) && now.date == c3.date.day
    ensures StatsOf([c1, c2, c3], now, 1).currentStreak == 3
    ensures StatsOf([c1, c2, c3], now, 1).bestStreak == 2
  {
    ScenarioSteps(c1, c2, c3);
    SortedUnchanged([c1, c2, c3], Key);
    TwoSteps();
  }

  lemma TwoSteps()
    ensures TrailingRun([true, true]) == 2 && LongestRun([true, true]) == 2
  {
    var b := [true, true];
    assert b[..1] == [true] && [true][..0] == [];
    assert TrailingRun([true]) == 1;
  }

  lemma ScenarioSteps(c1: Completion, c2: Completion, c3: Completion)
    requires c1.date.DateOnly? && c2.date == DateOnly(NextDate(c1.date.day))
    requires c3.date == DateOnly(NextDate(c2.date.day))
    ensures Steps(Keys([c1, c2, c3])) == [true, true]
    ensures SortedBy([c1, c2, c3], Key)
  {
    var n := DayNumber(c1.date.day);
    DayKey(c1, n);
    DayKey(c2, n + 1);
    DayKey(c3, n + 2);
    assert [c1, c2, c3][..2] == [c1, c2] && [c1, c2][..1] == [c1] && [c1][..0] == [];
    assert Keys([c1]) == [Key(c1)];
    assert Keys([c1, c2]) == [Key(c1), Key(c2)];
    var keys := Keys([c1, c2, c3]);
    assert keys == [Key(c1), Key(c2), Key(c3)];
    var b := Steps(keys);
    assert |b| == 2 && b[0] && b[1];
  }

  lemma DayKey(c: Completion, n: int)
    requires c.date.DateOnly? && DayNumber(c.date.day) == n
    ensures Key(c) == n * DayMs
  {
  }

  // ---------------------------------------------------------------------------------
  // The task list

  /** `tasks.find(t => t.id === id)`. */
  function FindTask(tasks: seq<Task>, id: string): (r: Option<Task>)
    ensures r.None? <==> forall i :: 0 <= i < |tasks| ==> tasks[i].id != id
    ensures r.Some? ==> r.value.id == id
    ensures r.Some? ==> exists i :: 0 <= i < |tasks| && tasks[i] == r.value && r.value.id == id &&
                                    forall j :: 0 <= j < i ==> tasks[j].id != id
  {
    if tasks == [] then None
    else if tasks[0].id == id then Some(tasks[0])
    else
      var r := FindTask(tasks[1..], id);
      if r.Some? then
        var i :| 0 <= i < |tasks[1..]| && tasks[1..][i] == r.value && r.value.id == id
          && forall j :: 0 <= j < i ==> tasks[1..][j].id != id;
        assert tasks[i + 1] == r.value;
        r
      else r
  }

  /** `addTask`: the new record gets `Date.now()` as its id and `now` as both timestamps. */
  function NewTask(draft: TaskDraft, now: DateTime): Task {
    Task(IntToString(Instant(now)), draft.name, draft.icon, draft.color, draft.daysOfWeek,
      draft.timesPerDay, draft.duration, now, now, draft.stats, draft.completions)
  }

  /** `tasks.map(t => t.id === task.id ? { ...task, updatedAt: now } : t)`. */
  function Updated(tasks: seq<Task>, task: Task, now: DateTime): (r: seq<Task>)
    ensures |r| == |tasks|
  {
    seq(|tasks|, i requires 0 <= i < |tasks| =>
      if tasks[i].id == task.id then task.(updatedAt := now) else tasks[i])
  }

  function Ids(tasks: seq<Task>): seq<string> {
    seq(|tasks|, i requires 0 <= i < |tasks| => tasks[i].id)
  }

  /**
   * `updateTask` keeps the length, the order and every id, changes only the entries
   * carrying the updated id, and applying it twice is applying it once.
   */
  lemma UpdateKeepsShape(tasks: seq<Task>, task: Task, now: DateTime)
    ensures Ids(Updated(tasks, task, now)) == Ids(tasks)
    ensures forall i :: 0 <= i < |tasks| && tasks[i].id != task.id ==> Updated(tasks, task, now)[i] == tasks[i]
    ensures forall i :: 0 <= i < |tasks| && tasks[i].id == task.id ==> Updated(tasks, task, now)[i] == task.(updatedAt := now)
    ensures Updated(Updated(tasks, task, now), task, now) == Updated(tasks, task, now)
  {
  }

  /** `tasks.filter(t => t.id !== id)`. */
  function Removed(tasks: seq<Task>, id: string): (r: seq<Task>)
    ensures forall t :: t in r <==> t in tasks && t.id != id
    ensures |r| <= |tasks|
  {
    if tasks == [] then []
    else
      var rest := Removed(tasks[1..], id);
      assert forall t :: t in tasks <==> t == tasks[0] || t in tasks[1..];
      if tasks[0].id == id then rest else [tasks[0]] + rest
  }

  /** `deleteTask` keeps the other tasks in their order. */
  lemma {:induction false} RemoveKeepsOrder(a: seq<Task>, b: seq<Task>, id: string)
    ensures Removed(a + b, id) == Removed(a, id) + Removed(b, id)
    decreases |a|
  {
    if a != [] {
      assert (a + b)[0] == a[0];
      assert (a + b)[1..] == a[1..] + b;
      RemoveKeepsOrder(a[1..], b, id);
    } else {
      assert a + b == b;
    }
  }

  /** Deleting an id no task carries changes nothing. */
  lemma {:induction false} RemoveAbsentUnchanged(a: seq<Task>, id: string)
    requires forall i :: 0 <= i < |a| ==> a[i].id != id
    ensures Removed(a, id) == a
    decreases |a|
  {
    if a != [] {
      assert forall i :: 0 <= i < |a[1..]| ==> a[1..][i] == a[i + 1];
      RemoveAbsentUnchanged(a[1..], id);
      assert a == [a[0]] + a[1..];
    }
  }

  /** The record `completeTask` appends. */
  function NewCompletion(taskId: string, date: DateTime, now: DateTime): (c: Completion)
    ensures c.taskId == taskId && c.timesCompleted == 1 && Text(c.date) == IsoTimestamp(date)
  {
    Completion(IntToString(Instant(now)), taskId, Timestamp(date), now, 1)
  }

  /** The task list after `completeTask(taskId, date)`. */
  function Completed(tasks: seq<Task>, taskId: string, date: DateTime, now: DateTime): seq<Task> {
    match FindTask(tasks, taskId)
    case None => tasks
    case Some(task) =>
      var cs := CompletionsOf(task) + [NewCompletion(taskId, date, now)];
      Updated(tasks, task.(completions := Some(cs), stats := Some(StatsOf(cs, now, |tasks|))), now)
  }

  /**
   * `completeTask` leaves the list alone for an unknown id; otherwise the first task
   * with that id gets exactly one more record (its id, `timesCompleted` 1, the
   * `toISOString()` of the date) and freshly computed statistics, and tasks with
   * other ids are untouched.
   */
  lemma CompleteAppendsOne(tasks: seq<Task>, taskId: string, date: DateTime, now: DateTime)
    ensures forall i :: FirstWithId(tasks, i, taskId) ==>
      var r, c := Completed(tasks, taskId, date, now)[i], NewCompletion(taskId, date, now);
      && r.id == taskId
      && r.completions == Some(CompletionsOf(tasks[i]) + [c])
      && r.stats == Some(StatsOf(CompletionsOf(tasks[i]) + [c], now, |tasks|))
      && c.taskId == taskId && c.timesCompleted == 1 && Text(c.date) == IsoTimestamp(date)
  {
    forall i | FirstWithId(tasks, i, taskId)
      ensures FindTask(tasks, taskId) == Some(tasks[i])
    {
      FindsFirstWithId(tasks, taskId, i);
    }
  }

  /** The other tasks are untouched, and an unknown id leaves the list as it was. */
  lemma CompleteKeepsOthers(tasks: seq<Task>, taskId: string, date: DateTime, now: DateTime)
    ensures (forall i :: 0 <= i < |tasks| ==> tasks[i].id != taskId) ==> Completed(tasks, taskId, date, now) == tasks
    ensures |Completed(tasks, taskId, date, now)| == |tasks|
    ensures forall i :: 0 <= i < |tasks| && tasks[i].id != taskId ==> Completed(tasks, taskId, date, now)[i] == tasks[i]
  {
  }

  /** `find` returns the first task carrying the id. */
  lemma FindsFirstWithId(tasks: seq<Task>, id: string, i: int)
    requires FirstWithId(tasks, i, id)
    ensures FindTask(tasks, id) == Some(tasks[i])
  {
    var r := FindTask(tasks, id);
    var k :| 0 <= k < |tasks| && tasks[k] == r.value && r.value.id == id && forall j :: 0 <= j < k ==> tasks[j].id != id;
    assert k == i;
  }

  /** `completions.filter(c => c.date !== text)`. */
  function WithoutText(cs: seq<Completion>, text: string): (r: seq<Completion>)
    ensures forall c :: c in r <==> c in cs && Text(c.date) != text
  {
    if cs == [] then []
    else
      var rest := WithoutText(cs[1..], text);
      assert forall c :: c in cs <==> c == cs[0] || c in cs[1..];
      if Text(cs[0].date) == text then rest else [cs[0]] + rest
  }

  /** Removing by text keeps the other records in their order. */
  lemma {:induction false} WithoutTextKeepsOrder(a: seq<Completion>, b: seq<Completion>, text: string)
    ensures WithoutText(a + b, text) == WithoutText(a, text) + WithoutText(b, text)
    decreases |a|
  {
    if a != [] {
      assert (a + b)[1..] == a[1..] + b;
      WithoutTextKeepsOrder(a[1..], b, text);
    } else {
      assert a + b == b;
    }
  }

  /** The task list after `uncompleteTask(taskId, date)`. */
  function Uncompleted(tasks: seq<Task>, taskId: string, date: DateTime, now: DateTime): seq<Task> {
    match FindTask(tasks, taskId)
    case None => tasks
    case Some(task) =>
      var cs := WithoutText(CompletionsOf(task), IsoTimestamp(date));
      Updated(tasks, task.(completions := Some(cs), stats := Some(StatsOf(cs, now, |tasks|))), now)
  }

  /**
   * `uncompleteTask` keeps the first task with the id under that id, removes exactly
   * its records whose `date` is the date's `toISOString()`, and recomputes its
   * statistics over the records that are left.
   */
  lemma UncompleteRemovesMatches(tasks: seq<Task>, taskId: string, date: DateTime, now: DateTime)
    ensures forall i :: FirstWithId(tasks, i, taskId) ==>
      var r := Uncompleted(tasks, taskId, date, now)[i];
      var kept := CompletionsOf(r);
      && r.id == taskId
      && r.completions == Some(kept)
      && r.stats == Some(StatsOf(kept, now, |tasks|))
      && (forall c :: c in kept <==> c in CompletionsOf(tasks[i]) && Text(c.date) != IsoTimestamp(date))
      && |kept| <= |CompletionsOf(tasks[i])|
  {
    forall i | FirstWithId(tasks, i, taskId)
      ensures FindTask(tasks, taskId) == Some(tasks[i])
      ensures |WithoutText(CompletionsOf(tasks[i]), IsoTimestamp(date))| <= |CompletionsOf(tasks[i])|
    {
      FindsFirstWithId(tasks, taskId, i);
      WithoutTextShorter(CompletionsOf(tasks[i]), IsoTimestamp(date));
    }
  }

  /** The other tasks are untouched, and an unknown id leaves the list as it was. */
  lemma UncompleteKeepsOthers(tasks: seq<Task>, taskId: string, date: DateTime, now: DateTime)
    ensures (forall i :: 0 <= i < |tasks| ==> tasks[i].id != taskId) ==> Uncompleted(tasks, taskId, date, now) == tasks
    ensures forall i :: 0 <= i < |tasks| && tasks[i].id != taskId ==> Uncompleted(tasks, taskId, date, now)[i] == tasks[i]
  {
  }

  lemma {:induction false} WithoutTextShorter(cs: seq<Completion>, text: string)
    ensures |WithoutText(cs, text)| <= |cs|
  {
    if cs != [] {
      WithoutTextShorter(cs[1..], text);
    }
  }

  // ---------------------------------------------------------------------------------
  // Two discrepancies between the statistics and their evident intent

  /** The first task in the list carrying the id, the one `tasks.find` returns. */
  ghost predicate FirstWithId(tasks: seq<Task>, i: int, id: string) {
    0 <= i < |tasks| && tasks[i].id == id && forall j :: 0 <= j < i ==> tasks[j].id != id
  }

  /**
   * As written, `bestStreak` scores a run of k consecutive days as k - 1 while
   * `currentStreak` scores the trailing run as k: a single record dated today already
   * gives current streak 1 over best streak 0.
   */
  lemma CurrentExceedsBest(now: DateTime, c: Completion, taskCount: int)
    requires taskCount >= 1 && c.date == DateOnly(now.date)
    ensures StatsOf([c], now, taskCount).currentStreak == 1
    ensures StatsOf([c], now, taskCount).bestStreak == 0
  {
    assert [c][..0] == [];
    assert SortBy([c], Key) == [c];
    assert Keys([c]) == [Key(c)];
  }

  /** The evidently intended best streak: the record count of a longest run of consecutive days. */
  function RecordsInLongestRun(sorted: seq<Completion>): int {
    if sorted == [] then 0 else BestStreakOf(sorted) + 1
  }

  /** The intended best streak is the size of a longest run of records and is never below the current streak. */
  lemma IntendedBestCoversCurrent(s: seq<Completion>, now: DateTime)
    ensures CurrentStreakOf(s, now) <= RecordsInLongestRun(s)
    ensures s != [] ==> exists lo :: RunOfRecords(s, lo, RecordsInLongestRun(s))
    ensures forall lo, count :: RunOfRecords(s, lo, count) ==> count <= RecordsInLongestRun(s)
  {
    CurrentStreakIsTrailingRun(s, now);
    BestStreakIsLongestRun(s);
    if s != [] {
      var lo :| ConsecutiveDays(s, lo, BestStreakOf(s));
      assert RunOfRecords(s, lo, RecordsInLongestRun(s));
    }
  }

  /** count records from index lo on, each one day after the one before. */
  ghost predicate RunOfRecords(s: seq<Completion>, lo: int, count: int) {
    count >= 1 && ConsecutiveDays(s, lo, count - 1)
  }

  /**
   * As written, `completeTask` stores the `toISOString()` timestamp of the date while
   * `calculateTaskStats` compares the latest record's text with the bare `yyyy-MM-dd`
   * of today: when the records are timestamps, as the app's own completions are, the
   * current streak stays 0 even right after completing the task today.
   */
  lemma CompletingNeverStartsStreak(tasks: seq<Task>, i: int, taskId: string, date: DateTime, now: DateTime)
    requires FirstWithId(tasks, i, taskId)
    requires forall c :: c in CompletionsOf(tasks[i]) ==> c.date.Timestamp?
    ensures Completed(tasks, taskId, date, now)[i].stats.Some?
    ensures Completed(tasks, taskId, date, now)[i].stats.value.currentStreak == 0
  {
    FindsFirstWithId(tasks, taskId, i);
    TimestampsNeverToday(CompletionsOf(tasks[i]) + [NewCompletion(taskId, date, now)], now);
  }

  lemma TimestampsNeverToday(cs: seq<Completion>, now: DateTime)
    requires forall c :: c in cs ==> c.date.Timestamp?
    ensures CurrentStreakOf(SortByDate(cs), now) == 0
  {
    if cs != [] {
      SortedLast(cs, Key);
      var s := SortByDate(cs);
      assert s[|s| - 1] in cs;
      assert 'T' in Text(s[|s| - 1].date) && 'T' !in IsoDate(now.date);
    }
  }

  /** The record the corrected `completeTask` appends: dated by its day, as the calendar screens compare. */
  function DayCompletion(taskId: string, date: DateTime, now: DateTime): Completion {
    Completion(IntToString(Instant(now)), taskId, DateOnly(date.date), now, 1)
  }

  /** The corrected `completeTask`. */
  function CompletedByDay(tasks: seq<Task>, taskId: string, date: DateTime, now: DateTime): seq<Task> {
    match FindTask(tasks, taskId)
    case None => tasks
    case Some(task) =>
      var cs := CompletionsOf(task) + [DayCompletion(taskId, date, now)];
      Updated(tasks, task.(completions := Some(cs), stats := Some(StatsOf(cs, now, |tasks|))), now)
  }

  /**
   * With day-dated records, completing a task today starts (or extends) its current
   * streak, provided no record is dated after today.
   */
  lemma CompletingTodayStartsStreak(tasks: seq<Task>, i: int, taskId: string, now: DateTime)
    requires FirstWithId(tasks, i, taskId)
    requires forall c :: c in CompletionsOf(tasks[i]) ==>
      c.date.DateOnly? && DayNumber(c.date.day) <= DayNumber(now.date)
    ensures CompletedByDay(tasks, taskId, now, now)[i].stats.Some?
    ensures CompletedByDay(tasks, taskId, now, now)[i].stats.value.currentStreak >= 1
  {
    FindsFirstWithId(tasks, taskId, i);
    DayRecordEndsToday(CompletionsOf(tasks[i]), DayCompletion(taskId, now, now), now);
  }

  lemma DayRecordEndsToday(cs: seq<Completion>, added: Completion, now: DateTime)
    requires forall c :: c in cs ==> c.date.DateOnly? && DayNumber(c.date.day) <= DayNumber(now.date)
    requires added.date == DateOnly(now.date)
    ensures CurrentStreakOf(SortByDate(cs + [added]), now) >= 1
  {
    var all := cs + [added];
    SortedLast(all, Key);
    var s := SortByDate(all);
    var last := s[|s| - 1];
    assert last in all && Key(added) <= Key(last);
    assert last.date.DateOnly? && DayNumber(last.date.day) <= DayNumber(now.date);
    DayKey(added, DayNumber(now.date));
    DayKey(last, DayNumber(last.date.day));
    DayNumberOrder(last.date.day, now.date);
  }

  /** All-zero statistics (`getTaskStats` for a missing task or one without records). */
  const ZeroStats := TaskStats(0, 0, 0, 0.0, None, None, None)

  function StatsFor(tasks: seq<Task>, taskId: string, now: DateTime): TaskStats {
    match FindTask(tasks, taskId)
    case None => ZeroStats
    case Some(task) =>
      if task.completions.None? then ZeroStats else StatsOf(task.completions.value, now, |tasks|)
  }

  /** The `tasks` state of the provider and the operations that replace it. */
  class TaskStore {
    var tasks: seq<Task>

    constructor ()
      ensures tasks == []
    {
      tasks := [];
    }

    method AddTask(draft: TaskDraft, now: DateTime)
      modifies this
      ensures tasks == old(tasks) + [NewTask(draft, now)]
    {
      tasks := tasks + [NewTask(draft, now)];
    }

    method UpdateTask(task: Task, now: DateTime)
      modifies this
      ensures tasks == Updated(old(tasks), task, now)
    {
      tasks := Updated(tasks, task, now);
    }

    method DeleteTask(taskId: string)
      modifies this
      ensures tasks == Removed(old(tasks), taskId)
    {
      tasks := Removed(tasks, taskId);
    }

    method CompleteTask(taskId: string, date: DateTime, now: DateTime)
      modifies this
      ensures tasks == Completed(old(tasks), taskId, date, now)
    {
      var found := FindTask(tasks, taskId);
      if found.None? {
        return;
      }
      var task := found.value;
      var newCompletions := CompletionsOf(task) + [NewCompletion(taskId, date, now)];
      assert |tasks| >= 1;
      var stats := CalculateTaskStats(newCompletions, now, |tasks|);
      UpdateTask(task.(completions := Some(newCompletions), stats := Some(stats)), now);
    }

    method UncompleteTask(taskId: string, date: DateTime, now: DateTime)
      modifies this
      ensures tasks == Uncompleted(old(tasks), taskId, date, now)
    {
      var found := FindTask(tasks, taskId);
      if found.None? {
        return;
      }
      var task := found.value;
      var newCompletions := WithoutText(CompletionsOf(task), IsoTimestamp(date));
      var stats := CalculateTaskStats(newCompletions, now, |tasks|);
      UpdateTask(task.(completions := Some(newCompletions), stats := Some(stats)), now);
    }

    /** `getTaskStats`: zeros for a missing task or one without a completions array. */
    method GetTaskStats(taskId: string, now: DateTime) returns (stats: TaskStats)
      ensures stats == StatsFor(tasks, taskId, now)
      ensures (forall i :: 0 <= i < |tasks| ==> tasks[i].id != taskId) ==> stats == ZeroStats
    {
      var found := FindTask(tasks, taskId);
      if found.None? || found.value.completions.None? {
        return ZeroStats;
      }
      stats := CalculateTaskStats(found.value.completions.value, now, |tasks|);
    }
  }
}
