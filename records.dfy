/**
 * The records of the application (`app/types/index.ts`): tasks, their completion
 * records and their derived statistics.
 *
 * Every instant the source keeps as an ISO string (`createdAt`, `updatedAt`,
 * `completedAt`) is the local date-time it was printed from; a completion's `date`
 * keeps the two shapes its text takes (see DateText.DateField).  The statistics carry
 * the optional `streakStatus` and `lastStreak` that the screens read and the
 * aggregation writes; `undefined` and `null` are both `None`, since every reader
 * treats them alike.
 */
module Records {
  import opened Wrappers
  import opened Calendar
  import opened DateText

  datatype Completion = Completion(
    id: string,
    taskId: string,
    date: DateField,
    completedAt: DateTime,
    timesCompleted: int)

  datatype StreakStatus = UpToDate | Expiring | Expired | NeverStarted

  datatype TaskStats = TaskStats(
    currentStreak: int,
    bestStreak: int,
    totalCompletions: int,
    completionRate: real,
    lastCompleted: Option<DateField>,
    lastStreak: Option<int>,
    streakStatus: Option<StreakStatus>)

  datatype Task = Task(
    id: string,
    name: string,
    icon: string,
    color: string,
    daysOfWeek: seq<int>,
    timesPerDay: int,
    duration: int,
    createdAt: DateTime,
    updatedAt: DateTime,
    stats: Option<TaskStats>,
    completions: Option<seq<Completion>>)

  /** The fields of a new task before it gets an id and timestamps (`Omit<Task, ...>`). */
  datatype TaskDraft = TaskDraft(
    name: string,
    icon: string,
    color: string,
    daysOfWeek: seq<int>,
    timesPerDay: int,
    duration: int,
    stats: Option<TaskStats>,
    completions: Option<seq<Completion>>)

  /** The instant a completion's `date` parses to. */
  function Key(c: Completion): int {
    Instant(Parse(c.date))
  }

  /** `task.completions || []`. */
  function CompletionsOf(t: Task): seq<Completion> {
    t.completions.GetOr([])
  }

  /** `completions.reduce((sum, c) => sum + c.timesCompleted, 0)`. */
  function SumTimes(cs: seq<Completion>): int {
    if cs == [] then 0 else SumTimes(cs[..|cs| - 1]) + cs[|cs| - 1].timesCompleted
  }

  lemma {:induction false} SumTimesConcat(a: seq<Completion>, b: seq<Completion>)
    ensures SumTimes(a + b) == SumTimes(a) + SumTimes(b)
    decreases |b|
  {
    if b == [] {
      assert a + b == a;
    } else {
      assert (a + b)[..|a + b| - 1] == a + b[..|b| - 1];
      SumTimesConcat(a, b[..|b| - 1]);
    }
  }

  /** Every completion of every task, task by task (`tasks.flatMap(t => t.completions || [])`). */
  function AllCompletions(tasks: seq<Task>): (r: seq<Completion>)
    ensures forall t, c :: t in tasks && c in CompletionsOf(t) ==> c in r
    ensures forall c :: c in r ==> exists t :: t in tasks && c in CompletionsOf(t)
  {
    if tasks == [] then [] else
      var front := tasks[..|tasks| - 1];
      assert tasks == front + [tasks[|tasks| - 1]];
      AllCompletions(front) + CompletionsOf(tasks[|tasks| - 1])
  }
}
