/**
 * The header of the task screens (`app/components/TaskHeader.tsx`): the streak badge
 * next to the task's name and which of the Calendar and Stats tabs is highlighted.
 * Its badge rule is written independently of the task card's, and the two disagree
 * on some statistics; the lemmas below say where.
 */
module TaskHeader {
  import opened Wrappers
  import opened Records
  import opened Strings
  import TaskCard
  import TaskContext

  /** What the header shows next to the name: a fire badge (maybe with a clock and a trophy), or a sleep badge. */
  datatype HeaderBadge = Streak(value: int, clock: bool, trophy: bool) | Resting(value: int)

  /**
   * The nested conditional: up to date or expiring with a positive current streak
   * shows the fire badge (expiring adds the clock), with a trophy iff the current
   * streak equals the best; otherwise a positive last streak shows the sleep badge.
   */
  function HeaderBadgeOf(stats: Option<TaskStats>): (b: Option<HeaderBadge>)
    ensures b.Some? && b.value.Streak? <==>
      TaskCard.CurrentOf(stats) > 0 && TaskCard.StatusOf(stats) in {Some(UpToDate), Some(Expiring)}
    ensures b.Some? && b.value.Streak? ==>
      && b.value.value == TaskCard.CurrentOf(stats)
      && (b.value.clock <==> TaskCard.StatusOf(stats) == Some(Expiring))
      && (b.value.trophy <==> TaskCard.CurrentOf(stats) == TaskCard.BestOf(stats))
    ensures b.Some? && b.value.Resting? ==> b.value.value == TaskCard.LastOf(stats) > 0
    ensures b.Some? ==> b.value.value > 0
  {
    if stats.Some? && stats.value.streakStatus == Some(UpToDate) && stats.value.currentStreak > 0 then
      Some(Streak(stats.value.currentStreak, false, stats.value.currentStreak == stats.value.bestStreak))
    else if stats.Some? && stats.value.streakStatus == Some(Expiring) && stats.value.currentStreak > 0 then
      Some(Streak(stats.value.currentStreak, true, stats.value.currentStreak == stats.value.bestStreak))
    else if stats.Some? && stats.value.lastStreak.Some? && stats.value.lastStreak.value != 0
            && stats.value.lastStreak.value > 0 then
      Some(Resting(stats.value.lastStreak.value))
    else None
  }

  /**
   * Up to date or expiring with a positive current streak, header and card agree:
   * both show the current streak, the clock exactly when expiring, and the trophy
   * exactly when the current streak is the best.
   */
  lemma HeaderAgreesWithCard(stats: Option<TaskStats>)
    requires TaskCard.CurrentOf(stats) > 0
    requires TaskCard.StatusOf(stats) == Some(UpToDate) || TaskCard.StatusOf(stats) == Some(Expiring)
    ensures var h, c := HeaderBadgeOf(stats), TaskCard.CardBadge(stats);
      && h.Some? && c.Some? && h.value.Streak?
      && h.value.value == c.value.value
      && h.value.trophy == c.value.showTrophy
      && (h.value.clock <==> c.value.icon == TaskCard.ClockOutline)
  {
  }

  /**
   * An expired status with a positive current streak: the card still shows that
   * streak with a clock, but the header falls through to the last streak, or shows
   * nothing.
   */
  lemma ExpiredStreakDisagrees(stats: Option<TaskStats>)
    requires TaskCard.CurrentOf(stats) > 0 && TaskCard.StatusOf(stats) == Some(Expired)
    ensures TaskCard.CardBadge(stats).Some?
    ensures TaskCard.CardBadge(stats).value.icon == TaskCard.ClockOutline
    ensures TaskCard.CardBadge(stats).value.value == TaskCard.CurrentOf(stats)
    ensures HeaderBadgeOf(stats) == (if TaskCard.LastOf(stats) > 0 then Some(Resting(TaskCard.LastOf(stats))) else None)
  {
  }

  /**
   * No status, or `never_started`, with a positive last streak: the card shows no
   * badge, the header shows the sleep badge.
   */
  lemma UnstartedRestingDisagrees(stats: Option<TaskStats>)
    requires !TaskCard.Started(stats) && TaskCard.LastOf(stats) > 0
    ensures TaskCard.CardBadge(stats).None?
    ensures HeaderBadgeOf(stats) == Some(Resting(TaskCard.LastOf(stats)))
  {
  }

  /**
   * The statistics the task store computes carry neither a status nor a last streak,
   * so for them neither the card nor the header shows any badge, whatever the streak.
   */
  lemma StoreStatsShowNoBadge(completions: seq<Completion>, now: Calendar.DateTime, taskCount: int)
    requires taskCount >= 1
    ensures TaskCard.CardBadge(Some(TaskContext.StatsOf(completions, now, taskCount))).None?
    ensures HeaderBadgeOf(Some(TaskContext.StatsOf(completions, now, taskCount))).None?
  {
  }

  /** `pathname.includes('calendar')`. */
  predicate IsCalendarScreen(pathname: string) {
    Contains(pathname, "calendar")
  }

  /** `pathname.includes('stats')`. */
  predicate IsStatsScreen(pathname: string) {
    Contains(pathname, "stats")
  }

  /** On the calendar route only the Calendar tab is highlighted. */
  lemma CalendarRouteTabs()
    ensures IsCalendarScreen("/task-calendar") && !IsStatsScreen("/task-calendar")
  {
    var p := "/task-calendar";
    assert OccursAt(p, "calendar", 6);
    NoPairNotFound(p, "stats");
  }

  /** On the stats route only the Stats tab is highlighted. */
  lemma StatsRouteTabs()
    ensures IsStatsScreen("/task-stats") && !IsCalendarScreen("/task-stats")
  {
    var p := "/task-stats";
    assert OccursAt(p, "stats", 6);
    NoPairNotFound(p, "calendar");
  }

  /** A string in which the first two characters of `t` never stand side by side does not contain `t`. */
  lemma NoPairNotFound(s: string, t: string)
    requires |t| >= 2
    requires forall j :: 0 <= j < |s| - 1 ==> !(s[j] == t[0] && s[j + 1] == t[1])
    ensures !Contains(s, t)
  {
    forall i | 0 <= i <= |s| - |t| ensures !OccursAt(s, t, i) {
      var w := s[i..i + |t|];
      assert w[0] == s[i] && w[1] == s[i + 1];
    }
  }
}
