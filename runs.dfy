/**
 * Runs of one-day steps in a list of instants: the counters `tempStreak` and
 * `bestStreak` of `calculateTaskStats` (`app/context/TaskContext.tsx`).
 */
module Runs {
  import opened Calendar

  /** Entry i says whether instant i + 1 is exactly one day after instant i. */
  function Steps(keys: seq<int>): (b: seq<bool>)
    ensures |b| == if |keys| == 0 then 0 else |keys| - 1
    ensures forall i :: 0 <= i < |b| ==> b[i] == (keys[i + 1] - keys[i] == DayMs)
  {
    if |keys| <= 1 then []
    else seq(|keys| - 1, i requires 0 <= i < |keys| - 1 => keys[i + 1] - keys[i] == DayMs)
  }

  /** How many one-day steps end the sequence. */
  function TrailingRun(b: seq<bool>): nat {
    if b == [] || !b[|b| - 1] then 0 else TrailingRun(b[..|b| - 1]) + 1
  }

  /** The most one-day steps in a row anywhere in the sequence. */
  function LongestRun(b: seq<bool>): nat {
    if b == [] then 0 else Max(LongestRun(b[..|b| - 1]), TrailingRun(b))
  }

  function Max(a: int, b: int): int {
    if a < b then b else a
  }

  function Min(a: int, b: int): int {
    if a < b then a else b
  }

  /** Steps lo .. lo + len - 1 all exist and are one-day steps. */
  ghost predicate RunAt(b: seq<bool>, lo: int, len: int) {
    0 <= lo && 0 <= len && lo + len <= |b| && forall k :: lo <= k < lo + len ==> b[k]
  }

  lemma {:induction false} TrailingRunIsMaximal(b: seq<bool>)
    ensures TrailingRun(b) <= |b|
    ensures RunAt(b, |b| - TrailingRun(b), TrailingRun(b))
    ensures TrailingRun(b) < |b| ==> !b[|b| - 1 - TrailingRun(b)]
    decreases |b|
  {
    if b != [] && b[|b| - 1] {
      TrailingRunIsMaximal(b[..|b| - 1]);
    }
  }

  /** LongestRun is the length of a longest block of one-day steps. */
  lemma {:induction false} LongestRunIsMaximum(b: seq<bool>)
    ensures exists lo :: RunAt(b, lo, LongestRun(b))
    ensures forall lo, len :: RunAt(b, lo, len) ==> len <= LongestRun(b)
    decreases |b|
  {
    if b == [] {
      assert RunAt(b, 0, LongestRun(b));
    } else {
      var front := b[..|b| - 1];
      LongestRunIsMaximum(front);
      TrailingRunIsMaximal(b);
      var t := TrailingRun(b);
      if LongestRun(front) <= t {
        assert RunAt(b, |b| - t, LongestRun(b));
      } else {
        var lo :| RunAt(front, lo, LongestRun(front));
        assert RunAt(b, lo, LongestRun(b));
      }
      forall lo, len | RunAt(b, lo, len) ensures len <= LongestRun(b) {
        if lo + len < |b| {
          assert RunAt(front, lo, len);
        }
      }
    }
  }

  lemma TrailingWithinLongest(b: seq<bool>)
    ensures TrailingRun(b) <= LongestRun(b)
  {
  }
}
