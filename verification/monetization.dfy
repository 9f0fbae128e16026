/** The arithmetic of `src/components/MonetizationTracker.jsx`: progress towards the
    impressions goal, the daily target until the deadline, what remains, and the six weekly
    milestones. Counts are whole numbers; `daysLeft` is what `daysUntil(deadline)` gives on the
    current day, a parameter here. */
module Monetization {
  import opened Wrappers

  /** `Math.ceil(a / b)` for a positive divisor: the least `r` with `r * b >= a`. */
  function CeilDiv(a: int, b: int): (r: int)
    requires b > 0
    ensures r * b >= a
    ensures (r - 1) * b < a
  {
    -((-a) / b)
  }

  /** `Math.max(daysLeft, 1)`: the divisor never reaches zero, even past the deadline. */
  function Divisor(daysLeft: int): (d: int)
    ensures d >= 1
    ensures d == daysLeft || (daysLeft < 1 && d == 1)
  {
    if daysLeft > 1 then daysLeft else 1
  }

  /** `Math.ceil((goal - current) / Math.max(daysLeft, 1))`: the smallest daily count that
      closes the gap by the deadline. */
  function DailyNeeded(current: int, goal: int, daysLeft: int): (r: int)
    ensures r * Divisor(daysLeft) >= goal - current
    ensures (r - 1) * Divisor(daysLeft) < goal - current
  {
    CeilDiv(goal - current, Divisor(daysLeft))
  }

  /** `(current / goal) * 100`; with a zero goal the source divides by zero and shows a
      non-finite number, which is `None` here. */
  function Progress(current: int, goal: int): (r: Option<real>)
    ensures r.None? <==> goal == 0
    ensures r.Some? ==> r.value * goal as real == 100.0 * current as real
  {
    if goal == 0 then None else Some(current as real / goal as real * 100.0)
  }

  /** Week `week`'s milestone, `current >= (goal / 12) * week`, compared without rounding. */
  predicate WeekDone(current: int, goal: int, week: int) {
    12 * current >= goal * week
  }

  /** The six weekly milestones, week 1 first. */
  function Milestones(current: int, goal: int): (ms: seq<bool>)
    ensures |ms| == 6
    ensures forall k :: 0 <= k < 6 ==> (ms[k] <==> 12 * current >= goal * (k + 1))
  {
    seq(6, k requires 0 <= k < 6 => WeekDone(current, goal, k + 1))
  }

  /** The figures the tracker shows. */
  datatype View = View(
    progress: Option<real>,
    daysLeft: int,
    dailyNeeded: int,
    remaining: int,
    milestones: seq<bool>)

  /** The whole tracker: `remaining` is `goal - current`, and milestone `k` (weeks 1 to 6) is
      complete exactly when `current` reaches `k` twelfths of the goal. */
  function Track(current: int, goal: int, daysLeft: int): (v: View)
    ensures v.remaining + current == goal
    ensures v.daysLeft == daysLeft
    ensures v.progress.None? <==> goal == 0
    ensures v.progress.Some? ==> v.progress.value * goal as real == 100.0 * current as real
    ensures v.dailyNeeded * Divisor(daysLeft) >= v.remaining
    ensures (v.dailyNeeded - 1) * Divisor(daysLeft) < v.remaining
    ensures |v.milestones| == 6
    ensures forall k :: 0 <= k < 6 ==> (v.milestones[k] <==> 12 * current >= goal * (k + 1))
  {
    var progress := Progress(current, goal);
    var daily := DailyNeeded(current, goal, daysLeft);
    View(progress, daysLeft, daily, goal - current, Milestones(current, goal))
  }

  /** For a non-negative goal, a completed milestone completes every earlier one. */
  lemma MilestonesMonotone(current: int, goal: int, daysLeft: int, j: int, k: int)
    requires goal >= 0
    requires 0 <= j <= k < 6
    requires Track(current, goal, daysLeft).milestones[k]
    ensures Track(current, goal, daysLeft).milestones[j]
  {
    assert goal * (j + 1) <= goal * (k + 1) by {
      assert goal * (k + 1) - goal * (j + 1) == goal * (k - j);
    }
  }

  /** From the deadline on, the whole gap is due in one day. */
  lemma PastDeadline(current: int, goal: int, daysLeft: int)
    requires daysLeft <= 1
    ensures Track(current, goal, daysLeft).dailyNeeded == goal - current
  {
    assert Divisor(daysLeft) == 1;
  }

  /** Once the goal is reached nothing more is needed per day, and with a non-negative goal
      every milestone is complete. */
  lemma GoalReached(current: int, goal: int, daysLeft: int)
    requires current >= goal >= 0
    ensures Track(current, goal, daysLeft).dailyNeeded <= 0
    ensures forall k :: 0 <= k < 6 ==> Track(current, goal, daysLeft).milestones[k]
  {
    var v := Track(current, goal, daysLeft);
    var d := Divisor(daysLeft);
    assert (v.dailyNeeded - 1) * d < 0;
    forall k | 0 <= k < 6 ensures v.milestones[k] {
      assert goal * (k + 1) <= goal * 6 <= 12 * current;
    }
  }
}
