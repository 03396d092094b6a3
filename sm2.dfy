/**
 * The simplified SuperMemo SM-2 step applied by the review handler of server.js:
 * a card's (repetitions, ease factor, interval) and a quality rating from 0 to 5
 * give the card's next scheduling state.
 *
 * The ease factor is an exact real: the floating-point behaviour of the original
 * arithmetic is not modelled.
 */
module Sm2 {

  /** The scheduling columns of a card row. */
  datatype Schedule = Schedule(repetitions: int, easeFactor: real, intervalDays: int)

  /** The floor below which a successful review never leaves the ease factor. */
  const MinEase: real := 1.3

  /** Ratings from this value up count as a successful recall. */
  const PassingQuality: int := 3

  /** The ratings the review step is defined for. */
  predicate InRange(q: int) {
    0 <= q <= 5
  }

  /** Math.round: the nearest integer, halves rounded up. */
  function Round(x: real): (n: int)
    ensures x - 0.5 < n as real <= x + 0.5
  {
    (x + 0.5).Floor
  }

  /** The SM-2 ease adjustment for a rating q. */
  function EaseDelta(q: int): real {
    0.1 - (5 - q) as real * (0.08 + (5 - q) as real * 0.02)
  }

  /** The ease factor after a successful review: adjusted, then floored at MinEase. */
  function NextEase(ease: real, q: int): (e: real)
    ensures e >= MinEase
    ensures e >= ease + EaseDelta(q)
    ensures ease + EaseDelta(q) >= MinEase ==> e == ease + EaseDelta(q)
    ensures ease + EaseDelta(q) < MinEase ==> e == MinEase
  {
    var adjusted := ease + EaseDelta(q);
    if adjusted < MinEase then MinEase else adjusted
  }

  /** The interval after the second success onwards: the old interval times the ease, rounded. */
  function Grown(interval: int, ease: real): int {
    Round(interval as real * ease)
  }

  /**
   * One review. A failed recall resets the card; a successful one adjusts the
   * ease, picks the interval from the repetition count BEFORE it is incremented,
   * and increments it.
   */
  function Next(s: Schedule, q: int): (t: Schedule)
    requires InRange(q)
    ensures q < PassingQuality ==> t == Schedule(0, s.easeFactor, 1)
    ensures q >= PassingQuality ==> t.repetitions == s.repetitions + 1 && t.easeFactor >= MinEase
  {
    if q < PassingQuality then
      Schedule(0, s.easeFactor, 1)
    else
      var ease := NextEase(s.easeFactor, q);
      var interval :=
        if s.repetitions == 0 then 1
        else if s.repetitions == 1 then 6
        else Grown(s.intervalDays, ease);
      Schedule(s.repetitions + 1, ease, interval)
  }

  /** The adjustment for each passing rating: +0.1 for 5, 0 for 4, -0.14 for 3. */
  lemma EaseDeltaValues(q: int)
    requires PassingQuality <= q <= 5
    ensures EaseDelta(q) == if q == 5 then 0.1 else if q == 4 then 0.0 else -0.14
  {
    if q == 3 {
      assert (5 - q) as real == 2.0;
    } else if q == 4 {
      assert (5 - q) as real == 1.0;
    } else {
      assert (5 - q) as real == 0.0;
    }
  }

  /** A larger ease never gives a shorter grown interval. */
  lemma GrownMonotone(interval: int, e1: real, e2: real)
    requires interval >= 0 && e1 <= e2
    ensures Grown(interval, e1) <= Grown(interval, e2)
  {
    ScaleMonotone(interval, e1, e2);
    RoundMonotone(interval as real * e1, interval as real * e2);
  }

  /** An ease at or above the floor never shrinks the interval, and grows any interval of two days or more. */
  lemma GrownAtLeast(interval: int, ease: real)
    requires interval >= 0 && ease >= MinEase
    ensures Grown(interval, ease) >= interval
    ensures interval >= 2 ==> Grown(interval, ease) > interval
  {
    ScaleMonotone(interval, MinEase, ease);
  }

  /** Failing twice is the same as failing once: the reset state is a fixed point of failure. */
  lemma FailureIdempotent(s: Schedule, q1: int, q2: int)
    requires 0 <= q1 < PassingQuality && 0 <= q2 < PassingQuality
    ensures Next(Next(s, q1), q2) == Next(s, q1)
  {
  }

  /** The ease floor is only applied on success: a failed review keeps an ease below MinEase. */
  lemma FailureKeepsLowEase(s: Schedule, q: int)
    requires 0 <= q < PassingQuality && s.easeFactor < MinEase
    ensures Next(s, q).easeFactor == s.easeFactor < MinEase
  {
  }

  /** Once at or above the floor, the ease factor stays there whatever the rating. */
  lemma EaseFloorPreserved(s: Schedule, q: int)
    requires InRange(q) && s.easeFactor >= MinEase
    ensures Next(s, q).easeFactor >= MinEase
  {
  }

  /** Among successful ratings, a higher rating never gives a lower ease factor. */
  lemma EaseMonotoneInQuality(s: Schedule, q1: int, q2: int)
    requires PassingQuality <= q1 <= q2 <= 5
    ensures Next(s, q1).easeFactor <= Next(s, q2).easeFactor
  {
    EaseDeltaValues(q1);
    EaseDeltaValues(q2);
  }

  lemma RoundMonotone(x: real, y: real)
    requires x <= y
    ensures Round(x) <= Round(y)
  {
  }

  lemma ScaleMonotone(n: int, a: real, b: real)
    requires n >= 0 && a <= b
    ensures n as real * a <= n as real * b
  {
  }

  /**
   * Growth: after the second success the interval never shrinks, because the
   * ease it is multiplied by is at least 1.3 > 1; from two days up it strictly grows.
   */
  lemma IntervalGrowth(s: Schedule, q: int)
    requires PassingQuality <= q <= 5
    requires s.repetitions >= 2 && s.intervalDays >= 0
    ensures Next(s, q).intervalDays >= s.intervalDays
    ensures s.intervalDays >= 2 ==> Next(s, q).intervalDays > s.intervalDays
  {
    GrownAtLeast(s.intervalDays, Next(s, q).easeFactor);
  }

  /**
   * For a consistent card (in particular every reachable one), a higher rating
   * never gives a shorter interval, across the failure threshold too.
   */
  lemma IntervalMonotoneInQuality(s: Schedule, q1: int, q2: int)
    requires 0 <= q1 <= q2 <= 5
    requires Consistent(s)
    ensures Next(s, q1).intervalDays <= Next(s, q2).intervalDays
  {
    if q2 >= PassingQuality && s.repetitions >= 2 {
      IntervalGrowth(s, q2);
      if q1 >= PassingQuality {
        EaseMonotoneInQuality(s, q1, q2);
        GrownMonotone(s.intervalDays, Next(s, q1).easeFactor, Next(s, q2).easeFactor);
      }
    }
  }

  /** The state a card reaches when reviewed with the given ratings in order. */
  function Replay(s: Schedule, qs: seq<int>): Schedule
    requires forall i :: 0 <= i < |qs| ==> InRange(qs[i])
    decreases |qs|
  {
    if qs == [] then s else Replay(Next(s, qs[0]), qs[1..])
  }

  /** A state every card reachable from a fresh one (zero repetitions) satisfies. */
  predicate Consistent(s: Schedule) {
    s.repetitions >= 0 && (s.repetitions >= 1 ==> s.intervalDays >= 1)
  }

  /** One review keeps a consistent state consistent and leaves an interval of at least one day. */
  lemma {:induction false} NextKeepsConsistent(s: Schedule, q: int)
    requires InRange(q) && Consistent(s)
    ensures Consistent(Next(s, q))
    ensures Next(s, q).intervalDays >= 1
  {
    if q >= PassingQuality && s.repetitions >= 2 {
      IntervalGrowth(s, q);
    }
  }

  /**
   * Reachable states: from a consistent state (in particular from zero
   * repetitions) any run of reviews stays consistent, every reviewed card has an
   * interval of at least one day, and an ease at the floor stays there.
   */
  lemma {:induction false} ReplayKeepsConsistent(s: Schedule, qs: seq<int>)
    requires forall i :: 0 <= i < |qs| ==> InRange(qs[i])
    requires Consistent(s)
    ensures Consistent(Replay(s, qs))
    ensures |qs| > 0 ==> Replay(s, qs).intervalDays >= 1
    ensures s.easeFactor >= MinEase ==> Replay(s, qs).easeFactor >= MinEase
    decreases |qs|
  {
    if qs != [] {
      NextKeepsConsistent(s, qs[0]);
      ReplayKeepsConsistent(Next(s, qs[0]), qs[1..]);
    }
  }

  /** The review sequence 4, 4, 5 from (0, 2.5, 0), a failure, and a floored ease. */
  lemma WorkedExamples()
    ensures Next(Schedule(0, 2.5, 0), 4) == Schedule(1, 2.5, 1)
    ensures Next(Schedule(1, 2.5, 1), 4) == Schedule(2, 2.5, 6)
    ensures Next(Schedule(2, 2.5, 6), 5) == Schedule(3, 2.6, 16)
    ensures Next(Schedule(3, 2.6, 16), 1) == Schedule(0, 2.6, 1)
    ensures Next(Schedule(2, 1.3, 10), 3) == Schedule(3, 1.3, 13)
  {
    EaseDeltaValues(3);
    EaseDeltaValues(4);
    EaseDeltaValues(5);
    assert Round(6.0 * 2.6) == 16;
    assert Round(10.0 * 1.3) == 13;
  }
}
