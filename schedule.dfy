/**
 * The canonical phase order shared by the three timers:
 *
 *   for each round, for each exercise: a WORKING phase, then a RESTING phase
 *
 * The Tk timers always emit the rest phase (even of length 0); the blocking
 * timer in utils/timer.py emits it only when the rest duration is positive.
 * `restAlways` selects between the two. Rounds are numbered from `base`
 * (1 in utils/, 0 in workout_generator.py).
 */
module Phases {

  datatype Phase = Working | Resting

  /** One phase of the workout: round, exercise position, phase, length in seconds. */
  datatype Step = Step(round: int, index: nat, phase: Phase, duration: int)

  /** The phases of exercise `k` in round `r`. */
  function ExercisePhases(r: int, k: nat, work: int, rest: int, restAlways: bool): seq<Step>
  {
    [Step(r, k, Working, work)] + (if restAlways || rest > 0 then [Step(r, k, Resting, rest)] else [])
  }

  /** The phases of exercises 0 .. count-1 of round `r`. */
  function RoundSteps(r: int, count: nat, work: int, rest: int, restAlways: bool): seq<Step>
  {
    if count == 0 then []
    else RoundSteps(r, count - 1, work, rest, restAlways) + ExercisePhases(r, count - 1, work, rest, restAlways)
  }

  /** All phases of rounds base .. base+m-1 over `n` exercises. */
  function Schedule(base: int, m: nat, n: nat, work: int, rest: int, restAlways: bool): seq<Step>
  {
    if m == 0 then []
    else Schedule(base, m - 1, n, work, rest, restAlways) + RoundSteps(base + m - 1, n, work, rest, restAlways)
  }

  /** Total seconds of a list of phases. */
  function SumDur(s: seq<Step>): int
  {
    if s == [] then 0 else SumDur(s[..|s| - 1]) + s[|s| - 1].duration
  }

  /**
   * `a * b` as repeated addition, so that proofs unfold it a step at a time
   * instead of reasoning about a product of unknowns.
   */
  function Mul(a: int, b: int): int
    decreases if a >= 0 then a else -a
  {
    if a == 0 then 0 else if a > 0 then Mul(a - 1, b) + b else Mul(a + 1, b) - b
  }

  lemma {:induction false} MulIsProduct(a: int, b: int)
    ensures Mul(a, b) == a * b
    decreases if a >= 0 then a else -a
  {
    if a > 0 {
      MulIsProduct(a - 1, b);
      MulStep(a, b);
    } else if a < 0 {
      MulIsProduct(a + 1, b);
      MulStep(a + 1, b);
    }
  }

  /** `total_steps = len(exercises) * rounds * (work_duration + rest_duration)`. */
  function TotalSteps(n: nat, rounds: int, work: int, rest: int): int
  {
    Mul(rounds, Mul(n, work + rest))
  }

  /** The total is the product the timers compute. */
  lemma TotalStepsIsProduct(n: nat, rounds: int, work: int, rest: int)
    ensures TotalSteps(n, rounds, work, rest) == n * rounds * (work + rest)
  {
    TotalStepsAssoc(n, rounds, work, rest);
  }

  /** Phases emitted per exercise. */
  function PerExercise(rest: int, restAlways: bool): nat
  {
    if restAlways || rest > 0 then 2 else 1
  }

  /** Number of phases of kind `ph` in `s`. */
  function CountPhase(s: seq<Step>, ph: Phase): nat
  {
    if s == [] then 0 else CountPhase(s[..|s| - 1], ph) + (if s[|s| - 1].phase == ph then 1 else 0)
  }

  lemma {:induction false} SumAppend(a: seq<Step>, b: seq<Step>)
    ensures SumDur(a + b) == SumDur(a) + SumDur(b)
    decreases |b|
  {
    if b == [] {
      assert a + b == a;
    } else {
      assert (a + b)[..|a + b| - 1] == a + b[..|b| - 1];
      SumAppend(a, b[..|b| - 1]);
    }
  }

  lemma {:induction false} CountAppend(a: seq<Step>, b: seq<Step>, ph: Phase)
    ensures CountPhase(a + b, ph) == CountPhase(a, ph) + CountPhase(b, ph)
    decreases |b|
  {
    if b == [] {
      assert a + b == a;
    } else {
      assert (a + b)[..|a + b| - 1] == a + b[..|b| - 1];
      CountAppend(a, b[..|b| - 1], ph);
    }
  }

  /** An exercise's phases: one or two, lasting `work + rest` in all when the rest is not negative. */
  lemma ExercisePhasesSum(r: int, k: nat, work: int, rest: int, restAlways: bool)
    requires rest >= 0
    ensures SumDur(ExercisePhases(r, k, work, rest, restAlways)) == work + rest
  {
    var e := ExercisePhases(r, k, work, rest, restAlways);
    var w := Step(r, k, Working, work);
    assert [w][..0] == [];
    assert SumDur([w]) == work;
    if restAlways || rest > 0 {
      assert e == [w, Step(r, k, Resting, rest)];
      assert e[..1] == [w];
    } else {
      assert e == [w];
    }
  }

  /** An exercise has one WORKING phase, and one RESTING phase unless rests are skipped. */
  lemma ExercisePhasesCounts(r: int, k: nat, work: int, rest: int, restAlways: bool, ph: Phase)
    ensures CountPhase(ExercisePhases(r, k, work, rest, restAlways), ph)
            == if ph == Working || restAlways || rest > 0 then 1 else 0
  {
    var e := ExercisePhases(r, k, work, rest, restAlways);
    var w := Step(r, k, Working, work);
    assert [w][..0] == [];
    assert CountPhase([w], ph) == if ph == Working then 1 else 0;
    if restAlways || rest > 0 {
      assert e == [w, Step(r, k, Resting, rest)];
      assert e[..1] == [w];
    } else {
      assert e == [w];
    }
  }

  lemma MulStep(a: int, b: int)
    ensures a * b == (a - 1) * b + b
  {
  }

  lemma {:induction false} RoundStepsLength(r: int, count: nat, work: int, rest: int, restAlways: bool)
    ensures |RoundSteps(r, count, work, rest, restAlways)| == Mul(count, PerExercise(rest, restAlways))
  {
    if count > 0 {
      RoundStepsLength(r, count - 1, work, rest, restAlways);
    }
  }

  lemma {:induction false} RoundStepsSum(r: int, count: nat, work: int, rest: int, restAlways: bool)
    requires rest >= 0
    ensures SumDur(RoundSteps(r, count, work, rest, restAlways)) == Mul(count, work + rest)
  {
    if count > 0 {
      RoundStepsSum(r, count - 1, work, rest, restAlways);
      ExercisePhasesSum(r, count - 1, work, rest, restAlways);
      SumAppend(RoundSteps(r, count - 1, work, rest, restAlways), ExercisePhases(r, count - 1, work, rest, restAlways));
    }
  }

  lemma {:induction false} RoundStepsCount(r: int, count: nat, work: int, rest: int, restAlways: bool, ph: Phase)
    ensures CountPhase(RoundSteps(r, count, work, rest, restAlways), ph)
            == if ph == Working || restAlways || rest > 0 then count else 0
  {
    if count > 0 {
      RoundStepsCount(r, count - 1, work, rest, restAlways, ph);
      ExercisePhasesCounts(r, count - 1, work, rest, restAlways, ph);
      CountAppend(RoundSteps(r, count - 1, work, rest, restAlways), ExercisePhases(r, count - 1, work, rest, restAlways), ph);
    }
  }

  /** A round of `count` exercises: its length, its seconds and its phases of each kind. */
  lemma RoundStepsFacts(r: int, count: nat, work: int, rest: int, restAlways: bool)
    requires rest >= 0
    ensures |RoundSteps(r, count, work, rest, restAlways)| == count * PerExercise(rest, restAlways)
    ensures SumDur(RoundSteps(r, count, work, rest, restAlways)) == count * (work + rest)
    ensures CountPhase(RoundSteps(r, count, work, rest, restAlways), Working) == count
    ensures CountPhase(RoundSteps(r, count, work, rest, restAlways), Resting) == if restAlways || rest > 0 then count else 0
  {
    RoundStepsLength(r, count, work, rest, restAlways);
    RoundStepsSum(r, count, work, rest, restAlways);
    RoundStepsCount(r, count, work, rest, restAlways, Working);
    RoundStepsCount(r, count, work, rest, restAlways, Resting);
    MulIsProduct(count, PerExercise(rest, restAlways));
    MulIsProduct(count, work + rest);
  }

  lemma {:induction false} ScheduleLength(base: int, m: nat, n: nat, work: int, rest: int, restAlways: bool)
    ensures |Schedule(base, m, n, work, rest, restAlways)| == Mul(m, Mul(n, PerExercise(rest, restAlways)))
  {
    if m > 0 {
      ScheduleLength(base, m - 1, n, work, rest, restAlways);
      RoundStepsLength(base + m - 1, n, work, rest, restAlways);
    }
  }

  lemma {:induction false} ScheduleSum(base: int, m: nat, n: nat, work: int, rest: int, restAlways: bool)
    requires rest >= 0
    ensures SumDur(Schedule(base, m, n, work, rest, restAlways)) == Mul(m, Mul(n, work + rest))
  {
    if m > 0 {
      var prev := Schedule(base, m - 1, n, work, rest, restAlways);
      var round := RoundSteps(base + m - 1, n, work, rest, restAlways);
      calc {
        SumDur(Schedule(base, m, n, work, rest, restAlways));
        SumDur(prev + round);
        { SumAppend(prev, round); }
        SumDur(prev) + SumDur(round);
        { ScheduleSum(base, m - 1, n, work, rest, restAlways); }
        Mul(m - 1, Mul(n, work + rest)) + SumDur(round);
        { RoundStepsSum(base + m - 1, n, work, rest, restAlways); }
        Mul(m - 1, Mul(n, work + rest)) + Mul(n, work + rest);
        Mul(m, Mul(n, work + rest));
      }
    }
  }

  lemma {:induction false} ScheduleCount(base: int, m: nat, n: nat, work: int, rest: int, restAlways: bool, ph: Phase)
    ensures CountPhase(Schedule(base, m, n, work, rest, restAlways), ph)
            == if ph == Working || restAlways || rest > 0 then Mul(m, n) else 0
  {
    if m > 0 {
      var prev := Schedule(base, m - 1, n, work, rest, restAlways);
      var round := RoundSteps(base + m - 1, n, work, rest, restAlways);
      CountAppend(prev, round, ph);
      ScheduleCount(base, m - 1, n, work, rest, restAlways, ph);
      RoundStepsCount(base + m - 1, n, work, rest, restAlways, ph);
      assert CountPhase(Schedule(base, m, n, work, rest, restAlways), ph) == CountPhase(prev, ph) + CountPhase(round, ph);
    }
  }

  /** One more round appends its phases. */
  lemma ScheduleSnoc(base: int, m: nat, n: nat, work: int, rest: int, restAlways: bool)
    ensures Schedule(base, m + 1, n, work, rest, restAlways)
            == Schedule(base, m, n, work, rest, restAlways) + RoundSteps(base + m, n, work, rest, restAlways)
  {
  }

  /**
   * The whole workout has `rounds * len(exercises)` WORKING phases and as many
   * RESTING ones (none when rests are skipped and the rest is 0), and its
   * phases add up to exactly `total_steps` seconds.
   */
  lemma ScheduleFacts(base: int, m: nat, n: nat, work: int, rest: int, restAlways: bool)
    requires rest >= 0
    ensures |Schedule(base, m, n, work, rest, restAlways)| == m * (n * PerExercise(rest, restAlways))
    ensures SumDur(Schedule(base, m, n, work, rest, restAlways)) == TotalSteps(n, m, work, rest)
    ensures CountPhase(Schedule(base, m, n, work, rest, restAlways), Working) == m * n
    ensures CountPhase(Schedule(base, m, n, work, rest, restAlways), Resting) == if restAlways || rest > 0 then m * n else 0
  {
    ScheduleLength(base, m, n, work, rest, restAlways);
    ScheduleSum(base, m, n, work, rest, restAlways);
    ScheduleCount(base, m, n, work, rest, restAlways, Working);
    ScheduleCount(base, m, n, work, rest, restAlways, Resting);
    MulIsProduct(n, PerExercise(rest, restAlways));
    MulIsProduct(m, n * PerExercise(rest, restAlways));
    MulIsProduct(m, n);
  }

  lemma TotalStepsAssoc(n: nat, m: int, work: int, rest: int)
    ensures TotalSteps(n, m, work, rest) == m * (n * (work + rest))
  {
    MulIsProduct(n, work + rest);
    MulIsProduct(m, n * (work + rest));
  }

  /** Every phase carries a round in base..base+m-1, an exercise position below n, and its own duration. */
  lemma {:induction false} ScheduleStepsInRange(base: int, m: nat, n: nat, work: int, rest: int, restAlways: bool)
    ensures forall s :: s in Schedule(base, m, n, work, rest, restAlways) ==>
              && base <= s.round < base + m
              && s.index < n
              && s.duration == (if s.phase == Working then work else rest)
              && (s.phase == Resting ==> restAlways || rest > 0)
  {
    if m > 0 {
      var prev := Schedule(base, m - 1, n, work, rest, restAlways);
      var round := RoundSteps(base + m - 1, n, work, rest, restAlways);
      ScheduleStepsInRange(base, m - 1, n, work, rest, restAlways);
      RoundStepsInRange(base + m - 1, n, work, rest, restAlways);
      forall s: Step | s in prev + round
        ensures base <= s.round < base + m
      {
        assert s in prev || s in round;
      }
    }
  }

  lemma {:induction false} RoundStepsInRange(r: int, count: nat, work: int, rest: int, restAlways: bool)
    ensures forall s :: s in RoundSteps(r, count, work, rest, restAlways) ==>
              && s.round == r && s.index < count
              && s.duration == (if s.phase == Working then work else rest)
              && (s.phase == Resting ==> restAlways || rest > 0)
  {
    if count > 0 {
      RoundStepsInRange(r, count - 1, work, rest, restAlways);
    }
  }

  /** A prefix of phases with non-negative lengths never exceeds the whole. */
  lemma {:induction false} PrefixSumBound(s: seq<Step>, k: nat)
    requires k <= |s|
    requires forall t :: t in s ==> t.duration >= 0
    ensures SumDur(s[..k]) <= SumDur(s)
    decreases |s|
  {
    if k < |s| {
      assert s[..|s| - 1][..k] == s[..k];
      assert forall t :: t in s[..|s| - 1] ==> t in s;
      PrefixSumBound(s[..|s| - 1], k);
    } else {
      assert s[..k] == s;
    }
  }

  /** The same phases with every round number moved by `d`. */
  function Shift(s: seq<Step>, d: int): (r: seq<Step>)
    ensures |r| == |s|
    ensures forall k :: 0 <= k < |s| ==> r[k] == s[k].(round := s[k].round + d)
  {
    seq(|s|, k requires 0 <= k < |s| => s[k].(round := s[k].round + d))
  }

  /**
   * Numbering rounds from 0 (workout_generator.py) instead of from 1
   * (utils/workout_timer.py) changes nothing but the round labels.
   */
  lemma {:induction false} ScheduleShift(base: int, d: int, m: nat, n: nat, work: int, rest: int, restAlways: bool)
    ensures Schedule(base + d, m, n, work, rest, restAlways) == Shift(Schedule(base, m, n, work, rest, restAlways), d)
  {
    if m > 0 {
      ScheduleShift(base, d, m - 1, n, work, rest, restAlways);
      RoundShift(base + m - 1, d, n, work, rest, restAlways);
    }
  }

  lemma {:induction false} RoundShift(r: int, d: int, count: nat, work: int, rest: int, restAlways: bool)
    ensures RoundSteps(r + d, count, work, rest, restAlways) == Shift(RoundSteps(r, count, work, rest, restAlways), d)
  {
    if count > 0 {
      RoundShift(r, d, count - 1, work, rest, restAlways);
    }
  }

  /** Two exercises, 10 s work, 5 s rest, 2 rounds: eight phases in this order, 60 s in all. */
  lemma TwoByTwoExample()
    ensures Schedule(1, 2, 2, 10, 5, true) ==
              [Step(1, 0, Working, 10), Step(1, 0, Resting, 5), Step(1, 1, Working, 10), Step(1, 1, Resting, 5),
               Step(2, 0, Working, 10), Step(2, 0, Resting, 5), Step(2, 1, Working, 10), Step(2, 1, Resting, 5)]
    ensures Schedule(1, 2, 2, 10, 5, false) == Schedule(1, 2, 2, 10, 5, true)
    ensures TotalSteps(2, 2, 10, 5) == 60
  {
    assert RoundSteps(1, 2, 10, 5, true) ==
      [Step(1, 0, Working, 10), Step(1, 0, Resting, 5), Step(1, 1, Working, 10), Step(1, 1, Resting, 5)];
    assert RoundSteps(2, 2, 10, 5, true) ==
      [Step(2, 0, Working, 10), Step(2, 0, Resting, 5), Step(2, 1, Working, 10), Step(2, 1, Resting, 5)];
  }

  /** Without rests (utils/timer.py, rest 0): one exercise, one round gives the single WORKING phase. */
  lemma NoRestExample()
    ensures Schedule(1, 1, 1, 1, 0, false) == [Step(1, 0, Working, 1)]
    ensures Schedule(1, 1, 1, 1, 0, true) == [Step(1, 0, Working, 1), Step(1, 0, Resting, 0)]
  {
    assert RoundSteps(1, 1, 1, 0, false) == [Step(1, 0, Working, 1)];
    assert RoundSteps(1, 1, 1, 0, true) == [Step(1, 0, Working, 1), Step(1, 0, Resting, 0)];
  }

  /** Fewer exercises of a round give a prefix of its phases. */
  lemma {:induction false} RoundStepsGrow(r: int, i: nat, j: nat, work: int, rest: int, restAlways: bool)
    requires i <= j
    ensures RoundSteps(r, i, work, rest, restAlways) <= RoundSteps(r, j, work, rest, restAlways)
    decreases j - i
  {
    if i < j {
      RoundStepsGrow(r, i, j - 1, work, rest, restAlways);
    }
  }

  /** Fewer rounds give a prefix of the schedule. */
  lemma {:induction false} ScheduleGrows(base: int, m1: nat, m2: nat, n: nat, work: int, rest: int, restAlways: bool)
    requires m1 <= m2
    ensures Schedule(base, m1, n, work, rest, restAlways) <= Schedule(base, m2, n, work, rest, restAlways)
    decreases m2 - m1
  {
    if m1 < m2 {
      ScheduleGrows(base, m1, m2 - 1, n, work, rest, restAlways);
    }
  }
}
