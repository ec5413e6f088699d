/**
 * utils/timer.py: the blocking timer. Sleeping and printing are left out; the
 * calls it makes to `progress_callback` are collected as a trace of events,
 * and each second also records the MM:SS text it prints.
 */
module BlockingTimer {
  import opened Phases

  /** `divmod(remaining, 60)`, the MM:SS display. */
  datatype Clock = Clock(mins: int, secs: int)

  /** MM:SS of a non-negative number of seconds (Python's divmod by 60 floors, like Dafny's). */
  function MmSs(remaining: nat): (c: Clock)
    ensures c.mins * 60 + c.secs == remaining
    ensures 0 <= c.secs < 60 && 0 <= c.mins
  {
    Clock(remaining / 60, remaining % 60)
  }

  /** One second of `countdown_timer_with_progress`: the callback's arguments and the printed clock. */
  datatype Tick = Tick(elapsed: int, duration: int, shown: Clock)

  /**
   * What `workout_timer_with_progress` reports through `progress_callback`:
   * a phase start `(exercise, phase, step_count, total_steps)`, or a
   * countdown, one call `(exercise, phase, elapsed, duration)` per tick.
   */
  datatype Event =
    | PhaseStart(what: string, phase: Phase, stepCount: int, totalSteps: int)
    | Counted(what: string, phase: Phase, ticks: seq<Tick>)

  /** How many seconds `range(duration)` counts: none when `duration` is not positive. */
  function Seconds(duration: int): nat
  {
    if duration > 0 then duration else 0
  }

  /** The ticks of a countdown of `duration` seconds. */
  function CountdownTicks(duration: int): seq<Tick>
  {
    seq(Seconds(duration), k requires 0 <= k < Seconds(duration) => Tick(k, duration, MmSs(duration - k)))
  }

  /**
   * A countdown of `duration` seconds calls back `duration` times (never when
   * it is not positive), with elapsed 0, 1, ..., duration-1 and second
   * argument `duration`; the time left it prints as MM:SS is
   * `duration - elapsed`, between 1 and `duration`, so 00:00 is never shown.
   */
  lemma CountdownShape(duration: int)
    ensures var t := CountdownTicks(duration);
            && |t| == Seconds(duration)
            && forall k :: 0 <= k < |t| ==>
                 && t[k].elapsed == k && t[k].duration == duration
                 && 1 <= duration - t[k].elapsed <= duration
                 && t[k].shown.mins * 60 + t[k].shown.secs == duration - k
                 && 0 <= t[k].shown.secs < 60
  {
    var t := CountdownTicks(duration);
    forall k | 0 <= k < |t|
      ensures t[k].shown.mins * 60 + t[k].shown.secs == duration - k && 0 <= t[k].shown.secs < 60
    {
      assert t[k].shown == MmSs(duration - k);
    }
  }

  /** `countdown_timer_with_progress(duration, ...)`: one tick per second. */
  method Countdown(duration: int) returns (ticks: seq<Tick>)
    ensures ticks == CountdownTicks(duration)
  {
    ticks := [];
    var elapsed := 0;
    while elapsed < duration
      invariant 0 <= elapsed <= Seconds(duration)
      invariant ticks == CountdownTicks(duration)[..elapsed]
    {
      var remaining := duration - elapsed;
      ticks := ticks + [Tick(elapsed, duration, MmSs(remaining))];
      elapsed := elapsed + 1;
    }
    assert ticks == CountdownTicks(duration)[..Seconds(duration)];
  }

  /** The callback arguments `(exercise, phase, elapsed, duration)` of one event, in call order. */
  function Calls(e: Event): seq<(string, Phase, int, int)>
  {
    match e
    case PhaseStart(what, phase, c, t) => [(what, phase, c, t)]
    case Counted(what, phase, ticks) =>
      seq(|ticks|, k requires 0 <= k < |ticks| => (what, phase, ticks[k].elapsed, ticks[k].duration))
  }

  /**
   * The countdown of a phase calls back with its exercise (or "Rest") and
   * phase and with `(0, d)`, `(1, d)`, ..., `(d - 1, d)`.
   */
  lemma CountedCalls(what: string, phase: Phase, duration: int)
    ensures var c := Calls(Counted(what, phase, CountdownTicks(duration)));
            && |c| == Seconds(duration)
            && forall k :: 0 <= k < |c| ==> c[k] == (what, phase, k, duration)
  {
    CountdownShape(duration);
  }

  /** The name the workout reports for a rest phase. */
  const RestLabel: string := "Rest"

  /** What the workout reports about a phase: "Rest" stands in for the exercise while resting. */
  function Label(exercises: seq<string>, s: Step): string
  {
    if s.phase == Resting || s.index >= |exercises| then RestLabel else exercises[s.index]
  }

  /**
   * The events for phases `steps` when the running `step_count` is `count`
   * once they have all started: for each phase, its start carrying the count
   * that includes it, then its countdown.
   */
  function Trace(exercises: seq<string>, steps: seq<Step>, count: int, total: int): seq<Event>
  {
    if steps == [] then []
    else
      var s := steps[|steps| - 1];
      Trace(exercises, steps[..|steps| - 1], count - s.duration, total)
        + [PhaseStart(Label(exercises, s), s.phase, count, total)]
        + [Counted(Label(exercises, s), s.phase, CountdownTicks(s.duration))]
  }

  /** Appending one phase adds its duration to the count and appends its start and its countdown. */
  lemma TraceSnoc(exercises: seq<string>, steps: seq<Step>, s: Step, count: int, total: int)
    ensures SumDur(steps + [s]) == SumDur(steps) + s.duration
    ensures Trace(exercises, steps + [s], count + s.duration, total)
            == Trace(exercises, steps, count, total)
               + [PhaseStart(Label(exercises, s), s.phase, count + s.duration, total)]
               + [Counted(Label(exercises, s), s.phase, CountdownTicks(s.duration))]
  {
    assert (steps + [s])[..|steps|] == steps;
  }

  /**
   * Every `step_count` reported at a phase start lies between the count
   * before the phases and the count after them, so within `total_steps`
   * when the phases fit in it.
   */
  lemma {:induction false} TraceCountsBounded(exercises: seq<string>, steps: seq<Step>, count: int, total: int)
    requires forall t :: t in steps ==> t.duration >= 0
    requires 0 <= count - SumDur(steps) && count <= total
    ensures forall e :: e in Trace(exercises, steps, count, total) && e.PhaseStart? ==>
              count - SumDur(steps) <= e.stepCount <= count && e.totalSteps == total
    decreases |steps|
  {
    if steps != [] {
      var init := steps[..|steps| - 1];
      var s := steps[|steps| - 1];
      assert forall t :: t in init ==> t in steps;
      assert s in steps;
      TraceCountsBounded(exercises, init, count - s.duration, total);
    }
  }

  /** How many rounds `range(1, rounds + 1)` runs: none when `rounds` is not positive. */
  function Rounds(rounds: int): nat
  {
    if rounds > 0 then rounds else 0
  }

  /**
   * `workout_timer_with_progress(exercises, work, rest, rounds, callback)`:
   * rounds 1..rounds, each exercise WORKING then, if the rest is positive,
   * RESTING; `step_count` grows by the phase length before its start is
   * reported, and every report carries `total_steps`. The events are those
   * of the phases in `Schedule` order, the final count is their total length.
   */
  method WorkoutTimerWithProgress(exercises: seq<string>, work: int, rest: int, rounds: int)
    returns (events: seq<Event>, stepCount: int)
    ensures stepCount == SumDur(Schedule(1, Rounds(rounds), |exercises|, work, rest, false))
    ensures events == Trace(exercises, Schedule(1, Rounds(rounds), |exercises|, work, rest, false), stepCount,
                            TotalSteps(|exercises|, rounds, work, rest))
  {
    var totalSteps := TotalSteps(|exercises|, rounds, work, rest);
    events, stepCount := RunRounds(exercises, work, rest, rounds, totalSteps);
  }

  /** The round loop of `workout_timer_with_progress`, once `total_steps` is known. */
  method RunRounds(exercises: seq<string>, work: int, rest: int, rounds: int, totalSteps: int)
    returns (events: seq<Event>, stepCount: int)
    ensures stepCount == SumDur(Schedule(1, Rounds(rounds), |exercises|, work, rest, false))
    ensures events == Trace(exercises, Schedule(1, Rounds(rounds), |exercises|, work, rest, false), stepCount, totalSteps)
  {
    var n := |exercises|;
    stepCount := 0;
    events := [];
    var roundNum := 1;
    while roundNum < rounds + 1
      invariant 1 <= roundNum <= Rounds(rounds) + 1
      invariant Reported(exercises, Schedule(1, roundNum - 1, n, work, rest, false), totalSteps, events, stepCount)
    {
      events, stepCount := Round(exercises, work, rest, roundNum, totalSteps, events, stepCount);
      roundNum := roundNum + 1;
    }
  }

  /** `events` and `count` are what the workout has reported once phases `steps` have run. */
  ghost predicate Reported(exercises: seq<string>, steps: seq<Step>, total: int, events: seq<Event>, count: int)
  {
    count == SumDur(steps) && events == Trace(exercises, steps, count, total)
  }

  /**
   * The events of exercise `i` of round `r` after phases `pre`: its start and
   * countdown, then, when the rest is positive, the rest's start and
   * countdown, the count growing by each phase's length.
   */
  lemma ReportExercise(exercises: seq<string>, pre: seq<Step>, r: int, i: nat, work: int, rest: int,
                       total: int, events: seq<Event>, count: int)
    requires i < |exercises|
    requires Reported(exercises, pre, total, events, count)
    ensures var post := pre + ExercisePhases(r, i, work, rest, false);
            var c := count + work;
            var afterWork := events + [PhaseStart(exercises[i], Working, c, total)]
                             + [Counted(exercises[i], Working, CountdownTicks(work))];
            if rest > 0
            then Reported(exercises, post, total,
                          afterWork + [PhaseStart(RestLabel, Resting, c + rest, total)]
                          + [Counted(RestLabel, Resting, CountdownTicks(rest))], c + rest)
            else Reported(exercises, post, total, afterWork, c)
  {
    var w := Step(r, i, Working, work);
    TraceSnoc(exercises, pre, w, count, total);
    if rest > 0 {
      var z := Step(r, i, Resting, rest);
      TraceSnoc(exercises, pre + [w], z, count + work, total);
      assert pre + [w] + [z] == pre + ExercisePhases(r, i, work, rest, false);
    } else {
      assert pre + [w] == pre + ExercisePhases(r, i, work, rest, false);
    }
  }

  /** One more exercise of a round appends its phases. */
  lemma RoundSnoc(done: seq<Step>, r: int, i: nat, work: int, rest: int)
    ensures done + RoundSteps(r, i + 1, work, rest, false)
            == done + RoundSteps(r, i, work, rest, false) + ExercisePhases(r, i, work, rest, false)
  {
  }

  /**
   * The body of the round loop of `workout_timer_with_progress`: the phases
   * of each exercise of round `roundNum`, appended to what earlier rounds
   * reported.
   */
  method Round(exercises: seq<string>, work: int, rest: int, roundNum: int, totalSteps: int,
               events0: seq<Event>, count0: int)
    returns (events: seq<Event>, stepCount: int)
    requires roundNum >= 1
    requires Reported(exercises, Schedule(1, roundNum - 1, |exercises|, work, rest, false), totalSteps, events0, count0)
    ensures Reported(exercises, Schedule(1, roundNum, |exercises|, work, rest, false), totalSteps, events, stepCount)
  {
    ghost var done := Schedule(1, roundNum - 1, |exercises|, work, rest, false);
    ScheduleSnoc(1, roundNum - 1, |exercises|, work, rest, false);
    events, stepCount := events0, count0;
    assert done + RoundSteps(roundNum, 0, work, rest, false) == done;
    var i := 0;
    while i < |exercises|
      invariant 0 <= i <= |exercises|
      invariant Reported(exercises, done + RoundSteps(roundNum, i, work, rest, false), totalSteps, events, stepCount)
    {
      ReportExercise(exercises, done + RoundSteps(roundNum, i, work, rest, false), roundNum, i, work, rest,
                     totalSteps, events, stepCount);
      RoundSnoc(done, roundNum, i, work, rest);
      var exercise := exercises[i];
      stepCount := stepCount + work;
      events := events + [PhaseStart(exercise, Working, stepCount, totalSteps)];
      var ticks := Countdown(work);
      events := events + [Counted(exercise, Working, ticks)];
      if rest > 0 {
        stepCount := stepCount + rest;
        events := events + [PhaseStart(RestLabel, Resting, stepCount, totalSteps)];
        ticks := Countdown(rest);
        events := events + [Counted(RestLabel, Resting, ticks)];
      }
      i := i + 1;
    }
  }

  /**
   * With non-negative durations the final `step_count` is `total_steps`, and
   * every `step_count` the workout reports lies between 0 and `total_steps`,
   * so the progress fraction stays within 0..1.
   */
  lemma WorkoutProgress(exercises: seq<string>, work: int, rest: int, rounds: int)
    requires work >= 0 && rest >= 0
    ensures var steps := Schedule(1, Rounds(rounds), |exercises|, work, rest, false);
            var total := TotalSteps(|exercises|, rounds, work, rest);
            && (rounds >= 0 ==> SumDur(steps) == total)
            && forall e :: e in Trace(exercises, steps, SumDur(steps), total) && e.PhaseStart? ==>
                 0 <= e.stepCount <= total && e.totalSteps == total
  {
    var steps := Schedule(1, Rounds(rounds), |exercises|, work, rest, false);
    var total := TotalSteps(|exercises|, rounds, work, rest);
    ScheduleFacts(1, Rounds(rounds), |exercises|, work, rest, false);
    if rounds > 0 {
      ScheduleStepsInRange(1, Rounds(rounds), |exercises|, work, rest, false);
      TraceCountsBounded(exercises, steps, SumDur(steps), total);
    }
  }
}
