/**
 * The Tk countdown of utils/workout_timer.py (`run_timer_with_gui`) and its
 * older copy in workout_generator.py. The closures `update_timer`,
 * `start_work`, `start_rest` and `next_exercise` become methods of one run
 * object; the callback that `frame.after` would fire a second later is the
 * field `scheduled`, and firing it is `Tick`. The older copy numbers rounds
 * from 0 and resumes without checking for a stored update (`legacy`).
 */
module TkTimer {
  import opened Common
  import opened Phases

  /** `next_action`: start the rest after exercise `index`, or go on with `next_exercise(round, index)`. */
  datatype Continuation = RestThen(round: int, index: nat) | Advance(round: int, index: nat)

  /** The arguments of one `update_timer(...)` call. */
  datatype Update = Update(remaining: int, round: int, phase: Phase, exercise: string, link: Option<string>,
                           elapsed: int, total: int, next: Continuation)

  /** Where the run is: counting down, past "Workout Complete!", or stopped by an exception. */
  datatype Status = Running | Complete | Crashed

  /** The state a call starts from: the updates shown, the phases begun, `step_count` and the current phase. */
  datatype Snapshot = Snapshot(shown: seq<Update>, begun: seq<Step>, count: int, phase: Step)

  /** The first round: `next_exercise(1, 0)`, or `next_exercise(0, 0)` in the older copy. */
  function Base(legacy: bool): int
  {
    if legacy then 0 else 1
  }

  /** `next_exercise` starts another round while the round is below this bound. */
  function LastRound(legacy: bool, rounds: int): int
  {
    if legacy then rounds - 1 else rounds
  }

  /** The last round that actually runs: the first round always does. */
  function Final(legacy: bool, rounds: int): (f: int)
    ensures f >= Base(legacy) && f >= LastRound(legacy, rounds)
    ensures f == Base(legacy) || f == LastRound(legacy, rounds)
  {
    if LastRound(legacy, rounds) > Base(legacy) then LastRound(legacy, rounds) else Base(legacy)
  }

  /** How many rounds run: `rounds`, but at least one. */
  function RoundsRun(rounds: int): nat
  {
    if rounds > 1 then rounds else 1
  }

  lemma FinalCountsRounds(legacy: bool, rounds: int)
    ensures Final(legacy, rounds) - Base(legacy) + 1 == RoundsRun(rounds)
  {
  }

  /** Every phase the run goes through, in order: a rest follows every exercise, even a rest of length 0. */
  function Plan(legacy: bool, n: nat, work: int, rest: int, rounds: int): seq<Step>
  {
    Schedule(Base(legacy), RoundsRun(rounds), n, work, rest, true)
  }

  /** The phases started before exercise `i` of round `r`. */
  function Prefix(legacy: bool, n: nat, work: int, rest: int, r: int, i: nat): seq<Step>
    requires r >= Base(legacy)
  {
    Schedule(Base(legacy), r - Base(legacy), n, work, rest, true) + RoundSteps(r, i, work, rest, true)
  }

  /** What runs when a phase's countdown reaches 0. */
  function NextOf(s: Step): Continuation
  {
    if s.phase == Working then RestThen(s.round, s.index) else Advance(s.round, s.index + 1)
  }

  /** The `k`-th `update_timer` call of phase `s`: `remaining` counts down as `elapsed` counts up. */
  function UpdateAt(exercises: seq<Entry>, s: Step, k: int): Update
  {
    if s.phase == Working && s.index < |exercises| then
      Update(s.duration - k, s.round, Working, exercises[s.index].name, exercises[s.index].link, k, s.duration, NextOf(s))
    else
      Update(s.duration - k, s.round, s.phase, "Rest", None, k, s.duration, NextOf(s))
  }

  /** Number of updates of a phase of length `d`: `d + 1`, or one when `d` is not positive. */
  function Len(d: int): nat
  {
    if d > 0 then d + 1 else 1
  }

  /** All updates of phase `s`, in order. */
  function PhaseUpdates(exercises: seq<Entry>, s: Step): (r: seq<Update>)
    ensures |r| == Len(s.duration)
  {
    seq(Len(s.duration), k => UpdateAt(exercises, s, k))
  }

  /**
   * A phase of length `d` shows (d, 0), (d-1, 1), ..., (0, d):
   * `remaining + elapsed == total` throughout, and only the last update has
   * reached 0, so `next_action` runs once, at the end of the phase.
   */
  lemma PhaseCountsDown(exercises: seq<Entry>, s: Step)
    ensures var r := PhaseUpdates(exercises, s);
            && (s.duration >= 0 ==> |r| == s.duration + 1)
            && (forall k :: 0 <= k < |r| ==>
                  r[k].elapsed == k && r[k].remaining + r[k].elapsed == r[k].total == s.duration
                  && r[k].round == s.round && r[k].phase == s.phase && r[k].next == NextOf(s))
            && (forall k :: 0 <= k < |r| ==> (r[k].remaining > 0 <==> k < |r| - 1))
  {
  }

  /** Every update shown for the phases `steps`, in order. */
  function Expected(exercises: seq<Entry>, steps: seq<Step>): seq<Update>
  {
    if steps == [] then []
    else Expected(exercises, steps[..|steps| - 1]) + PhaseUpdates(exercises, steps[|steps| - 1])
  }

  /** No phase of `steps` has length 0: none of them made `update_timer` divide by zero. */
  predicate NoZeroLength(steps: seq<Step>)
  {
    steps == [] || (NoZeroLength(steps[..|steps| - 1]) && steps[|steps| - 1].duration != 0)
  }

  lemma NoZeroLengthSnoc(steps: seq<Step>, s: Step)
    ensures NoZeroLength(steps + [s]) <==> NoZeroLength(steps) && s.duration != 0
  {
    assert (steps + [s])[..|steps|] == steps;
  }

  lemma {:induction false} NoZeroLengthMember(steps: seq<Step>, s: Step)
    requires NoZeroLength(steps) && s in steps
    ensures s.duration != 0
    decreases |steps|
  {
    if s != steps[|steps| - 1] {
      assert s in steps[..|steps| - 1];
      NoZeroLengthMember(steps[..|steps| - 1], s);
    }
  }

  lemma ExpectedSnoc(exercises: seq<Entry>, steps: seq<Step>, s: Step)
    ensures Expected(exercises, steps + [s]) == Expected(exercises, steps) + PhaseUpdates(exercises, s)
  {
    assert (steps + [s])[..|steps + [s]| - 1] == steps;
  }

  lemma UpdatesSnoc(exercises: seq<Entry>, s: Step, k: nat)
    requires k < Len(s.duration)
    ensures PhaseUpdates(exercises, s)[..k] + [UpdateAt(exercises, s, k)] == PhaseUpdates(exercises, s)[..k + 1]
  {
  }

  lemma PrefixStep(legacy: bool, n: nat, work: int, rest: int, r: int, i: nat)
    requires r >= Base(legacy)
    ensures Prefix(legacy, n, work, rest, r, i) + [Step(r, i, Working, work)] + [Step(r, i, Resting, rest)]
            == Prefix(legacy, n, work, rest, r, i + 1)
  {
    assert RoundSteps(r, i + 1, work, rest, true)
        == RoundSteps(r, i, work, rest, true) + [Step(r, i, Working, work), Step(r, i, Resting, rest)];
  }

  lemma PrefixNextRound(legacy: bool, n: nat, work: int, rest: int, r: int)
    requires r >= Base(legacy)
    ensures Prefix(legacy, n, work, rest, r, n) == Prefix(legacy, n, work, rest, r + 1, 0)
  {
    assert Schedule(Base(legacy), r + 1 - Base(legacy), n, work, rest, true)
        == Schedule(Base(legacy), r - Base(legacy), n, work, rest, true) + RoundSteps(r, n, work, rest, true);
  }

  lemma PlanIsLastPrefix(legacy: bool, n: nat, work: int, rest: int, rounds: int)
    ensures Plan(legacy, n, work, rest, rounds) == Prefix(legacy, n, work, rest, Final(legacy, rounds), n)
  {
    FinalCountsRounds(legacy, rounds);
    PrefixNextRound(legacy, n, work, rest, Final(legacy, rounds));
    assert RoundSteps(Final(legacy, rounds) + 1, 0, work, rest, true) == [];
  }

  /**
   * One run of `run_timer_with_gui(exercises, work, rest, rounds)`:
   * `step_count` and `total_steps`, the `paused` flag and stored
   * `pause_event` of the window object, and the callback pending in
   * `frame.after`. `displayed` records every `update_timer` call that got
   * past the pause check and updated the labels; `started` and `cur` are
   * the phases begun so far and the current one.
   */
  class WorkoutRun {
    const legacy: bool
    const exercises: seq<Entry>
    const work: int
    const rest: int
    const rounds: int
    const totalSteps: int
    var stepCount: int
    var paused: bool
    var pauseEvent: Option<Update>
    var scheduled: Option<Update>
    var status: Status
    var displayed: seq<Update>
    ghost var started: seq<Step>
    ghost var cur: Step

    function N(): nat { |exercises| }

    ghost function Before(c: Step): seq<Step>
      requires c.round >= Base(legacy)
    {
      Prefix(legacy, N(), work, rest, c.round, c.index)
        + (if c.phase == Resting then [Step(c.round, c.index, Working, work)] else [])
    }

    /** `c` is a phase of this run: a round that runs, an exercise of the list, the phase's own length. */
    ghost predicate IsPhase(c: Step)
    {
      Base(legacy) <= c.round <= Final(legacy, rounds) && c.index < N()
      && c.duration == (if c.phase == Working then work else rest)
    }

    /** The update waiting to run: the one `frame.after` will fire, or the one stored by a pause. */
    function Pending(): Option<Update>
      reads this`scheduled, this`pauseEvent
    {
      if scheduled.Some? then scheduled else pauseEvent
    }

    /**
     * The state between two events, apart from what a resume has not yet
     * cleared: while running, the phases begun are the plan up to `cur`,
     * exactly one update is pending and it is the next one of `cur`, and the
     * updates shown are those of every earlier phase followed by the first
     * ones of `cur`.
     */
    ghost predicate Consistent()
      reads this
    {
      && stepCount == SumDur(started)
      && (status == Running ==>
            && (if paused then scheduled.Some? != pauseEvent.Some? else scheduled.Some?)
            && Pending().Some? && At(Pending().value)
            && cur.duration != 0 && totalSteps != 0)
      && (status == Complete ==>
            && started == Plan(legacy, N(), work, rest, rounds)
            && NoZeroLength(started)
            && displayed == Expected(exercises, started) && scheduled.None?)
      && (status == Crashed ==>
            && IsPhase(cur) && started == Before(cur) + [cur]
            && NoZeroLength(Before(cur))
            && (cur.duration == 0 || totalSteps == 0)
            && displayed == Expected(exercises, Before(cur)) + [UpdateAt(exercises, cur, 0)]
            && scheduled.None?)
    }

    /**
     * `u` is the next update of the current phase `cur`: the phases begun
     * are the plan up to `cur`, and the updates shown are those of every
     * earlier phase followed by the ones of `cur` before `u`.
     */
    ghost predicate At(u: Update)
      reads this`cur, this`started, this`displayed
    {
      && IsPhase(cur) && started == Before(cur) + [cur]
      && NoZeroLength(Before(cur))
      && 0 <= u.elapsed < Len(cur.duration) && u == UpdateAt(exercises, cur, u.elapsed)
      && displayed == Expected(exercises, Before(cur)) + PhaseUpdates(exercises, cur)[..u.elapsed]
    }

    /** The state between two events: a consistent run that stores an update only while paused. */
    ghost predicate Valid()
      reads this
    {
      && totalSteps == TotalSteps(N(), rounds, work, rest)
      && Consistent()
      && (status == Running && !paused ==> pauseEvent.None?)
      && (status == Complete ==> pauseEvent.None?)
    }

    /** Inside the synchronous chain, between two phases: nothing pending, everything begun shown in full. */
    ghost predicate Ready()
      reads this
    {
      && stepCount == SumDur(started)
      && status == Running && scheduled.None? && !paused
      && displayed == Expected(exercises, started)
      && NoZeroLength(started)
      && (started != [] ==> totalSteps != 0)
    }

    function RoundsLeft(r: int): nat
    {
      if Final(legacy, rounds) + 1 - r >= 0 then Final(legacy, rounds) + 1 - r else 0
    }

    function Key(c: Continuation): int
    {
      match c
      case RestThen(_, i) => N() - i
      case Advance(_, i) => N() - i + 1
    }

    function Rank(c: Continuation): nat
    {
      if c.RestThen? then 4 else 1
    }

    /** What `next_action` `c` needs to find when it runs. */
    ghost predicate CanRun(c: Continuation)
      reads this`started
    {
      match c
      case RestThen(r, i) =>
        Base(legacy) <= r <= Final(legacy, rounds) && i < N()
        && started == Prefix(legacy, N(), work, rest, r, i) + [Step(r, i, Working, work)]
      case Advance(r, i) =>
        Base(legacy) <= r <= Final(legacy, rounds) && i <= N()
        && started == Prefix(legacy, N(), work, rest, r, i)
    }

    /**
     * The work phase `next_exercise(r, i)` starts: exercise `i` of round `r`,
     * else the first exercise of the next round, else none (complete).
     */
    function NextStart(r: int, i: nat): Option<Step>
    {
      if i < N() then Some(Step(r, i, Working, work))
      else if r < LastRound(legacy, rounds) && N() > 0 then Some(Step(r + 1, 0, Working, work))
      else None
    }

    /** The phase `next_action` `c` starts, or None when it completes the workout. */
    function Starts(c: Continuation): Option<Step>
    {
      match c
      case RestThen(r, i) => Some(Step(r, i, Resting, rest))
      case Advance(r, i) => NextStart(r, i)
    }

    /**
     * Since `before`, phase `s` has begun: its length is counted, its first
     * update shown and its second scheduled, or the run failed on that first
     * update.
     */
    ghost predicate Begun(s: Step, before: Snapshot)
      reads `status, `scheduled, `paused, `displayed, `stepCount, `started, `cur
    {
      && started == before.begun + [s] && cur == s && !paused
      && stepCount == before.count + s.duration
      && displayed == before.shown + [UpdateAt(exercises, s, 0)]
      && if s.duration == 0 || totalSteps == 0 then status == Crashed && scheduled.None?
         else status == Running && scheduled == Some(UpdateAt(exercises, s, 1))
    }

    /**
     * Since `before`, `next_action` `c` has run: the phase it starts has
     * begun, or the workout is complete. (A phase of negative length would
     * run on at once; nothing is said then.)
     */
    ghost predicate Continued(c: Continuation, before: Snapshot)
      reads `status, `scheduled, `paused, `displayed, `stepCount, `started, `cur
    {
      match Starts(c)
      case None =>
        && status == Complete && scheduled.None? && !paused
        && displayed == before.shown && stepCount == before.count && started == before.begun
      case Some(s) => s.duration >= 0 ==> Begun(s, before)
    }

    /**
     * Since `before`, update `u` has been shown: the run failed on it, or
     * the next second of the same phase is scheduled, or at 0 its
     * `next_action` has run.
     */
    ghost predicate Showed(u: Update, before: Snapshot)
      reads `status, `scheduled, `paused, `displayed, `stepCount, `started, `cur
    {
      if u.total == 0 || totalSteps == 0 then
        && status == Crashed && scheduled.None? && !paused
        && displayed == before.shown + [u] && stepCount == before.count && started == before.begun
      else if u.remaining > 0 then
        && status == Running && !paused
        && scheduled == Some(u.(remaining := u.remaining - 1, elapsed := u.elapsed + 1))
        && displayed == before.shown + [u] && stepCount == before.count && started == before.begun
        && cur == before.phase
      else
        Continued(u.next, before.(shown := before.shown + [u]))
    }

    /** `run_timer_with_gui(...)`: set up the counters and call `next_exercise` on the first round. */
    constructor (legacy: bool, exercises: seq<Entry>, work: int, rest: int, rounds: int)
      ensures Valid() && !paused && pauseEvent.None?
      ensures this.legacy == legacy && this.exercises == exercises
      ensures this.work == work && this.rest == rest && this.rounds == rounds
      ensures totalSteps == |exercises| * rounds * (work + rest)
      ensures exercises == [] ==> status == Complete && displayed == [] && stepCount == 0
      ensures exercises != [] && work >= 0 ==>
                var first := Step(Base(legacy), 0, Working, work);
                && started == [first] && cur == first && stepCount == work
                && displayed == [UpdateAt(exercises, first, 0)]
                && if work == 0 || totalSteps == 0 then status == Crashed && scheduled.None?
                   else status == Running && scheduled == Some(UpdateAt(exercises, first, 1))
    {
      this.legacy := legacy;
      this.exercises := exercises;
      this.work := work;
      this.rest := rest;
      this.rounds := rounds;
      totalSteps := |exercises| * rounds * (work + rest);
      stepCount := 0;
      paused := false;
      pauseEvent := None;
      scheduled := None;
      status := Running;
      displayed := [];
      started := [];
      new;
      TotalStepsIsProduct(|exercises|, rounds, work, rest);
      assert Prefix(legacy, |exercises|, work, rest, Base(legacy), 0) == [];
      NextExercise(Base(legacy), 0);
    }

    /** `frame.after` fires: the pending update runs. */
    method Tick()
      requires Valid() && status == Running && scheduled.Some?
      modifies this
      ensures Valid() && paused == old(paused)
      ensures old(paused) ==> pauseEvent == old(scheduled) && scheduled.None? && status == Running
                              && displayed == old(displayed) && stepCount == old(stepCount)
      ensures !old(paused) ==> pauseEvent == old(pauseEvent)
      ensures !old(paused) ==> Showed(old(scheduled).value, Snapshot(old(displayed), old(started), old(stepCount), old(cur)))
    {
      var u := scheduled.value;
      scheduled := None;
      UpdateTimer(u);
    }

    /**
     * `toggle_pause()`: flip the flag; on resume run the stored update and
     * clear it. The older copy calls the stored update without checking it,
     * so resuming with nothing stored raises.
     */
    method TogglePause() returns (raised: bool)
      requires Valid()
      modifies this
      ensures Valid() && paused == !old(paused)
      ensures !old(paused) ==> !raised && status == old(status) && pauseEvent == old(pauseEvent)
                               && scheduled == old(scheduled) && displayed == old(displayed)
                               && stepCount == old(stepCount) && started == old(started) && cur == old(cur)
      ensures old(paused) && old(pauseEvent).None? ==>
                (raised <==> legacy) && status == old(status) && scheduled == old(scheduled)
                && pauseEvent == old(pauseEvent) && displayed == old(displayed) && stepCount == old(stepCount)
      ensures old(paused) && old(status) == Running && old(pauseEvent).Some? ==>
                !raised && Showed(old(pauseEvent).value, Snapshot(old(displayed), old(started), old(stepCount), old(cur)))
                && pauseEvent == (if status == Crashed then old(pauseEvent) else None)
      ensures old(paused) && old(status) != Running && old(pauseEvent).Some? ==>
                raised && status == old(status) && pauseEvent == old(pauseEvent)
                && scheduled == old(scheduled) && displayed == old(displayed) && stepCount == old(stepCount)
    {
      raised := false;
      paused := !paused;
      if !paused {
        if pauseEvent.Some? {
          if status == Running {
            RunStored();
          } else {
            // After a failure the stored update is not cleared; running it
            // again fails again at the same zero-length phase.
            raised := true;
          }
        } else if legacy {
          raised := true;
        }
      }
    }

    /** On resume: run the stored `update_timer(...)` call, and clear it unless it raised. */
    method RunStored()
      requires totalSteps == TotalSteps(N(), rounds, work, rest) && !paused && pauseEvent.Some?
      requires stepCount == SumDur(started)
      requires status == Running && scheduled.None?
      requires At(pauseEvent.value) && cur.duration != 0 && totalSteps != 0
      modifies this
      ensures Valid() && !paused
      ensures Showed(old(pauseEvent).value, Snapshot(old(displayed), old(started), old(stepCount), old(cur)))
      ensures pauseEvent == if status == Crashed then old(pauseEvent) else None
    {
      var u := pauseEvent.value;
      UpdateTimer(u);
      if status != Crashed {
        pauseEvent := None;
        if status == Running { RunningOk(); } else { CompleteOk(); }
      }
    }

    /** `update_timer(...)`: store the call while paused, otherwise show it. */
    method UpdateTimer(u: Update)
      requires stepCount == SumDur(started)
      requires status == Running && scheduled.None?
      requires At(u) && (Before(cur) != [] ==> totalSteps != 0)
      requires u.elapsed > 0 ==> totalSteps != 0
      requires paused ==> pauseEvent.None? && cur.duration != 0 && totalSteps != 0
      modifies this
      ensures Consistent() && paused == old(paused)
      ensures old(paused) ==> pauseEvent == Some(u) && scheduled.None? && status == Running
                              && displayed == old(displayed) && stepCount == old(stepCount)
      ensures !old(paused) ==> pauseEvent == old(pauseEvent) && Showed(u, Snapshot(old(displayed), old(started), old(stepCount), old(cur)))
      decreases RoundsLeft(u.next.round), Key(u.next), Rank(u.next), 1
    {
      if paused {
        pauseEvent := Some(u);
        RunningOk();
        return;
      }
      Show(u);
    }

    /**
     * The rest of `update_timer(...)` once not paused: update the labels and
     * both progress bars, then schedule the next second while `remaining`
     * is positive, else run `next_action`. Both progress fractions divide,
     * so a phase of length 0, or a workout whose `total_steps` is 0, fails
     * here.
     */
    method Show(u: Update)
      requires stepCount == SumDur(started)
      requires status == Running && scheduled.None? && !paused
      requires At(u) && (Before(cur) != [] ==> totalSteps != 0)
      requires u.elapsed > 0 ==> totalSteps != 0
      modifies this
      ensures Consistent() && !paused
      ensures pauseEvent == old(pauseEvent) && Showed(u, Snapshot(old(displayed), old(started), old(stepCount), old(cur)))
      decreases RoundsLeft(u.next.round), Key(u.next), Rank(u.next), 0
    {
      ShowsNext(u);
      displayed := displayed + [u];
      if u.total == 0 || totalSteps == 0 {
        status := Crashed;
        CrashedOk();
        return;
      }
      if u.remaining > 0 {
        scheduled := Some(u.(remaining := u.remaining - 1, elapsed := u.elapsed + 1));
        RunningOk();
      } else {
        PhaseDone();
        assert started == old(started) && stepCount == old(stepCount) && cur == old(cur);
        RunNext(u.next);
      }
    }

    /**
     * Showing the next update `u` of `cur` extends the updates shown by `u`;
     * the update scheduled after it is the following one of `cur`, and when
     * none is left `cur` has been shown in full.
     */
    lemma ShowsNext(u: Update)
      requires At(u)
      ensures displayed + [u] == Expected(exercises, Before(cur)) + PhaseUpdates(exercises, cur)[..u.elapsed + 1]
      ensures u.remaining > 0 ==>
                && u.elapsed + 1 < Len(cur.duration)
                && u.(remaining := u.remaining - 1, elapsed := u.elapsed + 1) == UpdateAt(exercises, cur, u.elapsed + 1)
      ensures u.remaining <= 0 ==> u.elapsed + 1 == Len(cur.duration)
    {
      UpdatesSnoc(exercises, cur, u.elapsed);
    }

    /** A running state whose one pending update is the next of `cur` is consistent. */
    lemma RunningOk()
      requires stepCount == SumDur(started)
      requires status == Running && cur.duration != 0 && totalSteps != 0
      requires if paused then scheduled.Some? != pauseEvent.Some? else scheduled.Some?
      requires At(Pending().value)
      ensures Consistent()
    {
    }

    /** A run stopped by the first update of a zero-length phase, or of a zero-length workout, is consistent. */
    lemma CrashedOk()
      requires stepCount == SumDur(started)
      requires status == Crashed && scheduled.None? && (cur.duration == 0 || totalSteps == 0)
      requires IsPhase(cur) && started == Before(cur) + [cur]
      requires NoZeroLength(Before(cur))
      requires displayed == Expected(exercises, Before(cur)) + PhaseUpdates(exercises, cur)[..1]
      ensures Consistent()
    {
      assert PhaseUpdates(exercises, cur)[..1] == [UpdateAt(exercises, cur, 0)];
    }

    /** With the whole plan begun and shown and nothing pending, a complete run is consistent. */
    lemma CompleteOk()
      requires stepCount == SumDur(started)
      requires status == Complete && scheduled.None?
      requires started == Plan(legacy, N(), work, rest, rounds) && NoZeroLength(started)
      requires displayed == Expected(exercises, started)
      ensures Consistent()
    {
    }

    /** When the last update of `cur` has been shown, its `next_action` may run. */
    lemma PhaseDone()
      requires stepCount == SumDur(started)
      requires status == Running && scheduled.None? && !paused && totalSteps != 0
      requires IsPhase(cur) && started == Before(cur) + [cur] && cur.duration != 0
      requires NoZeroLength(Before(cur))
      requires displayed == Expected(exercises, Before(cur)) + PhaseUpdates(exercises, cur)[..Len(cur.duration)]
      ensures Ready() && CanRun(NextOf(cur))
    {
      assert PhaseUpdates(exercises, cur)[..Len(cur.duration)] == PhaseUpdates(exercises, cur);
      ExpectedSnoc(exercises, Before(cur), cur);
      NoZeroLengthSnoc(Before(cur), cur);
      if cur.phase == Resting {
        PrefixStep(legacy, N(), work, rest, cur.round, cur.index);
      }
    }

    /** Run a `next_action`. */
    method RunNext(c: Continuation)
      requires Ready() && CanRun(c)
      modifies this
      ensures Consistent() && !paused && pauseEvent == old(pauseEvent) && Continued(c, Snapshot(old(displayed), old(started), old(stepCount), old(cur)))
      decreases RoundsLeft(c.round), Key(c), Rank(c) - 1, 0
    {
      match c
      case RestThen(r, i) => StartRest(r, i);
      case Advance(r, i) => NextExercise(r, i);
    }

    /** `start_work(...)`: count the whole work phase, then show its first second. */
    method StartWork(r: int, i: nat)
      requires Ready() && Base(legacy) <= r <= Final(legacy, rounds) && i < N()
      requires started == Prefix(legacy, N(), work, rest, r, i)
      modifies this
      ensures Consistent() && !paused && pauseEvent == old(pauseEvent)
      ensures work >= 0 ==> Begun(Step(r, i, Working, work), Snapshot(old(displayed), old(started), old(stepCount), old(cur)))
      decreases RoundsLeft(r), N() - i, 5, 0
    {
      var phase := Step(r, i, Working, work);
      stepCount := stepCount + work;
      started := started + [phase];
      cur := phase;
      var u := UpdateAt(exercises, phase, 0);
      assert u.total == work && u.remaining == work;
      UpdateTimer(u);
      if work > 0 && totalSteps != 0 {
        assert u.(remaining := u.remaining - 1, elapsed := u.elapsed + 1) == UpdateAt(exercises, phase, 1);
      }
    }

    /** `start_rest(...)`: count the whole rest phase, then show its first second. */
    method StartRest(r: int, i: nat)
      requires Ready() && Base(legacy) <= r <= Final(legacy, rounds) && i < N()
      requires started == Prefix(legacy, N(), work, rest, r, i) + [Step(r, i, Working, work)]
      modifies this
      ensures Consistent() && !paused && pauseEvent == old(pauseEvent)
      ensures rest >= 0 ==> Begun(Step(r, i, Resting, rest), Snapshot(old(displayed), old(started), old(stepCount), old(cur)))
      decreases RoundsLeft(r), N() - i, 2, 0
    {
      var phase := Step(r, i, Resting, rest);
      stepCount := stepCount + rest;
      started := started + [phase];
      cur := phase;
      var u := UpdateAt(exercises, phase, 0);
      assert u.total == rest && u.remaining == rest;
      UpdateTimer(u);
      if rest > 0 && totalSteps != 0 {
        assert u.(remaining := u.remaining - 1, elapsed := u.elapsed + 1) == UpdateAt(exercises, phase, 1);
      }
    }

    /** `next_exercise(round, index)`: the next exercise, else the next round, else "Workout Complete!". */
    method NextExercise(r: int, i: nat)
      requires Ready() && Base(legacy) <= r <= Final(legacy, rounds) && i <= N()
      requires started == Prefix(legacy, N(), work, rest, r, i)
      modifies this
      ensures Consistent() && !paused && pauseEvent == old(pauseEvent) && Continued(Advance(r, i), Snapshot(old(displayed), old(started), old(stepCount), old(cur)))
      decreases RoundsLeft(r), N() - i, 6, 0
    {
      if i < N() {
        assert Starts(Advance(r, i)) == Some(Step(r, i, Working, work));
        StartWork(r, i);
      } else if r < LastRound(legacy, rounds) {
        assert Starts(Advance(r, i)) == Starts(Advance(r + 1, 0));
        PrefixNextRound(legacy, N(), work, rest, r);
        NextExercise(r + 1, 0);
      } else {
        assert Starts(Advance(r, i)) == None;
        PlanIsLastPrefix(legacy, N(), work, rest, rounds);
        assert r == Final(legacy, rounds);
        status := Complete;
        CompleteOk();
      }
    }
  }

  /** The phases begun before any exercise of a round that runs are a prefix of the plan. */
  lemma PrefixInPlan(legacy: bool, n: nat, work: int, rest: int, rounds: int, r: int, i: nat)
    requires Base(legacy) <= r <= Final(legacy, rounds) && i <= n
    ensures Prefix(legacy, n, work, rest, r, i) <= Plan(legacy, n, work, rest, rounds)
  {
    var b := Base(legacy);
    var done := Schedule(b, r - b, n, work, rest, true);
    var next := Schedule(b, r + 1 - b, n, work, rest, true);
    RoundStepsGrow(r, i, n, work, rest, true);
    PrefixNextRound(legacy, n, work, rest, r);
    assert Prefix(legacy, n, work, rest, r + 1, 0) == next + [];
    assert Prefix(legacy, n, work, rest, r, i) <= next by {
      PrefixConcat(done, RoundSteps(r, i, work, rest, true), RoundSteps(r, n, work, rest, true));
    }
    FinalCountsRounds(legacy, rounds);
    ScheduleGrows(b, r + 1 - b, RoundsRun(rounds), n, work, rest, true);
  }

  /** Extending the tail of a sequence extends the whole. */
  lemma PrefixConcat(a: seq<Step>, x: seq<Step>, y: seq<Step>)
    requires x <= y
    ensures a + x <= a + y
  {
    assert (a + y)[..|a + x|] == a + x;
  }

  /** The phases a run has begun are always a prefix of its plan. */
  lemma StartedInPlan(run: WorkoutRun)
    requires run.Valid()
    ensures run.started <= Plan(run.legacy, |run.exercises|, run.work, run.rest, run.rounds)
  {
    if run.status != Complete {
      var c := run.cur;
      var n := |run.exercises|;
      PrefixInPlan(run.legacy, n, run.work, run.rest, run.rounds, c.round, c.index + 1);
      PrefixStep(run.legacy, n, run.work, run.rest, c.round, c.index);
    }
  }

  /**
   * `step_count` never exceeds `total_steps` (with durations that are not
   * negative and at least one round), and equals it once the workout is
   * complete.
   */
  lemma StepCountWithinTotal(run: WorkoutRun)
    requires run.Valid() && run.work >= 0 && run.rest >= 0 && run.rounds >= 1
    ensures 0 <= run.stepCount <= run.totalSteps
    ensures run.status == Complete ==> run.stepCount == run.totalSteps
  {
    var n := |run.exercises|;
    var plan := Plan(run.legacy, n, run.work, run.rest, run.rounds);
    StartedInPlan(run);
    ScheduleStepsInRange(Base(run.legacy), RoundsRun(run.rounds), n, run.work, run.rest, true);
    ScheduleFacts(Base(run.legacy), RoundsRun(run.rounds), n, run.work, run.rest, true);
    assert plan[..|run.started|] == run.started;
    PrefixSumBound(plan, |run.started|);
    assert forall t :: t in run.started ==> t in plan;
    PrefixSumBound(run.started, 0);
  }

  /**
   * A workout with at least one exercise and a work or rest length of 0
   * never completes: the first phase of length 0 divides by zero.
   */
  lemma ZeroLengthNeverCompletes(run: WorkoutRun)
    requires run.Valid() && |run.exercises| > 0 && (run.work == 0 || run.rest == 0)
    ensures run.status != Complete
  {
    var n := |run.exercises|;
    var b := Base(run.legacy);
    assert RoundSteps(b, n, run.work, run.rest, true)
        == RoundSteps(b, n - 1, run.work, run.rest, true)
           + [Step(b, n - 1, Working, run.work), Step(b, n - 1, Resting, run.rest)];
    ScheduleGrows(b, 1, RoundsRun(run.rounds), n, run.work, run.rest, true);
    assert Schedule(b, 1, n, run.work, run.rest, true) == RoundSteps(b, n, run.work, run.rest, true);
    var z := if run.work == 0 then Step(b, n - 1, Working, run.work) else Step(b, n - 1, Resting, run.rest);
    assert z in Schedule(b, 1, n, run.work, run.rest, true);
    assert z in Plan(run.legacy, n, run.work, run.rest, run.rounds);
    if run.status == Complete {
      NoZeroLengthMember(run.started, z);
    }
  }

  /** The older copy runs the same phases, each with its round number one lower. */
  lemma LegacyPlanIsShifted(n: nat, work: int, rest: int, rounds: int)
    ensures Plan(true, n, work, rest, rounds) == Shift(Plan(false, n, work, rest, rounds), -1)
  {
    ScheduleShift(1, -1, RoundsRun(rounds), n, work, rest, true);
  }

  /**
   * The plan: `rounds` rounds (at least one), numbered from the first round,
   * of every exercise WORKING then RESTING, the rest included even when
   * its length is 0, and `total_steps` seconds in all.
   */
  lemma PlanShape(legacy: bool, n: nat, work: int, rest: int, rounds: int)
    requires rest >= 0
    ensures var p := Plan(legacy, n, work, rest, rounds);
            && |p| == RoundsRun(rounds) * (n * 2)
            && CountPhase(p, Working) == RoundsRun(rounds) * n
            && CountPhase(p, Resting) == RoundsRun(rounds) * n
            && SumDur(p) == TotalSteps(n, RoundsRun(rounds), work, rest)
            && forall s :: s in p ==>
                 Base(legacy) <= s.round <= Final(legacy, rounds) && s.index < n
                 && s.duration == (if s.phase == Working then work else rest)
  {
    ScheduleFacts(Base(legacy), RoundsRun(rounds), n, work, rest, true);
    ScheduleStepsInRange(Base(legacy), RoundsRun(rounds), n, work, rest, true);
    FinalCountsRounds(legacy, rounds);
  }
}
