/**
 Timing told by the steps of a trace alone: what a task is joined with is what its own
 steps did, and starts keep their distance from finishes and from each other.
 */
module StepTiming {
  import opened Wrappers
  import opened Domain
  import opened Durations
  import opened SchedulerStates
  import opened Worlds
  import opened Exclusion
  import opened Drain

  // What a task leaves its run with.

  lemma TickKeepsTask(w: World, s: Step, t: TaskId)
    requires AllTracked(w) && s.Tick? && Enabled(w, s) && t in w.tasks
    ensures t in Apply(w, s).tasks && Apply(w, s).tasks[t] == w.tasks[t]
  {
    SpawnedAreNew(w, s.now);
  }

  /** The phase of a task that has just taken this step. */
  ghost predicate Explains(s: Step, t: TaskId, phase: Phase) {
    match phase
    case Executing => s.Tick?
    case Recorded(ok) => s.Record? && s.task == t && s.ok == ok
    case Finished(at, _) => s == Finish(t, at)
    case Panicked => s == Panic(t)
  }

  /** A task that is in a phase after a step was in it before, or the step has put it there. */
  lemma PhaseHasCause(w: World, s: Step, t: TaskId)
    requires AllTracked(w) && Enabled(w, s) && t in Apply(w, s).tasks
    ensures var phase := Apply(w, s).tasks[t].phase;
            (t in w.tasks && w.tasks[t].phase == phase) || Explains(s, t, phase)
  {
    if s.Tick? && t in w.tasks {
      TickKeepsTask(w, s, t);
    }
  }

  /** The run that takes the step takes the task with this outcome. */
  predicate TakesWith(s: Step, t: TaskId, outcome: Outcome) {
    Takes(s) && s.task == t && s.outcome == outcome
  }

  lemma TakenAsItIs(w: World, s: Step, t: TaskId, outcome: Outcome)
    requires Enabled(w, s) && TakesWith(s, t, outcome)
    ensures t in w.tasks && OutcomeOf(w.tasks[t].phase) == Some(outcome)
  {
  }

  /** The task has this outcome already, or the step that gave it is among the steps. */
  ghost predicate Caused(w: World, steps: seq<Step>, t: TaskId, outcome: Outcome) {
    || (t in w.tasks && OutcomeOf(w.tasks[t].phase) == Some(outcome))
    || (outcome.Done? && Finish(t, outcome.completedAt) in steps)
    || (outcome.JoinError? && Panic(t) in steps)
  }

  lemma CausedLater(w: World, s: Step, rest: seq<Step>, t: TaskId, outcome: Outcome)
    requires AllTracked(w) && Enabled(w, s) && Caused(Apply(w, s), rest, t, outcome)
    ensures Caused(w, [s] + rest, t, outcome)
  {
    var v := Apply(w, s);
    if t in v.tasks && OutcomeOf(v.tasks[t].phase) == Some(outcome) {
      PhaseHasCause(w, s, t);
    }
  }

  /**
   A completion is stamped when its task finishes: whatever a task is joined with, its own
   Finish or Panic step has brought about, at that instant, or had before the trace.
   */
  lemma {:induction false} OutcomesHaveCauses(w: World, steps: seq<Step>, s: Step)
    requires Inv(w) && Trace(w, steps) && SafeTrace(w, steps) && s in steps && Takes(s)
    ensures Caused(w, steps, s.task, s.outcome)
    decreases steps
  {
    var rest := steps[1..];
    assert steps == [steps[0]] + rest;
    if s == steps[0] {
      TakenAsItIs(w, s, s.task, s.outcome);
    } else {
      StepKeepsInv(w, steps[0]);
      OutcomesHaveCauses(Apply(w, steps[0]), rest, s);
      CausedLater(w, steps[0], rest, s.task, s.outcome);
    }
  }

  /** The task has been recorded so, or the recording step is among the steps. */
  ghost predicate RecordedSo(w: World, steps: seq<Step>, t: TaskId, ok: bool) {
    || (t in w.tasks && (w.tasks[t].phase.Recorded? || w.tasks[t].phase.Finished?) && w.tasks[t].phase.recorded == ok)
    || exists s :: s in steps && s.Record? && s.task == t && s.ok == ok
  }

  lemma RecordedBefore(w: World, s: Step, t: TaskId, ok: bool)
    requires AllTracked(w) && Enabled(w, s) && RecordedSo(Apply(w, s), [], t, ok)
    ensures RecordedSo(w, [s], t, ok)
  {
    if s.Tick? && t in w.tasks {
      TickKeepsTask(w, s, t);
    }
    assert s in [s];
  }

  lemma RecordedLater(w: World, s: Step, rest: seq<Step>, t: TaskId, ok: bool)
    requires AllTracked(w) && Enabled(w, s) && RecordedSo(Apply(w, s), rest, t, ok)
    ensures RecordedSo(w, [s] + rest, t, ok)
  {
    if r :| r in rest && r.Record? && r.task == t && r.ok == ok {
      assert r in [s] + rest;
    } else {
      RecordedBefore(w, s, t, ok);
      assert s in [s] + rest;
    }
  }

  /** What a join reports of the recording is what the sink answered. */
  lemma {:induction false} ReportsHaveCauses(w: World, steps: seq<Step>, s: Step)
    requires Inv(w) && Trace(w, steps) && SafeTrace(w, steps) && s in steps && Takes(s) && s.outcome.Done?
    ensures RecordedSo(w, steps, s.task, s.outcome.recorded)
    decreases steps
  {
    var rest := steps[1..];
    assert steps == [steps[0]] + rest;
    if s == steps[0] {
      TakenAsItIs(w, s, s.task, s.outcome);
    } else {
      StepKeepsInv(w, steps[0]);
      ReportsHaveCauses(Apply(w, steps[0]), rest, s);
      RecordedLater(w, steps[0], rest, s.task, s.outcome.recorded);
    }
  }

  // Starts, seen in the tasks.

  /** The step starts an execution of the check. */
  ghost predicate StartsCheck(w: World, s: Step, id: Uuid)
    requires Enabled(w, s)
  {
    exists t :: t in Apply(w, s).tasks && t !in w.tasks && t.check == id
  }

  lemma OnlyTicksStart(w: World, s: Step, id: Uuid)
    requires Inv(w) && Enabled(w, s)
    ensures StartsCheck(w, s, id) ==> s.Tick?
    ensures s.Tick? ==> (StartsCheck(w, s, id) <==> id in Due(w.checks, s.now))
  {
    if s.Tick? {
      TickShape(w, s, id);
      var t := TaskId(id, |LogOf(w, id)|);
      assert t in w.tasks ==> Tracked(w, t);
      if u :| u in Apply(w, s).tasks && u !in w.tasks && u.check == id {
        assert u == TaskId(id, u.number);
      }
    }
  }

  /** The step neither registers the check nor takes a task of it with an overflow. */
  predicate Spares(s: Step, id: Uuid) {
    (s.Register? ==> s.check.id != id) && (s.Overflow? ==> s.task.check != id)
  }

  function DelayOf(w: World, id: Uuid): nat
    requires id in w.checks
  {
    TotalNanos(Interval(w.checks[id].check, w.config.unit))
  }

  /** The last instant that is known of a task in flight. */
  function Latest(task: Task): Instant {
    if task.phase.Finished? then task.phase.completedAt else task.startedAt
  }

  /** The next execution of the check starts no earlier than `bound`, if it starts at all. */
  ghost predicate NotBefore(w: World, id: Uuid, bound: Instant)
    requires id in w.checks
  {
    && (forall t :: t in w.tasks && t.check == id ==> Latest(w.tasks[t]) + DelayOf(w, id) >= bound)
    && (InFlight(w, id) || FailedLast(w, id) || w.checks[id].nextDue >= bound)
  }

  lemma StepKeepsDelay(w: World, s: Step, id: Uuid)
    requires Enabled(w, s) && id in w.checks && Spares(s, id)
    ensures id in Apply(w, s).checks && DelayOf(Apply(w, s), id) == DelayOf(w, id)
  {
    if s.Tick? {
      TickShape(w, s, id);
    }
  }

  lemma StartRaisesBound(w: World, s: Step, id: Uuid)
    requires Inv(w) && s.Tick? && Enabled(w, s) && id in Due(w.checks, s.now)
    ensures id in Apply(w, s).checks && NotBefore(Apply(w, s), id, s.now + DelayOf(w, id))
  {
    StartPutsInFlight(w, s, id);
    StepKeepsDelay(w, s, id);
  }

  lemma StartPutsInFlight(w: World, s: Step, id: Uuid)
    requires Inv(w) && s.Tick? && Enabled(w, s) && id in Due(w.checks, s.now)
    ensures InFlight(Apply(w, s), id)
    ensures var v := Apply(w, s);
            forall t :: t in v.tasks && t.check == id ==> v.tasks[t] == Task(s.run, s.now, Executing)
  {
    TickShape(w, s, id);
    ClaimedWasIdle(w, id, s.now);
    var v := Apply(w, s);
    forall t | t in v.tasks && t.check == id ensures v.tasks[t] == Task(s.run, s.now, Executing) {
      assert t == TaskId(id, t.number);
    }
    assert TaskId(id, |LogOf(w, id)|) in v.tasks && TaskId(id, |LogOf(w, id)|).check == id;
  }

  lemma TickKeepsBound(w: World, s: Step, id: Uuid, bound: Instant)
    requires Inv(w) && s.Tick? && Enabled(w, s) && id in w.checks && id !in Due(w.checks, s.now)
    requires NotBefore(w, id, bound)
    ensures id in Apply(w, s).checks && NotBefore(Apply(w, s), id, bound)
  {
    TickShape(w, s, id);
    var v := Apply(w, s);
    forall t: TaskId | t.check == id
      ensures (t in v.tasks <==> t in w.tasks) && (t in w.tasks ==> v.tasks[t] == w.tasks[t])
    {
      assert t == TaskId(id, t.number);
    }
    assert InFlight(v, id) <==> InFlight(w, id);
  }

  lemma JoinKeepsBound(w: World, s: Step, id: Uuid, bound: Instant)
    requires Inv(w) && s.Join? && s.task.check == id && Enabled(w, s)
    requires id in w.checks && NotBefore(w, id, bound)
    ensures id in Apply(w, s).checks && NotBefore(Apply(w, s), id, bound)
  {
    JoinedLog(w, s);
    assert forall t :: t in Apply(w, s).tasks ==> t.check != id;
    if s.outcome.Done? {
      JoinMakesIdle(w, s);
      assert Latest(w.tasks[s.task]) == s.outcome.completedAt;
    } else {
      assert Last(LogOf(Apply(w, s), id)).Failed?;
    }
  }

  lemma OtherKeepsBound(w: World, s: Step, id: Uuid, bound: Instant)
    requires Inv(w) && !s.Tick? && Enabled(w, s) && Spares(s, id) && !(Takes(s) && s.task.check == id)
    requires id in w.checks && NotBefore(w, id, bound)
    ensures id in Apply(w, s).checks && NotBefore(Apply(w, s), id, bound)
  {
    var v := Apply(w, s);
    OtherLeavesEntry(w, s, id);
    assert InFlight(v, id) <==> InFlight(w, id);
    forall t | t in v.tasks && t.check == id ensures Latest(w.tasks[t]) <= Latest(v.tasks[t]) {
      LatestGrows(w, s, t);
    }
  }

  lemma OtherLeavesEntry(w: World, s: Step, id: Uuid)
    requires !s.Tick? && Enabled(w, s) && Spares(s, id) && !(Takes(s) && s.task.check == id) && id in w.checks
    ensures var v := Apply(w, s);
            && id in v.checks && v.checks[id] == w.checks[id] && LogOf(v, id) == LogOf(w, id)
            && DelayOf(v, id) == DelayOf(w, id)
            && forall t: TaskId :: t.check == id ==> (t in v.tasks <==> t in w.tasks)
  {
  }

  lemma LatestGrows(w: World, s: Step, t: TaskId)
    requires AllTracked(w) && !s.Tick? && Enabled(w, s) && t in w.tasks && t in Apply(w, s).tasks
    ensures Latest(w.tasks[t]) <= Latest(Apply(w, s).tasks[t])
  {
    assert Tracked(w, t);
  }

  lemma StepKeepsBound(w: World, s: Step, id: Uuid, bound: Instant)
    requires Inv(w) && Enabled(w, s) && Spares(s, id) && id in w.checks && NotBefore(w, id, bound)
    requires !StartsCheck(w, s, id)
    ensures id in Apply(w, s).checks && NotBefore(Apply(w, s), id, bound)
  {
    OnlyTicksStart(w, s, id);
    if s.Tick? {
      TickKeepsBound(w, s, id, bound);
    } else if Takes(s) && s.task.check == id {
      JoinKeepsBound(w, s, id, bound);
    } else {
      OtherKeepsBound(w, s, id, bound);
    }
  }

  // Every start comes a whole delay after the one before.

  /** When the steps start executions of the check. */
  ghost function StartTimes(w: World, steps: seq<Step>, id: Uuid): seq<Instant>
    requires Trace(w, steps)
    decreases steps
  {
    if steps == [] then []
    else
      (if steps[0].Tick? && StartsCheck(w, steps[0], id) then [steps[0].now] else [])
      + StartTimes(Apply(w, steps[0]), steps[1..], id)
  }

  lemma StartIsLate(w: World, s: Step, id: Uuid, bound: Instant)
    requires Inv(w) && Enabled(w, s) && id in w.checks && NotBefore(w, id, bound) && StartsCheck(w, s, id)
    ensures s.Tick? && bound <= s.now && id in Due(w.checks, s.now)
  {
    OnlyTicksStart(w, s, id);
    ClaimedWasIdle(w, id, s.now);
  }

  /** Each time is a delay later than the one before, the first no earlier than `bound`. */
  ghost predicate SpacedFrom(times: seq<Instant>, bound: nat, delay: nat) {
    forall k :: 0 <= k < |times| ==> bound + k * delay <= times[k]
  }

  lemma SpacedFirst(first: Instant, rest: seq<Instant>, bound: nat, delay: nat)
    requires bound <= first && SpacedFrom(rest, first + delay, delay)
    ensures SpacedFrom([first] + rest, bound, delay)
  {
    forall k | 0 <= k < |rest| + 1 ensures bound + k * delay <= ([first] + rest)[k] {
      if k > 0 {
        assert first + delay + (k - 1) * delay <= rest[k - 1];
        assert delay + (k - 1) * delay == k * delay;
      }
    }
  }

  /** From a bound on, starts are a whole delay apart. */
  lemma {:induction false} StartsFromBound(w: World, steps: seq<Step>, id: Uuid, bound: Instant)
    requires Inv(w) && Trace(w, steps) && SafeTrace(w, steps) && id in w.checks && NotBefore(w, id, bound)
    requires forall s :: s in steps ==> Spares(s, id)
    ensures SpacedFrom(StartTimes(w, steps, id), bound, DelayOf(w, id))
    decreases steps
  {
    if steps == [] {
    } else {
      var s, v, rest := steps[0], Apply(w, steps[0]), steps[1..];
      assert Spares(s, id);
      StepKeepsInv(w, s);
      StepKeepsDelay(w, s, id);
      if StartsCheck(w, s, id) {
        StartIsLate(w, s, id, bound);
        StartRaisesBound(w, s, id);
        StartsFromBound(v, rest, id, s.now + DelayOf(w, id));
        SpacedFirst(s.now, StartTimes(v, rest, id), bound, DelayOf(w, id));
      } else {
        StepKeepsBound(w, s, id, bound);
        StartsFromBound(v, rest, id, bound);
        assert StartTimes(w, steps, id) == StartTimes(v, rest, id);
      }
    }
  }

  /**
   Fixed delay, told by steps: after a task has finished at `done`, whatever happens next
   except a registration of its check or an overflow, the check starts again no earlier than
   `done` plus its delay, and each later start a whole delay after the one before.
   */
  lemma StartsWaitForFinish(w: World, t: TaskId, done: Instant, steps: seq<Step>)
    requires Inv(w) && Enabled(w, Finish(t, done)) && t.check in w.checks
    requires Trace(Apply(w, Finish(t, done)), steps) && SafeTrace(Apply(w, Finish(t, done)), steps)
    requires forall s :: s in steps ==> Spares(s, t.check)
    ensures SpacedFrom(StartTimes(Apply(w, Finish(t, done)), steps, t.check),
                       done + DelayOf(w, t.check), DelayOf(w, t.check))
  {
    var s := Finish(t, done);
    var v := Apply(w, s);
    StepKeepsInv(w, s);
    StepKeepsDelay(w, s, t.check);
    assert t in v.tasks && Latest(v.tasks[t]) == done;
    assert forall u :: u in v.tasks && u.check == t.check ==> u == t;
    StartsFromBound(v, steps, t.check, done + DelayOf(w, t.check));
  }

  /** The same on whole traces of any number of runs. */
  lemma FixedDelayOnSteps(config: Config, before: seq<Step>, t: TaskId, done: Instant, after: seq<Step>)
    requires Trace(Fresh(config), before + ([Finish(t, done)] + after))
    requires SafeTrace(Fresh(config), before + ([Finish(t, done)] + after))
    requires forall s :: s in after ==> Spares(s, t.check)
    ensures Trace(Fresh(config), before + [Finish(t, done)])
    ensures var v := Exec(Fresh(config), before + [Finish(t, done)]);
            && t.check in v.checks && Trace(v, after)
            && SpacedFrom(StartTimes(v, after, t.check), done + DelayOf(v, t.check), DelayOf(v, t.check))
  {
    var s := Finish(t, done);
    TraceSplit(Fresh(config), before, [s] + after);
    var w := Exec(Fresh(config), before);
    Cons(w, s, after);
    assert [s] == [s] + [];
    Cons(w, s, []);
    TraceSplit(Fresh(config), before, [s]);
    TraceKeepsInv(Fresh(config), before);
    assert Tracked(w, t);
    StepKeepsDelay(w, s, t.check);
    StartsWaitForFinish(w, t, done, after);
  }

  /** Any two of the times are as many whole delays apart as there are starts between them. */
  ghost predicate Spaced(times: seq<Instant>, delay: nat) {
    forall i, j :: 0 <= i <= j < |times| ==> times[i] + (j - i) * delay <= times[j]
  }

  lemma SpacedAfterFirst(first: Instant, rest: seq<Instant>, delay: nat)
    requires SpacedFrom(rest, first + delay, delay) && Spaced(rest, delay)
    ensures Spaced([first] + rest, delay)
  {
    var times := [first] + rest;
    SpacedFirst(first, rest, first, delay);
    forall i, j | 0 <= i <= j < |times| ensures times[i] + (j - i) * delay <= times[j] {
      if i > 0 {
        assert rest[i - 1] + ((j - 1) - (i - 1)) * delay <= rest[j - 1];
      }
    }
  }

  /**
   No catch-up bursts, told by steps: on every disciplined trace that neither registers the
   check nor overflows its clock, n starts later at least n whole delays have passed,
   however late or irregular the ticks are. So n starts within T satisfy (n - 1) * delay <= T.
   */
  lemma {:induction false} NoBurstsOnSteps(w: World, steps: seq<Step>, id: Uuid)
    requires Inv(w) && Trace(w, steps) && SafeTrace(w, steps) && id in w.checks
    requires forall s :: s in steps ==> Spares(s, id)
    ensures Spaced(StartTimes(w, steps, id), DelayOf(w, id))
    decreases steps
  {
    if steps == [] {
    } else {
      var s, v, rest := steps[0], Apply(w, steps[0]), steps[1..];
      assert Spares(s, id);
      StepKeepsInv(w, s);
      StepKeepsDelay(w, s, id);
      NoBurstsOnSteps(v, rest, id);
      if StartsCheck(w, s, id) {
        OnlyTicksStart(w, s, id);
        StartRaisesBound(w, s, id);
        StartsFromBound(v, rest, id, s.now + DelayOf(w, id));
        SpacedAfterFirst(s.now, StartTimes(v, rest, id), DelayOf(w, id));
      } else {
        assert StartTimes(w, steps, id) == StartTimes(v, rest, id);
      }
    }
  }
}
