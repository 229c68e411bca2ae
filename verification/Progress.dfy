/** What can happen: the transition system leaves its environment free, and a drain can always come to its end. */
module Progress {
  import opened Wrappers
  import opened Domain
  import opened Durations
  import opened Worlds
  import opened Exclusion
  import opened Drain
  import opened Runtime

  /**
   Nothing but a task's own progress and the end of its run stands in the way of a step:
   an executing task may panic, or record any result of its check with either answer; a
   recorded one may finish at any time; an ended one leaves its run unless that is gone.
   */
  lemma TasksAreFree(w: World, t: TaskId, r: CheckResult, ok: bool, now: Instant)
    requires Inv(w) && t in w.tasks && w.clock <= now
    ensures var phase := w.tasks[t].phase;
            && (phase == Executing && r.checkId == t.check ==> Enabled(w, Record(t, r, ok)))
            && (phase == Executing ==> Enabled(w, Panic(t)))
            && (phase.Recorded? ==> Enabled(w, Finish(t, now)))
            && ((phase.Finished? || phase.Panicked?) && w.tasks[t].run < |w.runs| && !w.runs[w.tasks[t].run].gone ==>
                  Enabled(w, Leaving(w, t)))
  {
    assert Tracked(w, t);
  }

  /**
   Checks may be registered and runs started at any time; a run in its main loop may
   tick, shut down or be dropped.
   */
  lemma RunsAreFree(w: World, check: Check, run: nat, now: Instant)
    requires w.clock <= now
    ensures Enabled(w, Register(check, now)) && Enabled(w, StartRun)
    ensures run < |w.runs| && !w.runs[run].gone ==> Enabled(w, Crash(run))
    ensures run < |w.runs| && !w.runs[run].gone && !w.runs[run].draining ==>
              Enabled(w, Tick(run, now)) && Enabled(w, Shutdown(run))
  {
  }

  ghost predicate Leads(w: World, steps: seq<Step>, v: World) {
    Trace(w, steps) && SafeTrace(w, steps) && Exec(w, steps) == v
  }

  lemma LeadsOn(w: World, s: Step, rest: seq<Step>, v: World)
    requires Enabled(w, s) && Safe(w, s) && Leads(Apply(w, s), rest, v)
    ensures Leads(w, [s] + rest, v)
  {
    Cons(w, s, rest);
  }

  /** Tasks of the run and the runs themselves are as they were. */
  ghost predicate KeepsRun(w: World, v: World, run: nat) {
    Inv(v) && JoinSet(v.tasks, run) == JoinSet(w.tasks, run) && v.runs == w.runs
  }

  lemma PhaseStepKeepsRun(w: World, s: Step, run: nat)
    requires Inv(w) && (s.Record? || s.Finish? || s.Panic?) && Enabled(w, s)
    ensures KeepsRun(w, Apply(w, s), run)
  {
    QuietStepKeepsInv(w, s);
    QuietStepKeepsJoinSet(w, s, run);
  }

  lemma RecordedCanEnd(w: World, t: TaskId, run: nat) returns (s: Step)
    requires Inv(w) && t in w.tasks && w.tasks[t].phase.Recorded?
    ensures Enabled(w, s) && Safe(w, s) && KeepsRun(w, Apply(w, s), run) && t in Apply(w, s).tasks
    ensures OutcomeOf(Apply(w, s).tasks[t].phase) == Some(Done(w.clock, w.tasks[t].phase.recorded))
  {
    s := Finish(t, w.clock);
    PhaseStepKeepsRun(w, s, run);
  }

  /** An unended task can end, an executing one with either answer of the sink. */
  lemma TaskCanEnd(w: World, t: TaskId, r: CheckResult, ok: bool, run: nat) returns (steps: seq<Step>, v: World)
    requires Inv(w) && t in w.tasks && r.checkId == t.check
    ensures Leads(w, steps, v) && KeepsRun(w, v, run) && t in v.tasks && OutcomeOf(v.tasks[t].phase).Some?
    ensures w.tasks[t].phase == Executing ==> OutcomeOf(v.tasks[t].phase) == Some(Done(w.clock, ok))
  {
    match w.tasks[t].phase {
      case Executing =>
        var s := Record(t, r, ok);
        PhaseStepKeepsRun(w, s, run);
        var finish := RecordedCanEnd(Apply(w, s), t, run);
        v := Apply(Apply(w, s), finish);
        LeadsOn(Apply(w, s), finish, [], v);
        LeadsOn(w, s, [finish] + [], v);
        steps := [s] + ([finish] + []);
      case Recorded(_) =>
        var finish := RecordedCanEnd(w, t, run);
        v := Apply(w, finish);
        LeadsOn(w, finish, [], v);
        steps := [finish] + [];
      case _ =>
        steps, v := [], w;
    }
  }

  lemma LeadsThrough(w: World, a: seq<Step>, v: World, b: seq<Step>, u: World)
    requires Leads(w, a, v) && Leads(v, b, u)
    ensures Leads(w, a + b, u)
  {
    TraceSplit(w, a, b);
  }

  lemma DrainingStays(w: World, s: Step, run: nat)
    requires run < |w.runs| && w.runs[run].draining && Enabled(w, s)
    ensures run < |Apply(w, s).runs| && Apply(w, s).runs[run].draining
  {
  }

  /** An ended task can leave a run that drains, which then drains a smaller join set or is gone. */
  lemma TaskCanLeave(w: World, t: TaskId, run: nat)
    requires Inv(w) && t in JoinSet(w.tasks, run) && OutcomeOf(w.tasks[t].phase).Some?
    requires run < |w.runs| && !w.runs[run].gone && w.runs[run].draining
    ensures var s := Leaving(w, t);
            && Enabled(w, s) && Safe(w, s) && Inv(Apply(w, s))
            && run < |Apply(w, s).runs| && Apply(w, s).runs[run].draining
            && JoinSet(Apply(w, s).tasks, run) == JoinSet(w.tasks, run) - {t}
  {
    JoinKeepsInv(w, Leaving(w, t));
    TakeFromJoinSet(w, Leaving(w, t), run);
    DrainingStays(w, Leaving(w, t), run);
  }

  lemma FewerTasks(before: set<TaskId>, after: set<TaskId>, t: TaskId)
    requires t in before && after == before - {t}
    ensures |after| < |before|
  {
  }

  lemma OneCanLeave(w: World, run: nat, t: TaskId) returns (steps: seq<Step>, v: World)
    requires Inv(w) && run < |w.runs| && w.runs[run].draining && !w.runs[run].gone && t in JoinSet(w.tasks, run)
    ensures Leads(w, steps, v) && Inv(v) && run < |v.runs| && v.runs[run].draining
    ensures |JoinSet(v.tasks, run)| < |JoinSet(w.tasks, run)|
  {
    var r := CheckResult(0, t.check, TimestampFields.Timestamp(1970, 1, 1, 0, 0, 0, 0), Healthy, 0, None);
    var ending, u := TaskCanEnd(w, t, r, true, run);
    TaskCanLeave(u, t, run);
    var s := Leaving(u, t);
    v := Apply(u, s);
    LeadsOn(u, s, [], v);
    LeadsThrough(w, ending, u, [s] + [], v);
    steps := ending + ([s] + []);
    FewerTasks(JoinSet(w.tasks, run), JoinSet(v.tasks, run), t);
  }

  /**
   A drain can always come to its end: whatever state a draining run is in, its tasks can
   end and be taken one by one until it returns or panics.
   */
  lemma {:induction false} DrainCanFinish(w: World, run: nat) returns (steps: seq<Step>, end: World)
    requires Inv(w) && run < |w.runs| && w.runs[run].draining
    ensures Leads(w, steps, end) && Ended(end, run)
    decreases |JoinSet(w.tasks, run)|
  {
    if w.runs[run].gone || JoinSet(w.tasks, run) == {} {
      return [], w;
    }
    var t :| t in JoinSet(w.tasks, run);
    var first, v := OneCanLeave(w, run, t);
    var rest;
    rest, end := DrainCanFinish(v, run);
    LeadsThrough(w, first, v, rest, end);
    steps := first + rest;
  }
}
