/** Conservation of executions and exactly-once recording, as invariants of every trace. */
module Accounting {
  import opened Domain
  import opened Durations
  import opened Worlds
  import opened Exclusion

  predicate RecordedOk(phase: Phase) {
    (phase.Recorded? || phase.Finished?) && phase.recorded
  }

  /** The tasks of a run whose result is in the sink but which the run has not joined. */
  function Unjoined(tasks: Tasks, run: nat): set<TaskId> {
    set t | t in tasks && tasks[t].run == run && RecordedOk(tasks[t].phase)
  }

  function EntriesOf(sink: seq<Entry>, run: nat): nat {
    if sink == [] then 0
    else EntriesOf(sink[..|sink| - 1], run) + if sink[|sink| - 1].run == run then 1 else 0
  }

  /**
   Every spawned task is completed, failed or still in flight, and the sink holds the
   recorded ones. A run that is gone has no stats to balance.
   */
  ghost predicate Balanced(w: World, run: nat)
    requires run < |w.runs|
  {
    var stats := w.runs[run].stats;
    !w.runs[run].gone ==>
      && w.runs[run].spawned == stats.completed + stats.failures + |JoinSet(w.tasks, run)|
      && stats.sinkErrors <= stats.completed
      && EntriesOf(w.sink, run) == stats.completed - stats.sinkErrors + |Unjoined(w.tasks, run)|
  }

  /** An entry belongs to a past execution of its check. */
  ghost predicate Genuine(w: World, e: Entry) {
    && e.result.checkId == e.task.check
    && e.task.number < |LogOf(w, e.task.check)|
    && e.run < |w.runs|
  }

  /** No entry is newer than a task in flight, and only a task that has recorded has its own. */
  ghost predicate NotNewer(w: World, e: Entry, t: TaskId)
    requires t in w.tasks
  {
    e.task.check == t.check ==> e.task.number < t.number || (e.task == t && RecordedOk(w.tasks[t].phase))
  }

  /** The entries of each check are in execution order, so each execution has at most one. */
  ghost predicate InExecutionOrder(sink: seq<Entry>) {
    forall i, j :: 0 <= i < j < |sink| && sink[i].task.check == sink[j].task.check ==>
      sink[i].task.number < sink[j].task.number
  }

  ghost predicate Accounted(w: World) {
    && (forall run :: 0 <= run < |w.runs| ==> Balanced(w, run))
    && (forall e :: e in w.sink ==> Genuine(w, e))
    && (forall e, t :: e in w.sink && t in w.tasks ==> NotNewer(w, e, t))
    && InExecutionOrder(w.sink)
  }

  lemma AppendEntry(sink: seq<Entry>, e: Entry, run: nat)
    ensures EntriesOf(sink + [e], run) == EntriesOf(sink, run) + if e.run == run then 1 else 0
  {
    assert (sink + [e])[..|sink + [e]| - 1] == sink;
  }

  lemma {:induction false} NoEntriesYet(sink: seq<Entry>, run: nat)
    requires forall e :: e in sink ==> e.run < run
    ensures EntriesOf(sink, run) == 0
  {
    if sink == [] {
    } else {
      NoEntriesYet(sink[..|sink| - 1], run);
    }
  }

  lemma SpawnJoinSet(tasks: Tasks, spawned: set<TaskId>, spawner: nat, now: Instant, run: nat)
    requires spawned !! tasks.Keys
    ensures JoinSet(Spawn(tasks, spawned, spawner, now), run)
         == JoinSet(tasks, run) + if run == spawner then spawned else {}
    ensures Unjoined(Spawn(tasks, spawned, spawner, now), run) == Unjoined(tasks, run)
  {
  }

  lemma SpawnGrowsJoinSet(tasks: Tasks, spawned: set<TaskId>, spawner: nat, now: Instant, run: nat)
    requires spawned !! tasks.Keys
    ensures |JoinSet(Spawn(tasks, spawned, spawner, now), run)|
         == |JoinSet(tasks, run)| + if run == spawner then |spawned| else 0
  {
    SpawnJoinSet(tasks, spawned, spawner, now, run);
    assert JoinSet(tasks, run) !! spawned;
  }

  lemma TickBalances(w: World, s: Step, run: nat)
    requires AllTracked(w) && s.Tick? && Enabled(w, s) && run < |w.runs| && Balanced(w, run)
    ensures Balanced(Apply(w, s), run)
  {
    SpawnedAreNew(w, s.now);
    SpawnJoinSet(w.tasks, Spawned(w, s.now), s.run, s.now, run);
    SpawnGrowsJoinSet(w.tasks, Spawned(w, s.now), s.run, s.now, run);
  }

  lemma OtherStepBalances(w: World, s: Step, run: nat)
    requires (s.Register? || s.StartRun? || s.Shutdown? || s.Crash?) && Enabled(w, s)
    requires run < |w.runs| && Balanced(w, run)
    ensures Balanced(Apply(w, s), run)
  {
    var v := Apply(w, s);
    assert JoinSet(v.tasks, run) == JoinSet(w.tasks, run) && Unjoined(v.tasks, run) == Unjoined(w.tasks, run);
  }

  lemma NewRunBalances(w: World)
    requires AllTracked(w) && forall e :: e in w.sink ==> Genuine(w, e)
    ensures Balanced(Apply(w, StartRun), |w.runs|)
  {
    var v, run := Apply(w, StartRun), |w.runs|;
    forall t | t in w.tasks ensures w.tasks[t].run != run {
      assert Tracked(w, t);
    }
    forall e | e in w.sink ensures e.run < run {
      assert Genuine(w, e);
    }
    NoEntriesYet(w.sink, run);
    assert JoinSet(v.tasks, run) == {} && Unjoined(v.tasks, run) == {};
  }

  lemma JoinBalances(w: World, s: Step, run: nat)
    requires s.Join? && Enabled(w, s) && run < |w.runs| && Balanced(w, run)
    ensures Balanced(Apply(w, s), run)
  {
    var v := Apply(w, s);
    if run == s.run {
      assert s.task in JoinSet(w.tasks, run) && JoinSet(v.tasks, run) == JoinSet(w.tasks, run) - {s.task};
      assert Unjoined(v.tasks, run) == Unjoined(w.tasks, run) - {s.task};
      assert s.task in Unjoined(w.tasks, run) <==> s.outcome.Done? && s.outcome.recorded;
    } else {
      assert JoinSet(v.tasks, run) == JoinSet(w.tasks, run) && Unjoined(v.tasks, run) == Unjoined(w.tasks, run);
    }
  }

  /** An overflowing join ends its own run and takes no task from another. */
  lemma OverflowBalances(w: World, s: Step, run: nat)
    requires s.Overflow? && Enabled(w, s) && run < |w.runs| && Balanced(w, run)
    ensures Balanced(Apply(w, s), run)
  {
    var v := Apply(w, s);
    if run != s.run {
      assert JoinSet(v.tasks, run) == JoinSet(w.tasks, run) && Unjoined(v.tasks, run) == Unjoined(w.tasks, run);
    }
  }

  lemma RecordMovesTask(w: World, s: Step, run: nat)
    requires s.Record? && Enabled(w, s)
    ensures JoinSet(Apply(w, s).tasks, run) == JoinSet(w.tasks, run)
    ensures |Unjoined(Apply(w, s).tasks, run)|
         == |Unjoined(w.tasks, run)| + if s.ok && w.tasks[s.task].run == run then 1 else 0
  {
    var tasks := Apply(w, s).tasks;
    assert s.task !in Unjoined(w.tasks, run);
    if s.ok && w.tasks[s.task].run == run {
      assert Unjoined(tasks, run) == Unjoined(w.tasks, run) + {s.task};
    } else {
      assert Unjoined(tasks, run) == Unjoined(w.tasks, run);
    }
  }

  lemma RecordBalances(w: World, s: Step, run: nat)
    requires s.Record? && Enabled(w, s) && run < |w.runs| && Balanced(w, run)
    ensures Balanced(Apply(w, s), run)
  {
    RecordMovesTask(w, s, run);
    AppendEntry(w.sink, Entry(w.tasks[s.task].run, s.task, s.result), run);
  }

  lemma EndBalances(w: World, s: Step, run: nat)
    requires (s.Finish? || s.Panic?) && Enabled(w, s) && run < |w.runs| && Balanced(w, run)
    ensures Balanced(Apply(w, s), run)
  {
    var v := Apply(w, s);
    assert JoinSet(v.tasks, run) == JoinSet(w.tasks, run) && Unjoined(v.tasks, run) == Unjoined(w.tasks, run);
  }

  lemma StepBalances(w: World, s: Step)
    requires Inv(w) && Accounted(w) && Enabled(w, s)
    ensures forall run :: 0 <= run < |Apply(w, s).runs| ==> Balanced(Apply(w, s), run)
  {
    forall run | 0 <= run < |Apply(w, s).runs| ensures Balanced(Apply(w, s), run) {
      if run == |w.runs| {
        NewRunBalances(w);
      } else {
        assert Balanced(w, run);
        match s {
          case Tick(_, _) => TickBalances(w, s, run);
          case Join(_, _, _) => JoinBalances(w, s, run);
          case Overflow(_, _, _) => OverflowBalances(w, s, run);
          case Record(_, _, _) => RecordBalances(w, s, run);
          case Finish(_, _) => EndBalances(w, s, run);
          case Panic(_) => EndBalances(w, s, run);
          case _ => OtherStepBalances(w, s, run);
        }
      }
    }
  }

  lemma LogsGrow(w: World, s: Step, id: Uuid)
    requires w.log.Keys == w.checks.Keys && Enabled(w, s)
    ensures LogOf(w, id) <= LogOf(Apply(w, s), id) && |w.runs| <= |Apply(w, s).runs|
  {
    if s.Tick? {
      TickShape(w, s, id);
    }
  }

  lemma StepKeepsGenuine(w: World, s: Step, e: Entry)
    requires AllTracked(w) && w.log.Keys == w.checks.Keys && Enabled(w, s) && e in Apply(w, s).sink
    requires e in w.sink ==> Genuine(w, e)
    ensures Genuine(Apply(w, s), e)
  {
    LogsGrow(w, s, e.task.check);
    if e !in w.sink {
      assert Tracked(w, s.task);
    }
  }

  lemma StepKeepsOrder(w: World, s: Step)
    requires Accounted(w) && Enabled(w, s)
    ensures InExecutionOrder(Apply(w, s).sink)
  {
    if s.Record? && s.ok {
      forall i | 0 <= i < |w.sink| && w.sink[i].task.check == s.task.check
        ensures w.sink[i].task.number < s.task.number
      {
        assert NotNewer(w, w.sink[i], s.task);
      }
    }
  }

  lemma OldPairNotNewer(w: World, s: Step, e: Entry, t: TaskId)
    requires AllTracked(w) && Enabled(w, s) && t in w.tasks && NotNewer(w, e, t) && t in Apply(w, s).tasks
    ensures NotNewer(Apply(w, s), e, t)
  {
    if s.Tick? {
      SpawnedAreNew(w, s.now);
    }
  }

  lemma NewTaskNotOlder(w: World, s: Step, e: Entry, t: TaskId)
    requires w.log.Keys == w.checks.Keys && Enabled(w, s) && Genuine(w, e)
    requires t !in w.tasks && t in Apply(w, s).tasks
    ensures NotNewer(Apply(w, s), e, t)
  {
    TickShape(w, s, t.check);
    assert t == TaskId(t.check, t.number);
  }

  lemma NewEntryNotNewer(w: World, s: Step, e: Entry, t: TaskId)
    requires Exclusive(w) && Enabled(w, s) && e in Apply(w, s).sink && e !in w.sink && t in Apply(w, s).tasks
    ensures NotNewer(Apply(w, s), e, t)
  {
    assert s.Record? && e.task == s.task && s.task in w.tasks && t in w.tasks;
  }

  lemma StepKeepsNotNewer(w: World, s: Step, e: Entry, t: TaskId)
    requires Inv(w) && Accounted(w) && Enabled(w, s) && e in Apply(w, s).sink && t in Apply(w, s).tasks
    ensures NotNewer(Apply(w, s), e, t)
  {
    if e in w.sink {
      if t in w.tasks {
        OldPairNotNewer(w, s, e, t);
      } else {
        NewTaskNotOlder(w, s, e, t);
      }
    } else {
      NewEntryNotNewer(w, s, e, t);
    }
  }

  lemma StepKeepsAccounts(w: World, s: Step)
    requires Inv(w) && Accounted(w) && Enabled(w, s)
    ensures Accounted(Apply(w, s))
  {
    StepBalances(w, s);
    StepKeepsOrder(w, s);
    forall e | e in Apply(w, s).sink ensures Genuine(Apply(w, s), e) {
      StepKeepsGenuine(w, s, e);
    }
    forall e, t | e in Apply(w, s).sink && t in Apply(w, s).tasks ensures NotNewer(Apply(w, s), e, t) {
      StepKeepsNotNewer(w, s, e, t);
    }
  }

  lemma {:induction false} TraceKeepsAccounts(w: World, steps: seq<Step>)
    requires Inv(w) && Accounted(w) && Trace(w, steps) && SafeTrace(w, steps)
    ensures Inv(Exec(w, steps)) && Accounted(Exec(w, steps))
    decreases steps
  {
    if steps == [] {
    } else {
      StepKeepsInv(w, steps[0]);
      StepKeepsAccounts(w, steps[0]);
      TraceKeepsAccounts(Apply(w, steps[0]), steps[1..]);
    }
  }

  /**
   Conservation of executions: in every state of every disciplined trace, each run
   that is not gone has spawned exactly what it has completed, seen fail or has in flight, and its
   sink errors are among its completions.
   */
  lemma ExecutionsAreConserved(config: Config, steps: seq<Step>, run: nat)
    requires Trace(Fresh(config), steps) && SafeTrace(Fresh(config), steps)
    requires run < |Exec(Fresh(config), steps).runs| && !Exec(Fresh(config), steps).runs[run].gone
    ensures var w := Exec(Fresh(config), steps);
            var stats := w.runs[run].stats;
            && w.runs[run].spawned == stats.completed + stats.failures + |JoinSet(w.tasks, run)|
            && stats.sinkErrors <= stats.completed
  {
    TraceKeepsAccounts(Fresh(config), steps);
    assert Balanced(Exec(Fresh(config), steps), run);
  }

  /**
   In every state of every disciplined trace no execution is recorded twice, and each
   check's entries carry its id and follow its execution order.
   */
  lemma SinkFollowsExecutions(config: Config, steps: seq<Step>)
    requires Trace(Fresh(config), steps) && SafeTrace(Fresh(config), steps)
    ensures var sink := Exec(Fresh(config), steps).sink;
            && InExecutionOrder(sink)
            && (forall i, j :: 0 <= i < j < |sink| ==> sink[i].task != sink[j].task)
            && (forall e :: e in sink ==> e.result.checkId == e.task.check)
  {
    var w := Exec(Fresh(config), steps);
    TraceKeepsAccounts(Fresh(config), steps);
    forall e | e in w.sink ensures e.result.checkId == e.task.check {
      assert Genuine(w, e);
    }
  }

  /**
   Exactly-once recording: when a run that is not gone has nothing in flight, the sink
   holds exactly completed - sinkErrors entries of that run, each of another execution.
   */
  lemma RecordedExactlyOnce(config: Config, steps: seq<Step>, run: nat)
    requires Trace(Fresh(config), steps) && SafeTrace(Fresh(config), steps)
    requires run < |Exec(Fresh(config), steps).runs| && !Exec(Fresh(config), steps).runs[run].gone
    requires JoinSet(Exec(Fresh(config), steps).tasks, run) == {}
    ensures var w := Exec(Fresh(config), steps);
            && EntriesOf(w.sink, run) == w.runs[run].stats.completed - w.runs[run].stats.sinkErrors
            && forall i, j :: 0 <= i < j < |w.sink| ==> w.sink[i].task != w.sink[j].task
  {
    var w := Exec(Fresh(config), steps);
    TraceKeepsAccounts(Fresh(config), steps);
    SinkFollowsExecutions(config, steps);
    assert Balanced(w, run);
    assert Unjoined(w.tasks, run) <= JoinSet(w.tasks, run);
  }

  // What the sink refuses.

  /** The run's unjoined tasks whose result the sink refused. */
  function Refused(tasks: Tasks, run: nat): set<TaskId> {
    set t | t in tasks && tasks[t].run == run && RecordedBadly(tasks[t].phase)
  }

  predicate RecordedBadly(phase: Phase) {
    (phase.Recorded? || phase.Finished?) && !phase.recorded
  }

  /** The step in which the sink refuses a result of the run. */
  predicate Refuses(w: World, s: Step, run: nat) {
    s.Record? && !s.ok && s.task in w.tasks && w.tasks[s.task].run == run
  }

  /** How often the sink refuses a result of the run. */
  function Refusals(w: World, steps: seq<Step>, run: nat): nat
    requires Trace(w, steps)
    decreases steps
  {
    if steps == [] then 0
    else (if Refuses(w, steps[0], run) then 1 else 0) + Refusals(Apply(w, steps[0]), steps[1..], run)
  }

  lemma GoneStays(w: World, s: Step, run: nat)
    requires Enabled(w, s) && run < |w.runs|
    ensures run < |Apply(w, s).runs| && (w.runs[run].gone ==> Apply(w, s).runs[run].gone)
  {
  }

  lemma {:induction false} GoneIsFinal(w: World, steps: seq<Step>, run: nat)
    requires Trace(w, steps) && run < |w.runs|
    ensures run < |Exec(w, steps).runs| && (w.runs[run].gone ==> Exec(w, steps).runs[run].gone)
    decreases steps
  {
    if steps == [] {
    } else {
      GoneStays(w, steps[0], run);
      GoneIsFinal(Apply(w, steps[0]), steps[1..], run);
    }
  }

  lemma SpawnRefusesNothing(tasks: Tasks, spawned: set<TaskId>, spawner: nat, now: Instant, run: nat)
    requires spawned !! tasks.Keys
    ensures Refused(Spawn(tasks, spawned, spawner, now), run) == Refused(tasks, run)
  {
  }

  lemma TakeCountsRefusals(w: World, s: Step, run: nat)
    requires Takes(s) && Enabled(w, s) && run < |w.runs| && !Apply(w, s).runs[run].gone
    ensures Apply(w, s).runs[run].stats.sinkErrors + |Refused(Apply(w, s).tasks, run)|
         == w.runs[run].stats.sinkErrors + |Refused(w.tasks, run)|
  {
    var v := Apply(w, s);
    assert Refused(v.tasks, run) == Refused(w.tasks, run) - {s.task};
    assert s.task in Refused(w.tasks, run) <==> s.run == run && s.Join? && s.outcome.Done? && !s.outcome.recorded;
  }

  lemma RecordCountsRefusals(w: World, s: Step, run: nat)
    requires s.Record? && Enabled(w, s)
    ensures |Refused(Apply(w, s).tasks, run)| == |Refused(w.tasks, run)| + if Refuses(w, s, run) then 1 else 0
  {
    var v := Apply(w, s);
    assert s.task !in Refused(w.tasks, run);
    assert Refused(v.tasks, run) == Refused(w.tasks, run) + if Refuses(w, s, run) then {s.task} else {};
  }

  lemma EndCountsRefusals(w: World, s: Step, run: nat)
    requires (s.Finish? || s.Panic?) && Enabled(w, s)
    ensures Refused(Apply(w, s).tasks, run) == Refused(w.tasks, run)
  {
  }

  lemma StepCountsRefusals(w: World, s: Step, run: nat)
    requires AllTracked(w) && Enabled(w, s) && run < |w.runs| && run < |Apply(w, s).runs| && !Apply(w, s).runs[run].gone
    ensures Apply(w, s).runs[run].stats.sinkErrors + |Refused(Apply(w, s).tasks, run)|
         == w.runs[run].stats.sinkErrors + |Refused(w.tasks, run)| + if Refuses(w, s, run) then 1 else 0
  {
    if Takes(s) {
      TakeCountsRefusals(w, s, run);
    } else if s.Tick? {
      SpawnedAreNew(w, s.now);
      SpawnRefusesNothing(w.tasks, Spawned(w, s.now), s.run, s.now, run);
    } else if s.Record? {
      RecordCountsRefusals(w, s, run);
    } else if s.Finish? || s.Panic? {
      EndCountsRefusals(w, s, run);
    }
  }

  /** The sink errors of a run that is not gone are the sink's refusals, as far as they have been joined. */
  lemma {:induction false} SinkErrorsAreRefusals(w: World, steps: seq<Step>, run: nat)
    requires Inv(w) && Trace(w, steps) && SafeTrace(w, steps) && run < |w.runs|
    requires run < |Exec(w, steps).runs| && !Exec(w, steps).runs[run].gone
    ensures Exec(w, steps).runs[run].stats.sinkErrors + |Refused(Exec(w, steps).tasks, run)|
         == w.runs[run].stats.sinkErrors + |Refused(w.tasks, run)| + Refusals(w, steps, run)
    decreases steps
  {
    if steps == [] {
    } else {
      var v := Apply(w, steps[0]);
      GoneStays(w, steps[0], run);
      GoneIsFinal(v, steps[1..], run);
      StepKeepsInv(w, steps[0]);
      StepCountsRefusals(w, steps[0], run);
      SinkErrorsAreRefusals(v, steps[1..], run);
    }
  }
}
