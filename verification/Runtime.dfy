/**
 The scheduler's event loop, as the imperative code runs it, proved to follow the
 transition system: whatever the environment does between its own steps, the
 shared table, the sink, the run's stats and its join set are those of the trace.
 */
module Runtime {
  import opened Wrappers
  import opened Domain
  import opened Durations
  import opened Databases
  import opened SchedulerStates
  import opened Worlds
  import opened Exclusion
  import opened Accounting
  import opened Drain

  ghost function CheckIds(tasks: set<TaskId>): set<Uuid> {
    set t | t in tasks :: t.check
  }

  /** The check ids of a run's tasks in flight. */
  ghost function RunningIds(w: World, run: nat): set<Uuid> {
    CheckIds(JoinSet(w.tasks, run))
  }

  /** Steps of one run's own code, or of whoever drops it; every other step belongs to its environment. */
  predicate Own(s: Step, run: nat) {
    match s
    case Tick(r, _) => r == run
    case Join(r, _, _) => r == run
    case Shutdown(r) => r == run
    case Overflow(r, _, _) => r == run
    case Crash(r) => r == run
    case _ => false
  }

  /** The run has returned, or is gone. */
  ghost predicate Ended(w: World, run: nat) {
    run < |w.runs| && (w.runs[run].gone || (w.runs[run].draining && JoinSet(w.tasks, run) == {}))
  }

  lemma SpawnedIds(w: World, now: Instant)
    ensures CheckIds(Spawned(w, now)) == Due(w.checks, now)
  {
    forall id | id in Due(w.checks, now) ensures id in CheckIds(Spawned(w, now)) {
      assert TaskId(id, |LogOf(w, id)|) in Spawned(w, now);
    }
  }

  lemma TickRunningIds(w: World, s: Step, run: nat)
    requires AllTracked(w) && s.Tick? && Enabled(w, s)
    ensures RunningIds(Apply(w, s), run) == RunningIds(w, run) + if s.run == run then Due(w.checks, s.now) else {}
  {
    SpawnedAreNew(w, s.now);
    SpawnJoinSet(w.tasks, Spawned(w, s.now), s.run, s.now, run);
    SpawnedIds(w, s.now);
  }

  lemma TakeRunningIds(w: World, s: Step, run: nat)
    requires Exclusive(w) && Takes(s) && Enabled(w, s)
    ensures RunningIds(Apply(w, s), run) == RunningIds(w, run) - if s.run == run then {s.task.check} else {}
  {
    var v := Apply(w, s);
    assert forall t :: t in v.tasks ==> t.check != s.task.check && v.tasks[t] == w.tasks[t];
    assert JoinSet(v.tasks, run) == JoinSet(w.tasks, run) - {s.task};
    assert s.task in JoinSet(w.tasks, run) <==> s.run == run;
  }

  lemma EnvironmentKeepsEntry(w: World, s: Step, run: nat)
    requires Enabled(w, s) && !Own(s, run) && run < |w.runs|
    ensures run < |Apply(w, s).runs| && Apply(w, s).runs[run] == w.runs[run]
  {
  }

  lemma EnvironmentKeepsIds(w: World, s: Step, run: nat)
    requires AllTracked(w) && Exclusive(w) && Enabled(w, s) && !Own(s, run)
    ensures RunningIds(Apply(w, s), run) == RunningIds(w, run)
  {
    match s {
      case Tick(_, _) => TickRunningIds(w, s, run);
      case Join(_, _, _) => TakeRunningIds(w, s, run);
      case Overflow(_, _, _) => TakeRunningIds(w, s, run);
      case _ => QuietStepKeepsJoinSet(w, s, run);
    }
  }

  lemma ListedIds(checks: seq<Check>, ids: set<Uuid>, table: Table)
    requires Lists(checks, ids, table)
    ensures (set k | 0 <= k < |checks| :: checks[k].id) == ids
  {
    forall id | id in ids ensures exists k :: 0 <= k < |checks| && checks[k].id == id {
      assert id in Ids(checks);
    }
  }

  /** What a taken task does to the table and to the run. */
  lemma TakeShape(w: World, t: TaskId)
    requires t in w.tasks && OutcomeOf(w.tasks[t].phase).Some? && Enabled(w, Leaving(w, t))
    ensures var s, outcome := Leaving(w, t), OutcomeOf(w.tasks[t].phase).value;
            var v, run := Apply(w, s), w.tasks[t].run;
            && s.run == run && s.task == t && |v.runs| == |w.runs|
            && v.checks == (if s.Join? then JoinTable(w.checks, t.check, outcome, w.config.unit)
                            else OverflowTable(w.checks, t.check, outcome.completedAt))
            && v.runs[run].gone == s.Overflow? && v.runs[run].draining == w.runs[run].draining
            && (s.Join? ==> v.runs[run].stats == CountJoin(w.runs[run].stats, outcome))
  {
  }

  // The sink.

  /** Where results go: the database, or any other sink, which answers as the trace says. */
  datatype Sink = AnySink | Sqlite(database: Database) {
    ghost function Tables(): set<object> {
      if Sqlite? then {database} else {}
    }
  }

  /** The contents of the database. */
  datatype Snapshot = Snapshot(services: seq<Service>, checks: seq<Check>, results: seq<CheckResult>)

  ghost function Contents(database: Database): Snapshot
    reads database
  {
    Snapshot(database.services, database.checks, database.results)
  }

  /** The results in the order in which the sink took them. */
  function ResultsOf(sink: seq<Entry>): seq<CheckResult> {
    if sink == [] then [] else ResultsOf(sink[..|sink| - 1]) + [sink[|sink| - 1].result]
  }

  lemma ResultsOfAppend(sink: seq<Entry>, e: Entry)
    ensures ResultsOf(sink + [e]) == ResultsOf(sink) + [e.result]
  {
    assert (sink + [e])[..|sink + [e]| - 1] == sink;
  }

  lemma RecordShape(w: World, task: TaskId, result: CheckResult, ok: bool)
    requires Enabled(w, Record(task, result, ok))
    ensures var v := Apply(w, Record(task, result, ok));
            && v.checks == w.checks
            && ResultsOf(v.sink) == ResultsOf(w.sink) + if ok then [result] else []
  {
    ResultsOfAppend(w.sink, Entry(w.tasks[task].run, task, result));
  }

  /** Recording succeeds only if the database accepts the result; it may always fail. */
  ghost predicate Answered(before: Snapshot, w: World, s: Step) {
    s.Record? && s.ok ==> InsertResultError(before.checks, before.results + ResultsOf(w.sink), s.result).None?
  }

  /**
   A script for one run: a disciplined trace that goes on exactly until the run ends, in
   which the database, if it is the sink, accepts whatever is recorded.
   */
  ghost predicate Script(sink: Sink, before: Snapshot, w: World, steps: seq<Step>, run: nat)
    decreases steps
  {
    if steps == [] then Ended(w, run)
    else
      && !Ended(w, run) && MayHappen(sink, before, w, steps[0])
      && Script(sink, before, Apply(w, steps[0]), steps[1..], run)
  }

  ghost predicate MayHappen(sink: Sink, before: Snapshot, w: World, s: Step) {
    Enabled(w, s) && Safe(w, s) && (sink.Sqlite? ==> Answered(before, w, s))
  }

  ghost predicate Reaches(w: World, steps: seq<Step>, end: World) {
    Trace(w, steps) && Exec(w, steps) == end
  }

  lemma {:induction false} ScriptIsTrace(sink: Sink, before: Snapshot, w: World, steps: seq<Step>, run: nat)
    requires Script(sink, before, w, steps, run)
    ensures Trace(w, steps) && SafeTrace(w, steps) && Ended(Exec(w, steps), run)
    decreases steps
  {
    if steps == [] {
    } else {
      ScriptIsTrace(sink, before, Apply(w, steps[0]), steps[1..], run);
    }
  }

  /** After i steps the run has not ended. */
  ghost predicate OpenAt(w: World, steps: seq<Step>, i: nat, run: nat)
    requires i <= |steps|
  {
    Trace(w, steps[..i]) ==> !Ended(Exec(w, steps[..i]), run)
  }

  lemma OpenShift(w: World, steps: seq<Step>, i: nat, run: nat)
    requires i < |steps| && Enabled(w, steps[0])
    ensures OpenAt(w, steps, i + 1, run) <==> OpenAt(Apply(w, steps[0]), steps[1..], i, run)
  {
    assert steps[..i + 1][0] == steps[0] && steps[..i + 1][1..] == steps[1..][..i];
  }

  lemma OpenTail(w: World, steps: seq<Step>, run: nat)
    requires steps != [] && Enabled(w, steps[0])
    ensures (forall i :: 0 <= i < |steps| ==> OpenAt(w, steps, i, run))
       <==> !Ended(w, run) && forall i :: 0 <= i < |steps[1..]| ==> OpenAt(Apply(w, steps[0]), steps[1..], i, run)
  {
    assert steps[..0] == [] && (OpenAt(w, steps, 0, run) <==> !Ended(w, run));
    forall i | 0 <= i < |steps[1..]|
      ensures OpenAt(w, steps, i + 1, run) <==> OpenAt(Apply(w, steps[0]), steps[1..], i, run)
    {
      OpenShift(w, steps, i, run);
    }
    forall i | 0 < i < |steps|
      ensures OpenAt(w, steps, i, run) <==> OpenAt(Apply(w, steps[0]), steps[1..], i - 1, run)
    {
      OpenShift(w, steps, i - 1, run);
    }
  }

  /**
   For a sink that may answer anything, the scripts are exactly the disciplined traces
   that stop when the run ends.
   */
  lemma {:induction false} ScriptsAreEndingTraces(before: Snapshot, w: World, steps: seq<Step>, run: nat)
    ensures Script(AnySink, before, w, steps, run) <==>
            && Trace(w, steps) && SafeTrace(w, steps) && Ended(Exec(w, steps), run)
            && forall i :: 0 <= i < |steps| ==> OpenAt(w, steps, i, run)
    decreases steps
  {
    if steps == [] {
    } else if Enabled(w, steps[0]) {
      OpenTail(w, steps, run);
      ScriptsAreEndingTraces(before, Apply(w, steps[0]), steps[1..], run);
    }
  }

  /** What is left of a script after i of its steps is a script. */
  lemma {:induction false} ScriptAt(sink: Sink, before: Snapshot, w: World, script: seq<Step>, i: nat, run: nat)
    requires Script(sink, before, w, script, run) && i <= |script|
    ensures Trace(w, script[..i]) && Script(sink, before, Exec(w, script[..i]), script[i..], run)
    decreases i
  {
    if i == 0 {
      assert script[0..] == script;
    } else {
      assert script[..i][0] == script[0] && script[..i][1..] == script[1..][..i - 1];
      assert script[i..] == script[1..][i - 1..];
      ScriptAt(sink, before, Apply(w, script[0]), script[1..], i - 1, run);
    }
  }

  /** Until the run ends, the script has a next step, which can happen. */
  lemma NextStep(sink: Sink, before: Snapshot, start: World, script: seq<Step>, i: nat, run: nat)
    requires Script(sink, before, start, script, run) && i <= |script| && Trace(start, script[..i])
    requires !Ended(Exec(start, script[..i]), run)
    ensures i < |script| && MayHappen(sink, before, Exec(start, script[..i]), script[i])
    ensures Trace(start, script[..i + 1])
    ensures Exec(start, script[..i + 1]) == Apply(Exec(start, script[..i]), script[i])
  {
    ScriptAt(sink, before, start, script, i, run);
    var s := script[i];
    assert script[..i + 1] == script[..i] + ([s] + []);
    TraceSplit(start, script[..i], [s] + []);
    Cons(Exec(start, script[..i]), s, []);
  }

  /** Neither a tick of the run nor its shutdown signal. */
  predicate Awaited(s: Step, run: nat) {
    (s.Tick? ==> s.run != run) && s != Shutdown(run)
  }

  /** While a draining run has tasks in flight it only waits. */
  lemma DrainWaits(w: World, run: nat)
    requires run < |w.runs| && w.runs[run].draining && !w.runs[run].gone && RunningIds(w, run) != {}
    ensures !Ended(w, run) && forall s :: Enabled(w, s) ==> Awaited(s, run)
  {
  }

  lemma LastStep(sink: Sink, before: Snapshot, start: World, script: seq<Step>, i: nat, run: nat)
    requires Script(sink, before, start, script, run) && i <= |script| && Trace(start, script[..i])
    requires Ended(Exec(start, script[..i]), run)
    ensures i == |script| && Trace(start, script) && Exec(start, script[..i]) == Exec(start, script)
  {
    ScriptAt(sink, before, start, script, i, run);
    assert script[..|script|] == script;
  }

  lemma StepKeepsAll(w: World, s: Step)
    requires Inv(w) && Accounted(w) && Enabled(w, s) && Safe(w, s)
    ensures Inv(Apply(w, s)) && Accounted(Apply(w, s)) && Apply(w, s).config == w.config
  {
    StepKeepsInv(w, s);
    StepKeepsAccounts(w, s);
    StepMovesClock(w, s);
  }

  class Scheduler {
    const config: Config
    const state: SchedulerState
    const sink: Sink
    /** The state of the transition system that the shared table is part of. */
    ghost var world: World
    /** What the database held when the scheduler was built. */
    ghost const before: Snapshot

    ghost predicate Valid()
      reads this, state, sink.Tables()
    {
      && Inv(world) && Accounted(world) && world.config == config && state.checks == world.checks
      && Stores(ResultsOf(world.sink))
    }

    /** The database holds what it held before and, after that, these results. */
    ghost predicate Stores(taken: seq<CheckResult>)
      reads this, sink.Tables()
    {
      sink.Sqlite? ==>
        && sink.database.Valid()
        && Contents(sink.database) == before.(results := before.results + taken)
    }

    constructor (config: Config, sink: Sink)
      requires sink.Sqlite? ==> sink.database.Valid()
      ensures Valid() && fresh(state)
      ensures world == Fresh(config) && this.config == config && this.sink == sink
      ensures sink.Sqlite? ==> before == Contents(sink.database)
    {
      this.config := config;
      this.sink := sink;
      state := new SchedulerState();
      world := Fresh(config);
      before := if sink.Sqlite? then Contents(sink.database) else Snapshot([], [], []);
    }

    /** A step that the table and the sink have already taken. */
    ghost method Commit(s: Step)
      requires Inv(world) && Accounted(world) && world.config == config && Enabled(world, s) && Safe(world, s)
      requires state.checks == Apply(world, s).checks && Stores(ResultsOf(Apply(world, s).sink))
      modifies this`world
      ensures Valid() && world == Apply(old(world), s)
    {
      StepKeepsAll(world, s);
      world := Apply(world, s);
    }

    /** A step that the table has already taken and that the sink does not notice. */
    ghost method Advance(s: Step)
      requires Inv(world) && Accounted(world) && world.config == config && Enabled(world, s) && Safe(world, s)
      requires state.checks == Apply(world, s).checks && Stores(ResultsOf(world.sink)) && !s.Record?
      modifies this`world
      ensures Valid() && world == Apply(old(world), s)
    {
      Commit(s);
    }

    method Register(check: Check, now: Instant)
      requires Valid() && world.clock <= now && !(check.enabled && InFlight(world, check.id))
      modifies this`world, state
      ensures Valid() && world == Apply(old(world), Step.Register(check, now))
    {
      state.Register(check, now);
      Advance(Step.Register(check, now));
    }

    /** A task hands its result to the sink. */
    method RecordResult(result: CheckResult, ghost task: TaskId, ok: bool)
      requires Valid() && Enabled(world, Record(task, result, ok))
      requires sink.Sqlite? ==> Answered(before, world, Record(task, result, ok))
      modifies this`world, sink.Tables()
      ensures Valid() && world == Apply(old(world), Record(task, result, ok))
    {
      RecordShape(world, task, result, ok);
      StoreStep(result, task, ok);
      Commit(Record(task, result, ok));
    }

    /** The sink after a recording step. */
    method StoreStep(result: CheckResult, ghost task: TaskId, ok: bool)
      requires Stores(ResultsOf(world.sink)) && Enabled(world, Record(task, result, ok))
      requires sink.Sqlite? ==> Answered(before, world, Record(task, result, ok))
      modifies sink.Tables()
      ensures Stores(ResultsOf(Apply(world, Record(task, result, ok)).sink))
    {
      RecordShape(world, task, result, ok);
      StoreResult(result, ResultsOf(world.sink), ok);
    }

    /** The database's side of recording; it fails or refuses where the step says so. */
    method StoreResult(result: CheckResult, ghost taken: seq<CheckResult>, ok: bool)
      requires Stores(taken)
      requires sink.Sqlite? && ok ==> InsertResultError(before.checks, before.results + taken, result).None?
      modifies sink.Tables()
      ensures Stores(taken + if ok then [result] else [])
    {
      match sink {
        case AnySink =>
        case Sqlite(database) => var _ := database.InsertResult(result, !ok);
      }
    }

    /** Spawns one task per claimed check into the join set. */
    method SpawnAll(checks: seq<Check>, runningTasks: set<Uuid>) returns (tasks: set<Uuid>)
      ensures tasks == runningTasks + set k | 0 <= k < |checks| :: checks[k].id
    {
      tasks := runningTasks;
      for i := 0 to |checks|
        invariant tasks == runningTasks + set k | 0 <= k < i :: checks[k].id
      {
        tasks := tasks + {checks[i].id};
      }
    }

    /** Claims under the lock, then spawns. */
    method ClaimAndSpawn(now: Instant, runningTasks: set<Uuid>) returns (tasks: set<Uuid>)
      requires Keyed(state.checks)
      modifies state
      ensures state.checks == Claim(old(state.checks), now)
      ensures tasks == runningTasks + Due(old(state.checks), now)
    {
      ghost var table := state.checks;
      var checks := state.ClaimDueChecks(now);
      ListedIds(checks, Due(table, now), table);
      tasks := SpawnAll(checks, runningTasks);
    }

    /** The ticking arm. */
    method SpawnDueChecks(run: nat, now: Instant, runningTasks: set<Uuid>) returns (tasks: set<Uuid>)
      requires Valid() && Enabled(world, Tick(run, now)) && runningTasks == RunningIds(world, run)
      modifies this`world, state
      ensures Valid() && world == Apply(old(world), Tick(run, now)) && tasks == RunningIds(world, run)
    {
      TickRunningIds(world, Tick(run, now), run);
      tasks := ClaimAndSpawn(now, runningTasks);
      Advance(Tick(run, now));
    }

    /** Writes a joined task's outcome to the shared table and counts it; None if the addition panics. */
    method HandleTaskCompletion(checkId: Uuid, outcome: Outcome, stats: Stats) returns (updated: Option<Stats>)
      modifies state
      ensures updated.None? <==>
        && outcome.Done? && checkId in old(state.checks)
        && outcome.completedAt + TotalNanos(Interval(old(state.checks)[checkId].check, config.unit)) > config.limit
      ensures updated.None? ==> state.checks == OverflowTable(old(state.checks), checkId, outcome.completedAt)
      ensures updated.Some? ==>
                && state.checks == JoinTable(old(state.checks), checkId, outcome, config.unit)
                && updated.value == CountJoin(stats, outcome)
    {
      match outcome {
        case Done(completedAt, recorded) =>
          var panicked := state.Complete(checkId, completedAt, config.unit, config.limit);
          if panicked {
            return None;
          }
          updated := Some(stats.(completed := stats.completed + 1));
          if !recorded {
            updated := Some(updated.value.(sinkErrors := updated.value.sinkErrors + 1));
          }
        case JoinError =>
          updated := Some(stats.(failures := stats.failures + 1));
      }
    }

    /** Takes an ended task, for whichever run it belongs to; None if that run panics. */
    method TakeTask(task: TaskId, outcome: Outcome, stats: Stats) returns (updated: Option<Stats>)
      requires Valid() && task in world.tasks && OutcomeOf(world.tasks[task].phase) == Some(outcome)
      requires Enabled(world, Leaving(world, task))
      modifies this`world, state
      ensures Valid() && world == Apply(old(world), Leaving(old(world), task))
      ensures updated == if Leaving(old(world), task).Overflow? then None
                         else Some(CountJoin(stats, outcome))
    {
      TakeShape(world, task);
      ghost var s := Leaving(world, task);
      updated := HandleTaskCompletion(task.check, outcome, stats);
      Advance(s);
    }

    /** One step of the environment: a task makes progress, another run acts, or a check is registered. */
    method Environment(s: Step, ghost run: nat)
      requires Valid() && MayHappen(sink, before, world, s)
      requires !Own(s, run) && run < |world.runs|
      modifies this`world, state, sink.Tables()
      ensures Valid() && world == Apply(old(world), s)
      ensures run < |world.runs| && world.runs[run] == old(world).runs[run]
      ensures RunningIds(world, run) == RunningIds(old(world), run)
    {
      EnvironmentKeepsEntry(world, s, run);
      EnvironmentKeepsIds(world, s, run);
      Perform(s);
    }

    /** What a step does to the shared table and to the sink, whoever takes it. */
    method Perform(s: Step)
      requires Valid() && MayHappen(sink, before, world, s)
      modifies this`world, state, sink.Tables()
      ensures Valid() && world == Apply(old(world), s)
    {
      match s {
        case Register(check, now) => Register(check, now);
        case Tick(_, now) =>
          var _ := state.ClaimDueChecks(now);
          Advance(s);
        case Record(task, result, ok) => RecordResult(result, task, ok);
        case Join(_, task, outcome) => var _ := TakeTask(task, outcome, ZERO_STATS);
        case Overflow(_, task, outcome) => var _ := TakeTask(task, outcome, ZERO_STATS);
        case _ => Advance(s);
      }
    }

    // The loop of one run.

    /** The locals of the run's code are what the transition system says of the run. */
    ghost predicate Holds(run: nat, tasks: set<Uuid>, stats: Stats)
      reads this
    {
      run < |world.runs| && !world.runs[run].gone && stats == world.runs[run].stats && tasks == RunningIds(world, run)
    }

    /** The joining arm; None if the addition panics. */
    method JoinNext(run: nat, task: TaskId, outcome: Outcome, runningTasks: set<Uuid>, stats: Stats)
      returns (tasks: set<Uuid>, updated: Option<Stats>)
      requires Valid() && Holds(run, runningTasks, stats) && task in world.tasks && world.tasks[task].run == run
      requires OutcomeOf(world.tasks[task].phase) == Some(outcome)
      modifies this`world, state
      ensures Valid() && world == Apply(old(world), Leaving(old(world), task))
      ensures run < |world.runs| && world.runs[run].draining == old(world).runs[run].draining
      ensures updated.None? <==> world.runs[run].gone
      ensures updated.Some? ==> Holds(run, tasks, updated.value)
    {
      TakeShape(world, task);
      TakeRunningIds(world, Leaving(world, task), run);
      updated := TakeTask(task, outcome, stats);
      tasks := runningTasks - {task.check};
    }

    /** What happens while the run waits: one of its tasks ends, the environment acts, or the run is dropped. */
    method Await(s: Step, run: nat, runningTasks: set<Uuid>, stats: Stats)
      returns (tasks: set<Uuid>, updated: Option<Stats>)
      requires Valid() && MayHappen(sink, before, world, s)
      requires Awaited(s, run) && Holds(run, runningTasks, stats)
      modifies this`world, state, sink.Tables()
      ensures Valid() && world == Apply(old(world), s)
      ensures run < |world.runs| && world.runs[run].draining == old(world).runs[run].draining
      ensures updated.None? <==> world.runs[run].gone
      ensures updated.Some? ==> Holds(run, tasks, updated.value)
    {
      if (s.Join? || s.Overflow?) && s.run == run {
        tasks, updated := JoinNext(run, s.task, s.outcome, runningTasks, stats);
      } else if s == Crash(run) {
        Advance(s);
        tasks, updated := runningTasks, None;
      } else {
        Environment(s, run);
        tasks, updated := runningTasks, Some(stats);
      }
    }

    /** One turn of the main loop: a tick of the run, or what happens while it waits. */
    method Turn(s: Step, run: nat, runningTasks: set<Uuid>, stats: Stats)
      returns (tasks: set<Uuid>, updated: Option<Stats>)
      requires Valid() && MayHappen(sink, before, world, s)
      requires s != Shutdown(run) && Holds(run, runningTasks, stats)
      modifies this`world, state, sink.Tables()
      ensures Valid() && world == Apply(old(world), s)
      ensures run < |world.runs| && world.runs[run].draining == old(world).runs[run].draining
      ensures updated.None? <==> world.runs[run].gone
      ensures updated.Some? ==> Holds(run, tasks, updated.value)
    {
      if s.Tick? && s.run == run {
        tasks := SpawnDueChecks(run, s.now, runningTasks);
        updated := Some(stats);
      } else {
        tasks, updated := Await(s, run, runningTasks, stats);
      }
    }

    /** The shared state is the one that the first i steps of the script lead to. */
    ghost predicate At(start: World, script: seq<Step>, i: nat)
      reads this, state, sink.Tables()
    {
      Valid() && i <= |script| && Trace(start, script[..i]) && world == Exec(start, script[..i])
    }

    /** The main loop: ticks, completions and the environment, until the shutdown signal; None if the run is gone. */
    method Serve(run: nat, script: seq<Step>, ghost start: World)
      returns (runningTasks: set<Uuid>, stats: Option<Stats>, i: nat)
      requires Script(sink, before, start, script, run) && At(start, script, 0)
      requires Holds(run, {}, ZERO_STATS) && !world.runs[run].draining
      modifies this`world, state, sink.Tables()
      ensures At(start, script, i) && run < |world.runs|
      ensures stats.None? ==> world.runs[run].gone
      ensures stats.Some? ==> Holds(run, runningTasks, stats.value) && world.runs[run].draining
    {
      var current := ZERO_STATS;
      runningTasks, i := {}, 0;
      NextStep(sink, before, start, script, i, run);
      while script[i] != Shutdown(run)
        invariant At(start, script, i) && Holds(run, runningTasks, current) && !world.runs[run].draining
        invariant i < |script|
        decreases |script| - i
      {
        NextStep(sink, before, start, script, i, run);
        runningTasks, stats := Turn(script[i], run, runningTasks, current);
        i := i + 1;
        if stats.None? {
          return;
        }
        current := stats.value;
        NextStep(sink, before, start, script, i, run);
      }
      NextStep(sink, before, start, script, i, run);
      Signal(run);
      i := i + 1;
      stats := Some(current);
    }

    /** The shutdown signal. */
    ghost method Signal(run: nat)
      requires Valid() && CanTick(world, run)
      modifies this`world
      ensures Valid() && world == Apply(old(world), Shutdown(run))
      ensures run < |world.runs| && world.runs[run] == old(world).runs[run].(draining := true)
      ensures RunningIds(world, run) == RunningIds(old(world), run)
    {
      QuietStepKeepsJoinSet(world, Shutdown(run), run);
      Advance(Shutdown(run));
    }

    /** One turn of the drain: nothing is left to join, or the run waits for the next task. */
    method DrainTurn(run: nat, script: seq<Step>, ghost start: World, i: nat, runningTasks: set<Uuid>, stats: Stats)
      returns (tasks: set<Uuid>, updated: Option<Stats>, next: nat)
      requires Script(sink, before, start, script, run) && At(start, script, i)
      requires Holds(run, runningTasks, stats) && world.runs[run].draining
      modifies this`world, state, sink.Tables()
      ensures At(start, script, next) && i <= next && (next == i ==> updated.Some? && tasks == {})
      ensures run < |world.runs| && world.runs[run].draining
      ensures updated.None? <==> world.runs[run].gone
      ensures updated.Some? ==> Holds(run, tasks, updated.value)
    {
      if runningTasks == {} {
        return runningTasks, Some(stats), i;
      }
      DrainWaits(world, run);
      NextStep(sink, before, start, script, i, run);
      tasks, updated := Await(script[i], run, runningTasks, stats);
      next := i + 1;
    }

    /** The drain: joins until nothing is left; None if the run is gone. */
    method JoinAll(run: nat, script: seq<Step>, ghost start: World, from: nat, running: set<Uuid>, soFar: Stats)
      returns (stats: Option<Stats>, i: nat)
      requires Script(sink, before, start, script, run) && At(start, script, from)
      requires Holds(run, running, soFar) && world.runs[run].draining
      modifies this`world, state, sink.Tables()
      ensures At(start, script, i) && run < |world.runs|
      ensures stats.None? ==> world.runs[run].gone
      ensures stats.Some? ==> Holds(run, {}, stats.value) && world.runs[run].draining
    {
      var runningTasks, joining := running, true;
      stats, i := Some(soFar), from;
      while joining && stats.Some?
        invariant At(start, script, i) && run < |world.runs| && world.runs[run].draining
        invariant stats.None? <==> world.runs[run].gone
        invariant stats.Some? ==> Holds(run, runningTasks, stats.value) && (!joining ==> runningTasks == {})
        decreases |script| - i, if joining then 1 else 0
      {
        var was := i;
        runningTasks, stats, i := DrainTurn(run, script, start, i, runningTasks, stats.value);
        joining := i > was;
      }
    }

    /**
     Serves ticks and completions as `script` offers them until the shutdown signal,
     then joins what is still running. `script` is the interleaving of the run with its
     environment, from its start until it returns or is gone; in the latter case there
     are no stats.
     */
    method RunUntilShutdown(run: nat, script: seq<Step>) returns (stats: Option<Stats>)
      requires Valid() && run == |world.runs|
      requires Script(sink, before, Apply(world, StartRun), script, run)
      modifies this`world, state, sink.Tables()
      ensures Valid() && Reaches(Apply(old(world), StartRun), script, world) && Ended(world, run)
      ensures stats == if world.runs[run].gone then None else Some(world.runs[run].stats)
      ensures stats.Some? ==>
                && world.runs[run].spawned == stats.value.completed + stats.value.failures
                && EntriesOf(world.sink, run) == stats.value.completed - stats.value.sinkErrors
                && stats.value.sinkErrors == Refusals(Apply(old(world), StartRun), script, run)
      ensures stats.Some? && |world.runs| == 1 ==> FlagsTellFailures(world)
    {
      NewRunIsEmpty(world);
      Advance(StartRun);
      ghost var start := world;
      ScriptIsTrace(sink, before, start, script, run);
      var runningTasks, soFar, i := Serve(run, script, start);
      if soFar.None? {
        LastStep(sink, before, start, script, i, run);
        return None;
      }
      stats, i := JoinAll(run, script, start, i, runningTasks, soFar.value);
      if stats.Some? {
        NothingRunning(world, run);
      }
      LastStep(sink, before, start, script, i, run);
      if stats.Some? {
        ReturnedAccounts(start, script, run);
        if |world.runs| == 1 {
          OnlyRunIdle(world);
          IdleFlags(world);
        }
      }
    }
  }

  /** What a returned run has counted. */
  lemma ReturnedAccounts(start: World, script: seq<Step>, run: nat)
    requires Inv(start) && Accounted(start) && Trace(start, script) && SafeTrace(start, script)
    requires run < |start.runs| && start.runs[run].stats == ZERO_STATS && JoinSet(start.tasks, run) == {}
    requires var w := Exec(start, script);
             run < |w.runs| && !w.runs[run].gone && JoinSet(w.tasks, run) == {}
    ensures var w := Exec(start, script);
            var stats := w.runs[run].stats;
            && w.runs[run].spawned == stats.completed + stats.failures
            && EntriesOf(w.sink, run) == stats.completed - stats.sinkErrors
            && stats.sinkErrors == Refusals(start, script, run)
  {
    var w := Exec(start, script);
    TraceKeepsAccounts(start, script);
    SinkErrorsAreRefusals(start, script, run);
    assert Balanced(w, run);
    assert Unjoined(w.tasks, run) <= JoinSet(w.tasks, run) && Refused(w.tasks, run) <= JoinSet(w.tasks, run);
    assert Refused(start.tasks, run) <= JoinSet(start.tasks, run);
  }

  lemma ReturnedStep(w: World, s: Step, run: nat)
    requires Enabled(w, s) && run < |w.runs| && w.runs[run].draining && JoinSet(w.tasks, run) == {}
    ensures var v := Apply(w, s);
            && run < |v.runs| && v.runs[run].draining && v.runs[run].stats == w.runs[run].stats
            && JoinSet(v.tasks, run) == {}
  {
    var v := Apply(w, s);
    assert forall t :: t in w.tasks ==> t !in JoinSet(w.tasks, run);
    assert forall t :: t in v.tasks ==> v.tasks[t].run != run;
  }

  /** What a run returned is final: no later step changes its stats or gives it a task. */
  lemma {:induction false} ReturnedRunIsFinal(w: World, steps: seq<Step>, run: nat)
    requires Trace(w, steps) && run < |w.runs| && w.runs[run].draining && JoinSet(w.tasks, run) == {}
    ensures var v := Exec(w, steps);
            run < |v.runs| && v.runs[run].stats == w.runs[run].stats && JoinSet(v.tasks, run) == {}
    decreases steps
  {
    if steps == [] {
    } else {
      ReturnedStep(w, steps[0], run);
      ReturnedRunIsFinal(Apply(w, steps[0]), steps[1..], run);
    }
  }

  lemma NewRunIsEmpty(w: World)
    requires AllTracked(w)
    ensures JoinSet(Apply(w, StartRun).tasks, |w.runs|) == {} && RunningIds(Apply(w, StartRun), |w.runs|) == {}
  {
    forall t | t in w.tasks ensures w.tasks[t].run != |w.runs| {
      assert Tracked(w, t);
    }
  }

  lemma NothingRunning(w: World, run: nat)
    requires RunningIds(w, run) == {}
    ensures JoinSet(w.tasks, run) == {}
  {
    assert forall t :: t in JoinSet(w.tasks, run) ==> t.check in RunningIds(w, run);
  }
}
