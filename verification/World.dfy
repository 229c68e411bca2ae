/**
 The scheduler as a transition system: any number of runs share one table, each
 claimed check becomes a task that executes, records its result and finishes (or
 panics), and the run that spawned it joins it. Every interleaving of the steps
 is a trace. The log of each check is auxiliary: no step reads it to decide.
 */
module Worlds {
  import opened Wrappers
  import opened Domain
  import opened Durations
  import opened SchedulerStates

  datatype Config = Config(unit: Duration, limit: Instant)

  datatype Stats = Stats(completed: nat, sinkErrors: nat, failures: nat)

  /**
   A run that is gone has been dropped or has panicked: its tasks are never joined and its
   stats are lost. `spawned` is auxiliary: how many tasks the run has spawned.
   */
  datatype Run = Run(stats: Stats, draining: bool, gone: bool, spawned: nat)

  /** One execution of a check; its number is the check's log length when it started. */
  datatype TaskId = TaskId(check: Uuid, number: nat)

  datatype Phase =
    | Executing
    | Recorded(recorded: bool)
    | Finished(completedAt: Instant, recorded: bool)
    | Panicked

  datatype Task = Task(run: nat, startedAt: Instant, phase: Phase)

  /** A recorded result; which run's task appended it is auxiliary. */
  datatype Entry = Entry(run: nat, task: TaskId, result: CheckResult)

  datatype Event =
    | Registered(check: Check, at: Instant)
    | Started(at: Instant)
    | Completed(at: Instant, due: Instant)
    | Overflowed(at: Instant, due: Instant)
    | Failed

  type Log = seq<Event>

  datatype World = World(
    config: Config,
    clock: Instant,
    checks: Table,
    tasks: Tasks,
    runs: seq<Run>,
    sink: seq<Entry>,
    log: Logs)

  datatype Outcome = Done(completedAt: Instant, recorded: bool) | JoinError

  datatype Step =
    | Register(check: Check, now: Instant)
    | StartRun
    | Tick(run: nat, now: Instant)
    | Record(task: TaskId, result: CheckResult, ok: bool)
    | Finish(task: TaskId, now: Instant)
    | Panic(task: TaskId)
    | Join(run: nat, task: TaskId, outcome: Outcome)
    | Shutdown(run: nat)
    | Overflow(run: nat, task: TaskId, outcome: Outcome)
    | Crash(run: nat)

  const ZERO_STATS := Stats(0, 0, 0)

  function Fresh(config: Config): World {
    World(config, 0, map[], map[], [], [], map[])
  }

  type Logs = map<Uuid, Log>

  function Entries(log: Logs, id: Uuid): Log {
    if id in log then log[id] else []
  }

  function LogOf(w: World, id: Uuid): Log {
    Entries(w.log, id)
  }

  function Append(log: Logs, id: Uuid, e: Event): Logs {
    log[id := Entries(log, id) + [e]]
  }

  ghost predicate InFlight(w: World, id: Uuid) {
    exists t :: t in w.tasks && t.check == id
  }

  type Tasks = map<TaskId, Task>

  /** The tasks a run has spawned and not yet joined. */
  function JoinSet(tasks: Tasks, run: nat): set<TaskId> {
    set t | t in tasks && tasks[t].run == run
  }

  function Spawn(tasks: Tasks, spawned: set<TaskId>, run: nat, now: Instant): Tasks {
    tasks + map t | t in spawned :: Task(run, now, Executing)
  }

  function OutcomeOf(phase: Phase): Option<Outcome> {
    match phase
    case Finished(at, ok) => Some(Done(at, ok))
    case Panicked => Some(JoinError)
    case _ => None
  }

  /** The tasks a tick spawns. */
  function Spawned(w: World, now: Instant): set<TaskId> {
    set id | id in Due(w.checks, now) :: TaskId(id, |LogOf(w, id)|)
  }

  function CountJoin(stats: Stats, outcome: Outcome): Stats {
    match outcome
    case Done(_, recorded) =>
      stats.(completed := stats.completed + 1, sinkErrors := stats.sinkErrors + if recorded then 0 else 1)
    case JoinError => stats.(failures := stats.failures + 1)
  }

  function JoinTable(table: Table, id: Uuid, outcome: Outcome, unit: Duration): Table {
    if outcome.Done? then CompleteIn(table, id, outcome.completedAt, unit) else table
  }

  /** A completion whose addition overflows: the flag is cleared, the due time stays, and the run panics. */
  function OverflowTable(table: Table, id: Uuid, completedAt: Instant): Table {
    if id in table then table[id := OverflowEntry(table[id], completedAt)] else table
  }

  function JoinRuns(runs: seq<Run>, run: nat, outcome: Outcome): seq<Run>
    requires run < |runs|
  {
    runs[run := runs[run].(stats := CountJoin(runs[run].stats, outcome))]
  }

  function JoinEvent(table: Table, id: Uuid, outcome: Outcome, unit: Duration): Event {
    match outcome
    case JoinError => Failed
    case Done(at, _) => Completed(at, at + if id in table then TotalNanos(Interval(table[id].check, unit)) else 0)
  }

  /** When a step can happen at all. */
  predicate Enabled(w: World, s: Step) {
    match s
    case Register(_, now) => w.clock <= now
    case StartRun => true
    case Tick(run, now) => w.clock <= now && CanTick(w, run)
    case Record(task, result, _) => task in w.tasks && w.tasks[task].phase == Executing && result.checkId == task.check
    case Finish(task, now) => w.clock <= now && task in w.tasks && w.tasks[task].phase.Recorded?
    case Panic(task) => task in w.tasks && w.tasks[task].phase == Executing
    case Join(run, task, outcome) =>
      && task in w.tasks && w.tasks[task].run == run < |w.runs| && !w.runs[run].gone
      && OutcomeOf(w.tasks[task].phase) == Some(outcome)
      && (outcome.Done? ==> NoOverflow(w, task.check, outcome.completedAt))
    case Shutdown(run) => CanTick(w, run)
    case Overflow(run, task, outcome) =>
      && task in w.tasks && w.tasks[task].run == run < |w.runs| && !w.runs[run].gone
      && OutcomeOf(w.tasks[task].phase) == Some(outcome)
      && outcome.Done? && !NoOverflow(w, task.check, outcome.completedAt)
    case Crash(run) => run < |w.runs| && !w.runs[run].gone
  }

  /** How an ended task leaves its run: joined, or taken by a run that panics in the addition. */
  function Leaving(w: World, t: TaskId): Step
    requires t in w.tasks && OutcomeOf(w.tasks[t].phase).Some?
  {
    var run, outcome := w.tasks[t].run, OutcomeOf(w.tasks[t].phase).value;
    if outcome.Done? && !NoOverflow(w, t.check, outcome.completedAt) then Overflow(run, t, outcome)
    else Join(run, t, outcome)
  }

  /** The run is in its main loop. */
  predicate CanTick(w: World, run: nat) {
    run < |w.runs| && !w.runs[run].draining && !w.runs[run].gone
  }

  predicate NoOverflow(w: World, id: Uuid, completedAt: Instant) {
    id in w.checks ==> completedAt + TotalNanos(Interval(w.checks[id].check, w.config.unit)) <= w.config.limit
  }

  /** The one discipline asked of callers: no enabled check is registered while its id is in flight. */
  ghost predicate Safe(w: World, s: Step) {
    s.Register? ==> !(s.check.enabled && InFlight(w, s.check.id))
  }

  function Apply(w: World, s: Step): World
    requires Enabled(w, s)
  {
    match s
    case Register(check, now) =>
      w.(clock := now, checks := w.checks[check.id := NewEntry(check, now)],
         log := Append(w.log, check.id, Registered(check, now)))
    case StartRun =>
      w.(runs := w.runs + [Run(ZERO_STATS, false, false, 0)])
    case Tick(run, now) =>
      var due, spawned := Due(w.checks, now), Spawned(w, now);
      w.(clock := now, checks := Claim(w.checks, now),
         tasks := Spawn(w.tasks, spawned, run, now),
         runs := w.runs[run := w.runs[run].(spawned := w.runs[run].spawned + |spawned|)],
         log := w.log + map id | id in due :: LogOf(w, id) + [Started(now)])
    case Record(task, result, ok) =>
      w.(tasks := w.tasks[task := w.tasks[task].(phase := Recorded(ok))],
         sink := if ok then w.sink + [Entry(w.tasks[task].run, task, result)] else w.sink)
    case Finish(task, now) =>
      w.(clock := now,
         tasks := w.tasks[task := w.tasks[task].(phase := Finished(now, w.tasks[task].phase.recorded))])
    case Panic(task) =>
      w.(tasks := w.tasks[task := w.tasks[task].(phase := Panicked)])
    case Join(run, task, outcome) =>
      w.(checks := JoinTable(w.checks, task.check, outcome, w.config.unit),
         tasks := w.tasks - {task},
         runs := JoinRuns(w.runs, run, outcome),
         log := Append(w.log, task.check, JoinEvent(w.checks, task.check, outcome, w.config.unit)))
    case Shutdown(run) =>
      w.(runs := w.runs[run := w.runs[run].(draining := true)])
    case Overflow(run, task, outcome) =>
      w.(checks := OverflowTable(w.checks, task.check, outcome.completedAt),
         tasks := w.tasks - {task},
         runs := w.runs[run := w.runs[run].(gone := true)],
         log := Append(w.log, task.check, Overflowed(outcome.completedAt, w.checks[task.check].nextDue)))
    case Crash(run) =>
      w.(runs := w.runs[run := w.runs[run].(gone := true)])
  }

  /** A trace whose every step can happen. */
  predicate Trace(w: World, steps: seq<Step>)
    decreases steps
  {
    steps == [] || (Enabled(w, steps[0]) && Trace(Apply(w, steps[0]), steps[1..]))
  }

  /** A trace whose registrations all keep the discipline. */
  ghost predicate SafeTrace(w: World, steps: seq<Step>)
    requires Trace(w, steps)
    decreases steps
  {
    steps == [] || (Safe(w, steps[0]) && SafeTrace(Apply(w, steps[0]), steps[1..]))
  }

  function Exec(w: World, steps: seq<Step>): World
    requires Trace(w, steps)
    decreases steps
  {
    if steps == [] then w else Exec(Apply(w, steps[0]), steps[1..])
  }

  lemma Cons(w: World, s: Step, rest: seq<Step>)
    ensures Trace(w, [s] + rest) <==> Enabled(w, s) && Trace(Apply(w, s), rest)
    ensures Trace(w, [s] + rest) ==> Exec(w, [s] + rest) == Exec(Apply(w, s), rest)
    ensures Trace(w, [s] + rest) ==> (SafeTrace(w, [s] + rest) <==> Safe(w, s) && SafeTrace(Apply(w, s), rest))
  {
    assert ([s] + rest)[1..] == rest;
  }

  /** A trace splits at any point, and its two parts compose. */
  lemma {:induction false} TraceSplit(w: World, a: seq<Step>, b: seq<Step>)
    ensures Trace(w, a + b) <==> Trace(w, a) && Trace(Exec(w, a), b)
    ensures Trace(w, a + b) ==> Exec(w, a + b) == Exec(Exec(w, a), b)
    ensures Trace(w, a + b) ==> (SafeTrace(w, a + b) <==> SafeTrace(w, a) && SafeTrace(Exec(w, a), b))
    decreases a
  {
    if a == [] {
      assert a + b == b;
    } else {
      assert (a + b)[0] == a[0] && (a + b)[1..] == a[1..] + b;
      if Enabled(w, a[0]) {
        TraceSplit(Apply(w, a[0]), a[1..], b);
      }
    }
  }

  lemma TwoSteps(w: World, s: Step, s': Step)
    ensures Trace(w, [s, s']) <==> Enabled(w, s) && Enabled(Apply(w, s), s')
    ensures Trace(w, [s, s']) ==> Exec(w, [s, s']) == Apply(Apply(w, s), s')
  {
    assert [s, s'] == [s] + [s'] && [s'] == [s'] + [];
    Cons(w, s, [s']);
    if Enabled(w, s) {
      Cons(Apply(w, s), s', []);
    }
  }
}
