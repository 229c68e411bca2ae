/** The inductive invariant of the transition system, and exclusive execution as its first consequence. */
module Exclusion {
  import opened Wrappers
  import opened Domain
  import opened Durations
  import opened SchedulerStates
  import opened Worlds

  function Last(log: Log): Event
    requires log != []
  {
    log[|log| - 1]
  }

  /** The check most recently registered under this log. */
  function InForce(log: Log): Option<Check> {
    if log == [] then None
    else if Last(log).Registered? then Some(Last(log).check)
    else InForce(log[..|log| - 1])
  }

  function Delay(log: Log, unit: Duration): nat {
    match InForce(log)
    case Some(check) => TotalNanos(Interval(check, unit))
    case None => 0
  }

  /** What may follow what in the log of one check, and at which times. */
  predicate Follows(before: Event, delay: nat, e: Event) {
    match e
    case Registered(_, _) => true
    case Started(at) =>
      || (before.Registered? && before.at <= at)
      || ((before.Completed? || before.Overflowed?) && before.due <= at)
    case Completed(at, due) =>
      && (before.Registered? || (before.Started? && before.at <= at))
      && due == at + delay
    case Overflowed(at, _) => before.Registered? || (before.Started? && before.at <= at)
    case Failed => before.Registered? || before.Started?
  }

  ghost predicate Timeline(log: Log, unit: Duration) {
    && log != [] && log[0].Registered?
    && forall k :: 0 < k < |log| ==> Follows(log[k - 1], Delay(log[..k], unit), log[k])
  }

  /** How the last event of a check's log shows in its entry and its tasks. */
  ghost predicate Linked(w: World, id: Uuid)
    requires id in w.checks
  {
    var log, entry := LogOf(w, id), w.checks[id];
    && Timeline(log, w.config.unit)
    && InForce(log) == Some(entry.check)
    && match Last(log)
       case Registered(_, at) => !entry.running && entry.nextDue == at
       case Started(at) =>
         TaskId(id, |log| - 1) in w.tasks && w.tasks[TaskId(id, |log| - 1)].startedAt == at && entry.nextDue <= at
       case Completed(_, due) => !InFlight(w, id) && entry.nextDue == due
       case Overflowed(_, due) => !InFlight(w, id) && entry.nextDue == due
       case Failed => !InFlight(w, id)
  }

  predicate FailedLast(w: World, id: Uuid) {
    LogOf(w, id) != [] && Last(LogOf(w, id)).Failed?
  }

  /** At most one task per check is in flight, across all runs. */
  ghost predicate Exclusive(w: World) {
    forall t, u :: t in w.tasks && u in w.tasks && t.check == u.check ==> t == u
  }

  /**
   The flag means: enabled, and either in flight or failed since its registration. A
   task of a run that is gone stays in flight, since nobody joins it.
   */
  ghost predicate Flagged(w: World, id: Uuid)
    requires id in w.checks
  {
    w.checks[id].running <==> w.checks[id].check.enabled && (InFlight(w, id) || FailedLast(w, id))
  }

  ghost predicate Tracked(w: World, t: TaskId)
    requires t in w.tasks
  {
    var task := w.tasks[t];
    && t.check in w.checks && task.run < |w.runs| && t.number < |LogOf(w, t.check)|
    && task.startedAt <= w.clock
    && (task.phase.Finished? ==> task.startedAt <= task.phase.completedAt <= w.clock)
  }

  ghost predicate AllTracked(w: World) {
    forall t :: t in w.tasks ==> Tracked(w, t)
  }

  ghost predicate AllLinked(w: World) {
    forall id :: id in w.checks ==> Linked(w, id) && Flagged(w, id)
  }

  ghost predicate Inv(w: World) {
    Keyed(w.checks) && w.log.Keys == w.checks.Keys && Exclusive(w) && AllTracked(w) && AllLinked(w)
  }

  lemma SpawnedAreNew(w: World, now: Instant)
    requires AllTracked(w)
    ensures Spawned(w, now) !! w.tasks.Keys
  {
    forall t | t in w.tasks ensures t !in Spawned(w, now) {
      assert Tracked(w, t);
    }
  }

  lemma ExtendTimeline(log: Log, unit: Duration, e: Event)
    requires Timeline(log, unit) && Follows(Last(log), Delay(log, unit), e)
    ensures Timeline(log + [e], unit)
    ensures InForce(log + [e]) == if e.Registered? then Some(e.check) else InForce(log)
  {
    var longer := log + [e];
    assert longer[..|longer| - 1] == log;
    forall k | 0 < k < |longer| ensures Follows(longer[k - 1], Delay(longer[..k], unit), longer[k]) {
      assert longer[..k] == log[..k];
      assert log[..|log|] == log;
    }
  }

  /** A check whose entry, log and tasks a step leaves alone stays linked. */
  lemma Untouched(w: World, v: World, id: Uuid)
    requires id in w.checks && Linked(w, id) && Flagged(w, id)
    requires v.config == w.config && id in v.checks && v.checks[id] == w.checks[id] && LogOf(v, id) == LogOf(w, id)
    requires forall t: TaskId :: t.check == id ==> (t in v.tasks <==> t in w.tasks)
    requires forall t: TaskId :: t.check == id && t in w.tasks ==> v.tasks[t].startedAt == w.tasks[t].startedAt
    ensures Linked(v, id) && Flagged(v, id)
  {
    assert InFlight(v, id) <==> InFlight(w, id);
  }

  lemma RegisterKeepsTasks(w: World, s: Step)
    requires AllTracked(w) && Exclusive(w) && Keyed(w.checks) && w.log.Keys == w.checks.Keys
    requires s.Register? && Enabled(w, s)
    ensures var v := Apply(w, s); AllTracked(v) && Exclusive(v) && Keyed(v.checks) && v.log.Keys == v.checks.Keys
  {
    forall t | t in w.tasks ensures Tracked(Apply(w, s), t) {
      assert Tracked(w, t);
    }
  }

  lemma RegisterLinks(w: World, s: Step)
    requires Inv(w) && s.Register? && Enabled(w, s) && Safe(w, s)
    ensures Linked(Apply(w, s), s.check.id) && Flagged(Apply(w, s), s.check.id)
  {
    var v, id := Apply(w, s), s.check.id;
    var e := Event.Registered(s.check, s.now);
    assert InFlight(v, id) <==> InFlight(w, id);
    if id in w.checks {
      assert Linked(w, id);
      ExtendTimeline(LogOf(w, id), w.config.unit, e);
    } else {
      assert LogOf(v, id) == [e];
    }
  }

  lemma RegisterKeepsInv(w: World, s: Step)
    requires Inv(w) && s.Register? && Enabled(w, s) && Safe(w, s)
    ensures Inv(Apply(w, s))
  {
    var v := Apply(w, s);
    RegisterKeepsTasks(w, s);
    RegisterLinks(w, s);
    forall x | x in v.checks && x != s.check.id ensures Linked(v, x) && Flagged(v, x) {
      Untouched(w, v, x);
    }
  }

  predicate Quiet(s: Step) {
    s.StartRun? || s.Record? || s.Finish? || s.Panic? || s.Shutdown? || s.Crash?
  }

  /** Quiet steps leave the table and the logs alone and change no more than phases and runs. */
  lemma QuietStepShape(w: World, s: Step)
    requires AllTracked(w) && Quiet(s) && Enabled(w, s)
    ensures var v := Apply(w, s);
            && v.config == w.config && v.checks == w.checks && v.log == w.log && v.tasks.Keys == w.tasks.Keys
            && AllTracked(v)
            && forall t :: t in w.tasks ==> v.tasks[t].startedAt == w.tasks[t].startedAt
  {
    var v := Apply(w, s);
    forall t | t in v.tasks ensures Tracked(v, t) {
      assert Tracked(w, t);
    }
  }

  lemma QuietStepKeepsInv(w: World, s: Step)
    requires Inv(w) && Quiet(s) && Enabled(w, s)
    ensures Inv(Apply(w, s))
  {
    var v := Apply(w, s);
    QuietStepShape(w, s);
    forall x | x in v.checks ensures Linked(v, x) && Flagged(v, x) {
      Untouched(w, v, x);
    }
  }

  /** A claimed check had no task in flight, and its claim extends its log. */
  lemma ClaimedWasIdle(w: World, id: Uuid, now: Instant)
    requires Inv(w) && id in Due(w.checks, now)
    ensures !InFlight(w, id) && !FailedLast(w, id)
    ensures Timeline(LogOf(w, id) + [Event.Started(now)], w.config.unit)
    ensures InForce(LogOf(w, id) + [Event.Started(now)]) == Some(w.checks[id].check)
  {
    assert Flagged(w, id) && Linked(w, id);
    ExtendTimeline(LogOf(w, id), w.config.unit, Event.Started(now));
  }

  lemma TickShape(w: World, s: Step, id: Uuid)
    requires s.Tick? && Enabled(w, s)
    ensures var v := Apply(w, s);
            && v.checks.Keys == w.checks.Keys
            && (w.log.Keys == w.checks.Keys ==> v.log.Keys == v.checks.Keys)
            && (id in w.checks ==> v.checks[id] == ClaimEntry(w.checks[id], s.now))
            && LogOf(v, id) ==
               (if id in Due(w.checks, s.now) then LogOf(w, id) + [Event.Started(s.now)] else LogOf(w, id))
            && (forall n :: TaskId(id, n) in v.tasks <==>
                  (TaskId(id, n) in w.tasks || (id in Due(w.checks, s.now) && n == |LogOf(w, id)|)))
            && (forall n :: TaskId(id, n) in v.tasks ==>
                  (v.tasks[TaskId(id, n)] ==
                   if id in Due(w.checks, s.now) && n == |LogOf(w, id)|
                   then Task(s.run, s.now, Executing) else w.tasks[TaskId(id, n)]))
  {
    assert forall n :: TaskId(id, n) in Spawned(w, s.now) <==> id in Due(w.checks, s.now) && n == |LogOf(w, id)|;
  }

  lemma ClaimLinks(w: World, v: World, id: Uuid, now: Instant)
    requires Inv(w) && id in Due(w.checks, now)
    requires v.config == w.config && id in v.checks && v.checks[id] == ClaimEntry(w.checks[id], now)
    requires LogOf(v, id) == LogOf(w, id) + [Event.Started(now)]
    requires var t := TaskId(id, |LogOf(w, id)|); t in v.tasks && v.tasks[t].startedAt == now
    ensures Linked(v, id) && Flagged(v, id)
  {
    ClaimedWasIdle(w, id, now);
    assert TaskId(id, |LogOf(w, id)|).check == id;
    assert InFlight(v, id);
  }

  lemma TickLinks(w: World, s: Step)
    requires Inv(w) && s.Tick? && Enabled(w, s)
    ensures AllLinked(Apply(w, s))
  {
    var v := Apply(w, s);
    TickShape(w, s, 0);
    forall id | id in v.checks ensures Linked(v, id) && Flagged(v, id) {
      TickShape(w, s, id);
      if id in Due(w.checks, s.now) {
        ClaimLinks(w, v, id, s.now);
      } else {
        forall t: TaskId | t.check == id ensures t in v.tasks <==> t in w.tasks {
          assert t == TaskId(id, t.number);
        }
        Untouched(w, v, id);
      }
    }
  }

  lemma TickTracks(w: World, s: Step, t: TaskId)
    requires Inv(w) && s.Tick? && Enabled(w, s) && t in Apply(w, s).tasks
    ensures Tracked(Apply(w, s), t)
    ensures forall u :: u in Apply(w, s).tasks && u.check == t.check ==> u == t
  {
    var v := Apply(w, s);
    TickShape(w, s, t.check);
    assert t == TaskId(t.check, t.number);
    if t.check in Due(w.checks, s.now) {
      ClaimedWasIdle(w, t.check, s.now);
      assert !(t in w.tasks);
    } else {
      assert Tracked(w, t);
    }
    forall u | u in v.tasks && u.check == t.check ensures u == t {
      assert u == TaskId(t.check, u.number);
    }
  }

  lemma TickKeepsTasks(w: World, s: Step)
    requires Inv(w) && s.Tick? && Enabled(w, s)
    ensures AllTracked(Apply(w, s)) && Exclusive(Apply(w, s))
  {
    forall t | t in Apply(w, s).tasks
      ensures Tracked(Apply(w, s), t)
      ensures forall u :: u in Apply(w, s).tasks && u.check == t.check ==> u == t
    {
      TickTracks(w, s, t);
    }
  }

  lemma TickKeepsKeys(w: World, s: Step)
    requires Keyed(w.checks) && w.log.Keys == w.checks.Keys && s.Tick? && Enabled(w, s)
    ensures Keyed(Apply(w, s).checks) && Apply(w, s).log.Keys == Apply(w, s).checks.Keys
  {
    TickShape(w, s, 0);
  }

  lemma TickKeepsInv(w: World, s: Step)
    requires Inv(w) && s.Tick? && Enabled(w, s)
    ensures Inv(Apply(w, s))
  {
    TickKeepsKeys(w, s);
    TickKeepsTasks(w, s);
    TickLinks(w, s);
  }

  /** Steps that take a task out of its run's join set. */
  predicate Takes(s: Step) {
    s.Join? || s.Overflow?
  }

  /** What taking a task adds to its check's log. */
  function TakeEvent(w: World, s: Step): Event
    requires Takes(s) && Enabled(w, s)
  {
    if s.Join? then JoinEvent(w.checks, s.task.check, s.outcome, w.config.unit)
    else Overflowed(s.outcome.completedAt, w.checks[s.task.check].nextDue)
  }

  /** Taking a task extends its check's log and leaves no task of that check. */
  lemma JoinedLog(w: World, s: Step)
    requires Inv(w) && Takes(s) && Enabled(w, s)
    ensures !InFlight(Apply(w, s), s.task.check)
    ensures LogOf(Apply(w, s), s.task.check) == LogOf(w, s.task.check) + [TakeEvent(w, s)]
    ensures var id := s.task.check;
            && Timeline(LogOf(w, id) + [TakeEvent(w, s)], w.config.unit)
            && InForce(LogOf(w, id) + [TakeEvent(w, s)]) == Some(w.checks[id].check)
            && !Last(LogOf(w, id)).Failed?
  {
    var id := s.task.check;
    assert Tracked(w, s.task) && Linked(w, id) && InFlight(w, id);
    ExtendTimeline(LogOf(w, id), w.config.unit, TakeEvent(w, s));
  }

  lemma JoinLinks(w: World, s: Step)
    requires Inv(w) && Takes(s) && Enabled(w, s)
    ensures var v := Apply(w, s); s.task.check in v.checks && Linked(v, s.task.check) && Flagged(v, s.task.check)
  {
    assert Tracked(w, s.task) && InFlight(w, s.task.check) && Flagged(w, s.task.check);
    JoinedLog(w, s);
  }

  lemma JoinKeepsTask(w: World, s: Step, t: TaskId)
    requires Takes(s) && Enabled(w, s) && t in Apply(w, s).tasks && Tracked(w, t)
    ensures Tracked(Apply(w, s), t)
  {
  }

  lemma JoinKeepsKeys(w: World, s: Step)
    requires Takes(s) && Enabled(w, s) && s.task.check in w.checks && Keyed(w.checks) && w.log.Keys == w.checks.Keys
    ensures var v := Apply(w, s); Keyed(v.checks) && v.checks.Keys == w.checks.Keys == v.log.Keys
  {
    var v, id := Apply(w, s), s.task.check;
    assert v.log.Keys == w.log.Keys + {id};
    assert v.checks == w.checks || v.checks == w.checks[id := v.checks[id]];
    assert id in v.checks && v.checks[id].check == w.checks[id].check;
    KeyedUpdate(w.checks, id, v.checks[id]);
  }

  lemma KeyedUpdate(table: Table, id: Uuid, entry: ScheduledCheck)
    requires Keyed(table) && id in table && entry.check == table[id].check
    ensures Keyed(table[id := entry]) && table[id := entry].Keys == table.Keys
  {
  }

  lemma JoinKeepsTasks(w: World, s: Step)
    requires Inv(w) && Takes(s) && Enabled(w, s)
    ensures var v := Apply(w, s);
            && AllTracked(v) && Exclusive(v) && Keyed(v.checks)
            && v.checks.Keys == w.checks.Keys == v.log.Keys
  {
    assert Tracked(w, s.task);
    JoinKeepsKeys(w, s);
    forall t | t in Apply(w, s).tasks ensures Tracked(Apply(w, s), t) {
      assert Tracked(w, t);
      JoinKeepsTask(w, s, t);
    }
  }

  lemma JoinLinksOther(w: World, s: Step, id: Uuid)
    requires Inv(w) && Takes(s) && Enabled(w, s) && id in w.checks && id != s.task.check
    ensures var v := Apply(w, s); id in v.checks && Linked(v, id) && Flagged(v, id)
  {
    Untouched(w, Apply(w, s), id);
  }

  lemma JoinKeepsLinks(w: World, s: Step)
    requires Inv(w) && Takes(s) && Enabled(w, s)
    ensures AllLinked(Apply(w, s))
  {
    JoinLinks(w, s);
    forall x | x in Apply(w, s).checks && x != s.task.check ensures Linked(Apply(w, s), x) && Flagged(Apply(w, s), x) {
      JoinLinksOther(w, s, x);
    }
  }

  lemma JoinKeepsInv(w: World, s: Step)
    requires Inv(w) && Takes(s) && Enabled(w, s)
    ensures Inv(Apply(w, s))
  {
    JoinKeepsTasks(w, s);
    JoinKeepsLinks(w, s);
  }

  lemma StepKeepsInv(w: World, s: Step)
    requires Inv(w) && Enabled(w, s) && Safe(w, s)
    ensures Inv(Apply(w, s))
  {
    match s {
      case Register(_, _) => RegisterKeepsInv(w, s);
      case Tick(_, _) => TickKeepsInv(w, s);
      case Join(_, _, _) => JoinKeepsInv(w, s);
      case Overflow(_, _, _) => JoinKeepsInv(w, s);
      case _ => QuietStepKeepsInv(w, s);
    }
  }

  /** Every state that a disciplined trace reaches satisfies the invariant. */
  lemma {:induction false} TraceKeepsInv(w: World, steps: seq<Step>)
    requires Inv(w) && Trace(w, steps) && SafeTrace(w, steps)
    ensures Inv(Exec(w, steps))
    decreases steps
  {
    if steps == [] {
    } else {
      StepKeepsInv(w, steps[0]);
      TraceKeepsInv(Apply(w, steps[0]), steps[1..]);
    }
  }

  /**
   No self-overlap: whatever the number of runs and however their steps
   interleave, at most one task per check is in flight in every state reached,
   and the running flag says exactly that the check is enabled and in flight or failed.
   */
  lemma NoSelfOverlap(config: Config, steps: seq<Step>)
    requires Trace(Fresh(config), steps) && SafeTrace(Fresh(config), steps)
    ensures Exclusive(Exec(Fresh(config), steps))
    ensures var w := Exec(Fresh(config), steps);
            forall id :: id in w.checks ==>
              (w.checks[id].running <==> w.checks[id].check.enabled && (InFlight(w, id) || FailedLast(w, id)))
  {
    TraceKeepsInv(Fresh(config), steps);
    var w := Exec(Fresh(config), steps);
    forall id | id in w.checks ensures Flagged(w, id) {
    }
  }

  /** Registering an enabled check that is in flight, and then ticking, starts it a second time. */
  lemma SecondStart(w: World, check: Check, run: nat, now: Instant, t: TaskId)
    requires Inv(w) && w.clock <= now && CanTick(w, run)
    requires check.enabled && t in w.tasks && t.check == check.id
    ensures !Exclusive(Apply(Apply(w, Register(check, now)), Tick(run, now)))
  {
    var mid := Apply(w, Register(check, now));
    assert Tracked(w, t);
    TickShape(mid, Tick(run, now), check.id);
    var v := Apply(mid, Tick(run, now));
    assert TaskId(check.id, |LogOf(mid, check.id)|) in v.tasks;
    assert t == TaskId(check.id, t.number) && t in v.tasks;
  }

  /**
   The discipline is exact: registering a check and then ticking makes two tasks
   of one check overlap if and only if the check is enabled and in flight.
   */
  lemma OverlapExactly(w: World, check: Check, run: nat, now: Instant)
    requires Inv(w) && w.clock <= now && CanTick(w, run)
    ensures var steps := [Register(check, now), Tick(run, now)];
            Trace(w, steps) && (Exclusive(Exec(w, steps)) <==> !(check.enabled && InFlight(w, check.id)))
  {
    TwoSteps(w, Register(check, now), Tick(run, now));
    if check.enabled && InFlight(w, check.id) {
      var t :| t in w.tasks && t.check == check.id;
      SecondStart(w, check, run, now, t);
    } else {
      StepKeepsInv(w, Register(check, now));
      StepKeepsInv(Apply(w, Register(check, now)), Tick(run, now));
    }
  }

  /** A first claim puts a newly registered check in flight. */
  lemma FirstStart(config: Config, check: Check)
    requires check.enabled
    ensures var w := Apply(Fresh(config), StartRun);
            var steps := [Register(check, 0), Tick(0, 0)];
            && Trace(w, steps)
            && var v := Exec(w, steps);
               Inv(v) && InFlight(v, check.id) && |v.runs| == 1 && CanTick(v, 0) && v.clock == 0
  {
    var w := Apply(Fresh(config), StartRun);
    var mid := Apply(w, Register(check, 0));
    TwoSteps(w, Register(check, 0), Tick(0, 0));
    StepKeepsInv(Fresh(config), StartRun);
    StepKeepsInv(w, Register(check, 0));
    StepKeepsInv(mid, Tick(0, 0));
    TickShape(mid, Tick(0, 0), check.id);
    assert TaskId(check.id, |LogOf(mid, check.id)|) in Apply(mid, Tick(0, 0)).tasks;
  }

  /** A concrete overlap: registered, claimed, registered again while in flight, claimed again. */
  lemma ReRegistrationCanOverlap(config: Config, check: Check)
    requires check.enabled
    ensures var w := Apply(Fresh(config), StartRun);
            var steps := [Register(check, 0), Tick(0, 0)];
            Trace(w, steps + steps) && !Exclusive(Exec(w, steps + steps))
  {
    var w := Apply(Fresh(config), StartRun);
    var steps := [Register(check, 0), Tick(0, 0)];
    FirstStart(config, check);
    OverlapExactly(Exec(w, steps), check, 0, 0);
    TraceSplit(w, steps, steps);
  }
}
