/** Shutdown, draining and the order of joins; and which checks a tick starts. */
module Drain {
  import opened Domain
  import opened Durations
  import opened SchedulerStates
  import opened Worlds
  import opened Exclusion
  import opened FixedDelay
  import opened Accounting

  predicate AllJoins(steps: seq<Step>) {
    forall s :: s in steps ==> s.Join?
  }

  lemma JoinLeavesOthers(w: World, s: Step)
    requires Exclusive(w) && s.Join? && Enabled(w, s)
    ensures var v := Apply(w, s);
            && Exclusive(v) && v.config == w.config && |v.runs| == |w.runs| && v.checks.Keys == w.checks.Keys
            && (forall t :: t in v.tasks <==> t in w.tasks && t != s.task)
            && (forall t :: t in v.tasks ==> t.check != s.task.check && v.tasks[t] == w.tasks[t])
            && (forall id :: id in w.checks ==> v.checks[id].check == w.checks[id].check)
  {
  }

  lemma JoinsSwap(w: World, s: Step, s': Step)
    requires Exclusive(w) && s.Join? && s'.Join? && Enabled(w, s) && Enabled(Apply(w, s), s')
    ensures s.task.check != s'.task.check && Enabled(w, s') && Enabled(Apply(w, s'), s)
  {
    JoinLeavesOthers(w, s);
    JoinLeavesOthers(w, s');
  }

  lemma TablesCommute(table: Table, a: Uuid, x: Outcome, b: Uuid, y: Outcome, unit: Duration)
    requires a != b
    ensures JoinTable(JoinTable(table, a, x, unit), b, y, unit) == JoinTable(JoinTable(table, b, y, unit), a, x, unit)
  {
  }

  lemma RunsCommute(runs: seq<Run>, a: nat, x: Outcome, b: nat, y: Outcome)
    requires a < |runs| && b < |runs|
    ensures JoinRuns(JoinRuns(runs, a, x), b, y) == JoinRuns(JoinRuns(runs, b, y), a, x)
  {
  }

  lemma LogsCommute(log: Logs, a: Uuid, x: Event, b: Uuid, y: Event)
    requires a != b
    ensures Append(Append(log, a, x), b, y) == Append(Append(log, b, y), a, x)
  {
  }

  lemma EventsUnaffected(table: Table, a: Uuid, x: Outcome, b: Uuid, y: Outcome, unit: Duration)
    requires a != b
    ensures JoinEvent(JoinTable(table, a, x, unit), b, y, unit) == JoinEvent(table, b, y, unit)
  {
  }

  /** Two joins in a row can happen in the other order, with the same result. */
  lemma JoinsCommute(w: World, s: Step, s': Step)
    requires Exclusive(w) && s.Join? && s'.Join? && Enabled(w, s) && Enabled(Apply(w, s), s')
    ensures Enabled(w, s') && Enabled(Apply(w, s'), s)
    ensures Apply(Apply(w, s), s') == Apply(Apply(w, s'), s)
  {
    JoinsSwap(w, s, s');
    var unit, id, id' := w.config.unit, s.task.check, s'.task.check;
    TablesCommute(w.checks, id, s.outcome, id', s'.outcome, unit);
    RunsCommute(w.runs, s.run, s.outcome, s'.run, s'.outcome);
    EventsUnaffected(w.checks, id, s.outcome, id', s'.outcome, unit);
    EventsUnaffected(w.checks, id', s'.outcome, id, s.outcome, unit);
    LogsCommute(w.log, id, JoinEvent(w.checks, id, s.outcome, unit), id', JoinEvent(w.checks, id', s'.outcome, unit));
    assert w.tasks - {s.task} - {s'.task} == w.tasks - {s'.task} - {s.task};
  }

  lemma SwapFirst(w: World, s: Step, s': Step, rest: seq<Step>)
    requires Exclusive(w) && s.Join? && s'.Join? && Trace(w, [s] + ([s'] + rest))
    ensures Trace(w, [s'] + ([s] + rest)) && Exec(w, [s'] + ([s] + rest)) == Exec(w, [s] + ([s'] + rest))
  {
    Cons(w, s, [s'] + rest);
    Cons(Apply(w, s), s', rest);
    JoinsCommute(w, s, s');
    Cons(w, s', [s] + rest);
    Cons(Apply(w, s'), s, rest);
  }

  lemma ToFrontStep(w: World, first: Step, rest: seq<Step>, s: Step, after: seq<Step>)
    requires Exclusive(w) && first.Join? && s.Join? && Trace(w, [first] + (rest + ([s] + after)))
    requires var v := Apply(w, first);
             && Trace(v, rest + ([s] + after)) && Trace(v, [s] + (rest + after))
             && Exec(v, [s] + (rest + after)) == Exec(v, rest + ([s] + after))
    ensures Trace(w, [s] + ([first] + (rest + after)))
    ensures Exec(w, [s] + ([first] + (rest + after))) == Exec(w, [first] + (rest + ([s] + after)))
  {
    Cons(w, first, rest + ([s] + after));
    Cons(w, first, [s] + (rest + after));
    SwapFirst(w, first, s, rest + after);
  }

  lemma {:induction false} JoinToFront(w: World, before: seq<Step>, s: Step, after: seq<Step>)
    requires Exclusive(w) && AllJoins(before) && s.Join? && Trace(w, before + ([s] + after))
    ensures Trace(w, [s] + (before + after))
    ensures Exec(w, [s] + (before + after)) == Exec(w, before + ([s] + after))
    decreases before
  {
    if before == [] {
      assert before + ([s] + after) == [s] + after && before + after == after;
    } else {
      var first, rest := before[0], before[1..];
      assert before + ([s] + after) == [first] + (rest + ([s] + after));
      assert [first] + (rest + after) == before + after;
      Cons(w, first, rest + ([s] + after));
      JoinLeavesOthers(w, first);
      JoinToFront(Apply(w, first), rest, s, after);
      ToFrontStep(w, first, rest, s, after);
    }
  }

  /**
   Draining is confluent: the same joins in any other order, failures included and
   whichever runs perform them, can also happen and lead to the same world: the same
   table, stats, logs and sink.
   */
  lemma {:induction false} DrainIsConfluent(w: World, order: seq<Step>, other: seq<Step>)
    requires Exclusive(w) && AllJoins(order) && Trace(w, order) && multiset(order) == multiset(other)
    ensures Trace(w, other) && Exec(w, other) == Exec(w, order)
    decreases other
  {
    if other == [] {
      assert |multiset(order)| == 0;
    } else {
      var s, rest := other[0], other[1..];
      var before, after := TakeOut(order, other);
      JoinToFront(w, before, s, after);
      Cons(w, s, before + after);
      JoinLeavesOthers(w, s);
      DrainIsConfluent(Apply(w, s), before + after, rest);
      Cons(w, s, rest);
      assert other == [s] + rest;
    }
  }

  lemma TakeOut(order: seq<Step>, other: seq<Step>) returns (before: seq<Step>, after: seq<Step>)
    requires other != [] && multiset(order) == multiset(other)
    ensures order == before + ([other[0]] + after)
    ensures multiset(before + after) == multiset(other[1..])
  {
    var s := other[0];
    assert other == [s] + other[1..];
    assert s in multiset(order);
    var k :| 0 <= k < |order| && order[k] == s;
    before, after := order[..k], order[k + 1..];
    assert order == before + ([s] + after);
    WithoutOne(before, s, after, other[1..]);
  }

  lemma WithoutOne(before: seq<Step>, s: Step, after: seq<Step>, rest: seq<Step>)
    requires multiset(before + ([s] + after)) == multiset([s] + rest)
    ensures multiset(before + after) == multiset(rest)
  {
    var m, n, one := multiset(before + after), multiset(rest), multiset{s};
    assert multiset(before + ([s] + after)) == m + one && multiset([s] + rest) == one + n;
    assert m == (m + one) - one && n == (one + n) - one;
  }

  /** How many tasks the run takes out of its join set. */
  function TakenBy(steps: seq<Step>, run: nat): nat {
    if steps == [] then 0 else TakenBy(steps[1..], run) + if Takes(steps[0]) && steps[0].run == run then 1 else 0
  }

  /** A run that drains or is gone claims nothing more. */
  predicate Over(w: World, run: nat) {
    run < |w.runs| && (w.runs[run].draining || w.runs[run].gone)
  }

  lemma OverStays(w: World, s: Step, run: nat)
    requires Over(w, run) && Enabled(w, s)
    ensures Over(Apply(w, s), run) && Apply(w, s).runs[run].spawned == w.runs[run].spawned
    ensures w.runs[run].gone ==> Apply(w, s).runs[run] == w.runs[run] && !(Takes(s) && s.run == run)
  {
  }

  lemma TickWhenOver(w: World, s: Step, run: nat)
    requires Over(w, run) && AllTracked(w) && s.Tick? && Enabled(w, s)
    ensures JoinSet(Apply(w, s).tasks, run) == JoinSet(w.tasks, run)
  {
    SpawnedAreNew(w, s.now);
    SpawnJoinSet(w.tasks, Spawned(w, s.now), s.run, s.now, run);
  }

  lemma TakeFromJoinSet(w: World, s: Step, run: nat)
    requires Takes(s) && Enabled(w, s)
    ensures JoinSet(Apply(w, s).tasks, run) == JoinSet(w.tasks, run) - if s.run == run then {s.task} else {}
    ensures s.run == run ==> s.task in JoinSet(w.tasks, run)
  {
    assert Apply(w, s).tasks == w.tasks - {s.task};
  }

  lemma QuietStepKeepsJoinSet(w: World, s: Step, run: nat)
    requires !s.Tick? && !Takes(s) && Enabled(w, s)
    ensures JoinSet(Apply(w, s).tasks, run) == JoinSet(w.tasks, run)
  {
  }

  lemma StepWhenOver(w: World, s: Step, run: nat)
    requires Over(w, run) && AllTracked(w) && Enabled(w, s)
    ensures JoinSet(Apply(w, s).tasks, run) == JoinSet(w.tasks, run) - if Takes(s) && s.run == run then {s.task} else {}
    ensures Takes(s) && s.run == run ==> s.task in JoinSet(w.tasks, run)
  {
    if s.Tick? {
      TickWhenOver(w, s, run);
    } else if Takes(s) {
      TakeFromJoinSet(w, s, run);
    } else {
      QuietStepKeepsJoinSet(w, s, run);
    }
  }

  /**
   Clean shutdown: once a run drains it claims nothing more, whatever else happens,
   and each task it takes leaves its join set, so it returns after exactly as many
   joins as it had tasks.
   */
  lemma {:induction false} DrainClaimsNothing(w: World, steps: seq<Step>, run: nat)
    requires Inv(w) && Trace(w, steps) && SafeTrace(w, steps) && Over(w, run)
    ensures var v := Exec(w, steps);
            && Over(v, run) && v.runs[run].spawned == w.runs[run].spawned
            && JoinSet(v.tasks, run) <= JoinSet(w.tasks, run)
            && |JoinSet(v.tasks, run)| + TakenBy(steps, run) == |JoinSet(w.tasks, run)|
    decreases steps
  {
    if steps == [] {
    } else {
      StepKeepsInv(w, steps[0]);
      OverStays(w, steps[0], run);
      StepWhenOver(w, steps[0], run);
      DrainClaimsNothing(Apply(w, steps[0]), steps[1..], run);
    }
  }

  /**
   A run that has been dropped, or has panicked, joins nothing any more: its tasks stay
   in flight for ever, and so their checks stay claimed.
   */
  lemma {:induction false} GoneRunStrandsItsTasks(w: World, steps: seq<Step>, run: nat)
    requires Inv(w) && Trace(w, steps) && SafeTrace(w, steps) && run < |w.runs| && w.runs[run].gone
    ensures var v := Exec(w, steps);
            && run < |v.runs| && v.runs[run] == w.runs[run] && JoinSet(v.tasks, run) == JoinSet(w.tasks, run)
    decreases steps
  {
    if steps == [] {
    } else {
      StepKeepsInv(w, steps[0]);
      OverStays(w, steps[0], run);
      StepWhenOver(w, steps[0], run);
      GoneRunStrandsItsTasks(Apply(w, steps[0]), steps[1..], run);
    }
  }

  /** The checks marked running are exactly the enabled ones whose last task failed. */
  ghost predicate FlagsTellFailures(w: World) {
    forall id :: id in w.checks ==> (w.checks[id].running <==> w.checks[id].check.enabled && FailedLast(w, id))
  }

  lemma IdleFlags(w: World)
    requires Inv(w) && w.tasks == map[]
    ensures FlagsTellFailures(w)
  {
    forall id | id in w.checks ensures w.checks[id].running <==> w.checks[id].check.enabled && FailedLast(w, id) {
      assert Flagged(w, id);
    }
  }

  /** With nothing in flight, the enabled checks still marked running are exactly those whose last task failed. */
  lemma FlagsAfterReturn(config: Config, steps: seq<Step>)
    requires Trace(Fresh(config), steps) && SafeTrace(Fresh(config), steps)
    requires Exec(Fresh(config), steps).tasks == map[]
    ensures FlagsTellFailures(Exec(Fresh(config), steps))
  {
    TraceKeepsInv(Fresh(config), steps);
    IdleFlags(Exec(Fresh(config), steps));
  }

  lemma OnlyRunIdle(w: World)
    requires Inv(w) && |w.runs| == 1 && JoinSet(w.tasks, 0) == {}
    ensures w.tasks == map[]
  {
    forall t | t in w.tasks ensures t in JoinSet(w.tasks, 0) {
      assert Tracked(w, t);
    }
  }

  lemma StepKeepsFailed(w: World, s: Step, id: Uuid)
    requires Inv(w) && Enabled(w, s) && Safe(w, s) && id in w.checks && FailedLast(w, id)
    requires s.Register? ==> s.check.id != id
    ensures id in Apply(w, s).checks && LogOf(Apply(w, s), id) == LogOf(w, id)
  {
    assert Flagged(w, id) && Linked(w, id);
    if s.Tick? {
      TickShape(w, s, id);
    }
    if Takes(s) {
      assert s.task.check != id;
    }
  }

  /**
   A check whose task failed is never claimed again: on every disciplined trace that does
   not register it, nothing more happens to it and no task of it is in flight.
   */
  lemma {:induction false} FailedIsNeverClaimed(w: World, steps: seq<Step>, id: Uuid)
    requires Inv(w) && Trace(w, steps) && SafeTrace(w, steps) && id in w.checks && FailedLast(w, id)
    requires forall s :: s in steps && s.Register? ==> s.check.id != id
    ensures LogOf(Exec(w, steps), id) == LogOf(w, id) && !InFlight(Exec(w, steps), id)
    decreases steps
  {
    if steps == [] {
      assert Linked(w, id);
    } else {
      StepKeepsInv(w, steps[0]);
      StepKeepsFailed(w, steps[0], id);
      FailedIsNeverClaimed(Apply(w, steps[0]), steps[1..], id);
    }
  }

  /** The step joins a failed task of the check. */
  predicate JoinFails(s: Step, id: Uuid) {
    s.Join? && s.outcome.JoinError? && s.task.check == id
  }

  ghost predicate FailsIn(steps: seq<Step>, id: Uuid) {
    exists s :: s in steps && JoinFails(s, id)
  }

  lemma StepFails(w: World, s: Step, id: Uuid)
    requires Enabled(w, s) && id in w.checks && !FailedLast(w, id)
    ensures id in Apply(w, s).checks && (FailedLast(Apply(w, s), id) <==> JoinFails(s, id))
  {
    if s.Tick? {
      TickShape(w, s, id);
    }
  }

  /** While a check keeps its registration, it has failed last exactly if a failed task of it has been joined. */
  lemma {:induction false} FailedLastExactly(w: World, steps: seq<Step>, id: Uuid)
    requires Inv(w) && Trace(w, steps) && SafeTrace(w, steps) && id in w.checks && !FailedLast(w, id)
    requires forall s :: s in steps && s.Register? ==> s.check.id != id
    ensures FailedLast(Exec(w, steps), id) <==> FailsIn(steps, id)
    decreases steps
  {
    if steps == [] {
    } else {
      var s, rest := steps[0], steps[1..];
      assert steps == [s] + rest;
      StepKeepsInv(w, s);
      StepFails(w, s, id);
      if JoinFails(s, id) {
        FailedIsNeverClaimed(Apply(w, s), rest, id);
        assert s in steps;
      } else {
        FailedLastExactly(Apply(w, s), rest, id);
        assert FailsIn(steps, id) <==> FailsIn(rest, id);
      }
    }
  }

  /** A tick starts exactly the enabled idle checks that are due, each once, and leaves none due. */
  lemma TickStartsExactlyTheDue(w: World, run: nat, now: Instant, id: Uuid)
    requires Inv(w) && Enabled(w, Tick(run, now)) && id in w.checks
    ensures var v := Apply(w, Tick(run, now));
            var t := TaskId(id, |LogOf(w, id)|);
            var due := w.checks[id].check.enabled && !w.checks[id].running && w.checks[id].nextDue <= now;
            && (t in v.tasks <==> due)
            && (due ==> v.tasks[t] == Task(run, now, Executing) && !InFlight(w, id))
            && (!due ==> v.checks[id] == w.checks[id])
            && (forall u :: u in v.tasks && u.check == id && u != t ==> u in w.tasks)
            && Due(v.checks, now) == {}
  {
    var v, t := Apply(w, Tick(run, now)), TaskId(id, |LogOf(w, id)|);
    TickShape(w, Tick(run, now), id);
    assert t in w.tasks ==> Tracked(w, t);
    if id in Due(w.checks, now) {
      ClaimedWasIdle(w, id, now);
    }
    forall u | u in v.tasks && u.check == id && u != t ensures u in w.tasks {
      assert u == TaskId(id, u.number);
    }
    NothingLeftDue(w.checks, now);
  }

  lemma NothingLeftDue(table: Table, now: Instant)
    ensures Due(Claim(table, now), now) == {}
  {
  }

  /** Steps that could neither start the check nor replace its entry. */
  predicate Waiting(s: Step, id: Uuid, nextDue: Instant) {
    && (s.Register? ==> s.check.id != id)
    && (s.Tick? ==> s.now < nextDue)
  }

  lemma IdleStep(w: World, s: Step, id: Uuid)
    requires Inv(w) && Enabled(w, s) && Safe(w, s) && id in w.checks
    requires w.checks[id].check.enabled && !w.checks[id].running && Waiting(s, id, w.checks[id].nextDue)
    ensures id in Apply(w, s).checks && Apply(w, s).checks[id] == w.checks[id] && LogOf(Apply(w, s), id) == LogOf(w, id)
  {
    assert Flagged(w, id);
    if s.Tick? {
      TickShape(w, s, id);
    }
    if Takes(s) {
      assert s.task.check != id;
    }
  }

  /**
   No starvation: however many steps of other checks and early ticks lie between, an
   idle enabled check starts at the first tick at or after its due time.
   */
  lemma {:induction false} FirstDueTickStarts(w: World, steps: seq<Step>, id: Uuid, run: nat, now: Instant)
    requires Inv(w) && Trace(w, steps + [Tick(run, now)]) && SafeTrace(w, steps + [Tick(run, now)]) && id in w.checks
    requires w.checks[id].check.enabled && !w.checks[id].running && w.checks[id].nextDue <= now
    requires forall s :: s in steps ==> Waiting(s, id, w.checks[id].nextDue)
    ensures var v, t := Exec(w, steps + [Tick(run, now)]), TaskId(id, |LogOf(w, id)|);
            t in v.tasks && v.tasks[t] == Task(run, now, Executing)
    decreases steps
  {
    var all := steps + [Tick(run, now)];
    if steps == [] {
      assert all == [Tick(run, now)] && all[1..] == [];
      TickStartsExactlyTheDue(w, run, now, id);
    } else {
      assert all[0] == steps[0] && all[1..] == steps[1..] + [Tick(run, now)];
      IdleStep(w, steps[0], id);
      StepKeepsInv(w, steps[0]);
      FirstDueTickStarts(Apply(w, steps[0]), steps[1..], id, run, now);
    }
  }

  /** A completed check is idle and due one interval after its completion, not after its join. */
  lemma JoinMakesIdle(w: World, s: Step)
    requires Inv(w) && s.Join? && s.outcome.Done? && Enabled(w, s)
    ensures var id := s.task.check;
            && id in w.checks
            && Apply(w, s).checks == w.checks[id := CompleteEntry(w.checks[id], s.outcome.completedAt, w.config.unit)]
  {
    assert Tracked(w, s.task);
  }

  /**
   After the join of a completed execution, an enabled check starts again at the first
   tick that is at least one interval after the completion, whatever else happens meanwhile.
   */
  lemma RestartsAtFirstDueTick(w: World, join: Step, steps: seq<Step>, run: nat, now: Instant)
    requires Inv(w) && join.Join? && join.outcome.Done? && Enabled(w, join)
    requires var v := Apply(w, join);
             Trace(v, steps + [Tick(run, now)]) && SafeTrace(v, steps + [Tick(run, now)])
    requires join.task.check in w.checks && w.checks[join.task.check].check.enabled
    requires var due := join.outcome.completedAt + TotalNanos(Interval(w.checks[join.task.check].check, w.config.unit));
             due <= now && forall s :: s in steps ==> Waiting(s, join.task.check, due)
    ensures var v := Apply(w, join);
            var t := TaskId(join.task.check, |LogOf(v, join.task.check)|);
            var end := Exec(v, steps + [Tick(run, now)]);
            t in end.tasks && end.tasks[t] == Task(run, now, Executing)
  {
    JoinMakesIdle(w, join);
    JoinKeepsInv(w, join);
    FirstDueTickStarts(Apply(w, join), steps, join.task.check, run, now);
  }

  // Completions whose addition overflows the clock.

  lemma InFlightWasDue(w: World, t: TaskId)
    requires Inv(w) && t in w.tasks && t.check in w.checks && w.checks[t.check].check.enabled
    ensures w.checks[t.check].nextDue <= w.clock
  {
    var id := t.check;
    assert InFlight(w, id) && Flagged(w, id) && Linked(w, id);
    assert Last(LogOf(w, id)).Started?;
    assert Tracked(w, TaskId(id, |LogOf(w, id)| - 1));
  }

  lemma OverflowLeavesDue(w: World, t: TaskId, now: Instant)
    requires Inv(w) && t in w.tasks && w.tasks[t].phase.Finished?
    requires t.check in w.checks && w.checks[t.check].check.enabled && w.clock <= now
    requires Enabled(w, Leaving(w, t)) && !NoOverflow(w, t.check, w.tasks[t].phase.completedAt)
    ensures t.check in Due(Apply(w, Leaving(w, t)).checks, now)
  {
    InFlightWasDue(w, t);
  }

  /** An overflowing completion makes its check start again at the very next tick of any other run. */
  lemma OverflowRestartsAtOnce(w: World, t: TaskId, run: nat, now: Instant)
    requires Inv(w) && t in w.tasks && w.tasks[t].phase.Finished?
    requires t.check in w.checks && w.checks[t.check].check.enabled && w.clock <= now
    requires Enabled(w, Leaving(w, t)) && !NoOverflow(w, t.check, w.tasks[t].phase.completedAt)
    requires CanTick(Apply(w, Leaving(w, t)), run)
    ensures var v := Apply(w, Leaving(w, t));
            var u := TaskId(t.check, |LogOf(v, t.check)|);
            Enabled(v, Tick(run, now)) && u in Apply(v, Tick(run, now)).tasks
  {
    var v := Apply(w, Leaving(w, t));
    OverflowLeavesDue(w, t, now);
    JoinKeepsInv(w, Leaving(w, t));
    TickStartsExactlyTheDue(v, run, now, t.check);
  }

  /** No instant that the clock can still show finds the check due before `due`. */
  ghost predicate NotDueBefore(w: World, id: Uuid, due: nat) {
    forall now :: w.clock <= now <= w.config.limit && id in Due(w.checks, now) ==> due <= now
  }

  /**
   Fixed delay by the clamped interval has an exact condition: after a finished execution
   of an enabled check has left its run, the check is never due before its completion plus
   that interval if and only if the sum does not overflow the clock.
   */
  lemma DelayKeptExactly(w: World, t: TaskId)
    requires Inv(w) && t in w.tasks && w.tasks[t].phase.Finished? && w.clock <= w.config.limit
    requires t.check in w.checks && w.checks[t.check].check.enabled && w.tasks[t].run < |w.runs|
    requires !w.runs[w.tasks[t].run].gone
    ensures Enabled(w, Leaving(w, t))
    ensures var completedAt := w.tasks[t].phase.completedAt;
            var due := completedAt + TotalNanos(Interval(w.checks[t.check].check, w.config.unit));
            NotDueBefore(Apply(w, Leaving(w, t)), t.check, due) <==> NoOverflow(w, t.check, completedAt)
  {
    assert Tracked(w, t);
    if !NoOverflow(w, t.check, w.tasks[t].phase.completedAt) {
      OverflowLeavesDue(w, t, w.clock);
    }
  }

  /** The due time that the documentation promises: completion plus the configured interval. */
  function DocumentedDue(w: World, t: TaskId): nat
    requires t in w.tasks && w.tasks[t].phase.Finished? && t.check in w.checks
  {
    w.tasks[t].phase.completedAt + Documented(w.checks[t.check].check.intervalSeconds, w.config.unit)
  }

  lemma DueAfterLeaving(w: World, t: TaskId)
    requires t in w.tasks && w.tasks[t].phase.Finished? && t.check in w.checks && Enabled(w, Leaving(w, t))
    ensures var completedAt := w.tasks[t].phase.completedAt;
            var entry := Apply(w, Leaving(w, t)).checks[t.check];
            && t.check in Apply(w, Leaving(w, t)).checks && entry.check == w.checks[t.check].check
            && !entry.running && Apply(w, Leaving(w, t)).clock == w.clock
            && Apply(w, Leaving(w, t)).config == w.config
            && entry.nextDue ==
               if NoOverflow(w, t.check, completedAt)
               then completedAt + TotalNanos(Interval(w.checks[t.check].check, w.config.unit))
               else w.checks[t.check].nextDue
  {
  }

  /**
   The documented due time, exactly: a finished execution of an enabled check sets it
   if and only if it lies within the clock's range and the interval is neither clamped nor
   saturated. The check can be started before it unless the addition does not overflow
   and the interval is representable, or the task is joined only after that time.
   */
  lemma DocumentedDueExactly(w: World, t: TaskId)
    requires Inv(w) && t in w.tasks && w.tasks[t].phase.Finished? && w.clock <= w.config.limit
    requires t.check in w.checks && w.checks[t.check].check.enabled && w.tasks[t].run < |w.runs|
    requires !w.runs[w.tasks[t].run].gone
    ensures Enabled(w, Leaving(w, t)) && t.check in Apply(w, Leaving(w, t)).checks
    ensures var v, promised := Apply(w, Leaving(w, t)), DocumentedDue(w, t);
            var representable := Representable(w.checks[t.check].check.intervalSeconds, w.config.unit);
            && (v.checks[t.check].nextDue == promised <==> promised <= w.config.limit && representable)
            && (NotDueBefore(v, t.check, promised) <==>
                  && NoOverflow(w, t.check, w.tasks[t].phase.completedAt)
                  && (representable || promised <= w.clock))
  {
    assert Tracked(w, t);
    InFlightWasDue(w, t);
    DueAfterLeaving(w, t);
    IntervalIsDocumented(w.checks[t.check].check.intervalSeconds, w.config.unit);
    var v, promised := Apply(w, Leaving(w, t)), DocumentedDue(w, t);
    NotDueBeforeExactly(v, t.check, promised);
  }

  /** An idle enabled check is due from its due time on, which may already have passed. */
  lemma NotDueBeforeExactly(w: World, id: Uuid, due: nat)
    requires id in w.checks && w.checks[id].check.enabled && !w.checks[id].running && w.clock <= w.config.limit
    ensures NotDueBefore(w, id, due) <==>
            due <= w.clock || due <= w.checks[id].nextDue || w.config.limit < w.checks[id].nextDue
  {
    var first := if w.checks[id].nextDue <= w.clock then w.clock else w.checks[id].nextDue;
    assert first <= w.config.limit ==> id in Due(w.checks, first);
  }

  /**
   Under the default unit, no completion overflows the clock in any state of any
   disciplined trace whose clock stays 2^32 - 1 seconds below the limit.
   */
  lemma DefaultUnitNeverOverflows(config: Config, steps: seq<Step>, t: TaskId)
    requires config.unit == ONE_SECOND
    requires Trace(Fresh(config), steps) && SafeTrace(Fresh(config), steps)
    requires var w := Exec(Fresh(config), steps);
             t in w.tasks && w.tasks[t].phase.Finished? && w.clock + U32_MAX * NANOS_PER_SEC <= config.limit
    ensures var w := Exec(Fresh(config), steps); NoOverflow(w, t.check, w.tasks[t].phase.completedAt)
  {
    var w := Exec(Fresh(config), steps);
    TraceKeepsInv(Fresh(config), steps);
    ConfigIsConstant(Fresh(config), steps);
    assert Tracked(w, t);
    DefaultUnitIsExact(w.checks[t.check].check.intervalSeconds);
  }

  lemma StepMovesClock(w: World, s: Step)
    requires Enabled(w, s)
    ensures w.clock <= Apply(w, s).clock && Apply(w, s).config == w.config
  {
  }

  lemma {:induction false} ClockMovesOn(w: World, steps: seq<Step>)
    requires Trace(w, steps)
    ensures w.clock <= Exec(w, steps).clock
    decreases steps
  {
    if steps == [] {
    } else {
      StepMovesClock(w, steps[0]);
      ClockMovesOn(Apply(w, steps[0]), steps[1..]);
    }
  }

  lemma OverflowIsLate(w: World, s: Step)
    requires Inv(w) && w.config.unit == ONE_SECOND && s.Overflow? && Enabled(w, s)
    ensures w.clock + U32_MAX * NANOS_PER_SEC > w.config.limit
  {
    assert Tracked(w, s.task);
    DefaultUnitIsExact(w.checks[s.task.check].check.intervalSeconds);
  }

  /** Under the default unit no run ever panics before the clock comes within 2^32 - 1 seconds of its limit. */
  lemma {:induction false} DefaultUnitNeverPanics(w: World, steps: seq<Step>)
    requires Inv(w) && Trace(w, steps) && SafeTrace(w, steps) && w.config.unit == ONE_SECOND
    requires Exec(w, steps).clock + U32_MAX * NANOS_PER_SEC <= w.config.limit
    ensures forall s :: s in steps ==> !s.Overflow?
    decreases steps
  {
    if steps == [] {
    } else {
      ClockMovesOn(w, steps);
      StepMovesClock(w, steps[0]);
      StepKeepsInv(w, steps[0]);
      if steps[0].Overflow? {
        OverflowIsLate(w, steps[0]);
      }
      DefaultUnitNeverPanics(Apply(w, steps[0]), steps[1..]);
    }
  }

  /** A run is gone only because somebody dropped it or because one of its own completions overflowed. */
  lemma {:induction false} GoneHasCause(w: World, steps: seq<Step>, run: nat)
    requires Trace(w, steps) && run < |w.runs| && !w.runs[run].gone
    requires run < |Exec(w, steps).runs| && Exec(w, steps).runs[run].gone
    ensures exists s :: s in steps && (s == Crash(run) || (s.Overflow? && s.run == run))
    decreases steps
  {
    var v := Apply(w, steps[0]);
    if v.runs[run].gone {
      assert steps[0] in steps;
    } else {
      GoneHasCause(v, steps[1..], run);
      var s :| s in steps[1..] && (s == Crash(run) || (s.Overflow? && s.run == run));
      assert s in steps;
    }
  }
}
