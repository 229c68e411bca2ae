/** Concrete disciplined traces on which what the documentation promises does not happen. */
module Counterexamples {
  import opened Wrappers
  import opened Domain
  import opened Durations
  import opened SchedulerStates
  import opened Worlds
  import opened Exclusion
  import opened Drain

  ghost predicate Disciplined(w: World, steps: seq<Step>) {
    Trace(w, steps) && SafeTrace(w, steps)
  }

  lemma Extend(w: World, steps: seq<Step>, s: Step)
    requires Disciplined(w, steps) && Enabled(Exec(w, steps), s) && Safe(Exec(w, steps), s)
    ensures Disciplined(w, steps + [s]) && Exec(w, steps + [s]) == Apply(Exec(w, steps), s)
  {
    var v := Exec(w, steps);
    assert [s] == [s] + [];
    Cons(v, s, []);
    TraceSplit(w, steps, [s]);
  }

  /** The first execution of a check that is registered first, after the one event of its registration. */
  function First(check: Check): TaskId {
    TaskId(check.id, 1)
  }

  // Two runs, one check, one execution, all at the instant 0.

  function ClaimSteps(check: Check): seq<Step> {
    [StartRun] + [StartRun] + [Register(check, 0)] + [Tick(0, 0)]
  }

  function ClaimedWorld(config: Config, check: Check): World {
    World(config, 0,
          map[check.id := ScheduledCheck(check, 0, true, Some(0), None)],
          map[First(check) := Task(0, 0, Executing)],
          [Run(ZERO_STATS, false, false, 1), Run(ZERO_STATS, false, false, 0)],
          [],
          map[check.id := [Event.Registered(check, 0), Event.Started(0)]])
  }

  function RegisteredWorld(config: Config, check: Check): World {
    World(config, 0,
          map[check.id := NewEntry(check, 0)],
          map[],
          [Run(ZERO_STATS, false, false, 0), Run(ZERO_STATS, false, false, 0)],
          [],
          map[check.id := [Event.Registered(check, 0)]])
  }

  lemma Registers(config: Config, check: Check)
    ensures Disciplined(Fresh(config), [StartRun] + [StartRun] + [Register(check, 0)])
    ensures Exec(Fresh(config), [StartRun] + [StartRun] + [Register(check, 0)]) == RegisteredWorld(config, check)
  {
    var w := Fresh(config);
    assert Disciplined(w, []) && [] + [StartRun] == [StartRun];
    Extend(w, [], StartRun);
    Extend(w, [StartRun], StartRun);
    assert Exec(w, [StartRun] + [StartRun]) == w.(runs := RegisteredWorld(config, check).runs);
    Extend(w, [StartRun] + [StartRun], Register(check, 0));
    assert [] + [Event.Registered(check, 0)] == [Event.Registered(check, 0)];
  }

  lemma FirstTick(config: Config, check: Check)
    requires check.enabled
    ensures Enabled(RegisteredWorld(config, check), Tick(0, 0))
    ensures Apply(RegisteredWorld(config, check), Tick(0, 0)) == ClaimedWorld(config, check)
  {
    var w, claimed := RegisteredWorld(config, check), ClaimedWorld(config, check);
    var v := Apply(w, Tick(0, 0));
    FirstDue(config, check);
    assert LogOf(w, check.id) + [Event.Started(0)] == claimed.log[check.id];
    assert v.log == claimed.log && v.tasks == claimed.tasks && v.checks == claimed.checks && v.runs == claimed.runs;
  }

  lemma FirstDue(config: Config, check: Check)
    requires check.enabled
    ensures Due(RegisteredWorld(config, check).checks, 0) == {check.id}
    ensures Spawned(RegisteredWorld(config, check), 0) == {First(check)}
  {
    assert |RegisteredWorld(config, check).log[check.id]| == 1;
  }

  lemma Claims(config: Config, check: Check)
    requires check.enabled
    ensures Disciplined(Fresh(config), ClaimSteps(check))
    ensures Exec(Fresh(config), ClaimSteps(check)) == ClaimedWorld(config, check)
  {
    Registers(config, check);
    FirstTick(config, check);
    Extend(Fresh(config), [StartRun] + [StartRun] + [Register(check, 0)], Tick(0, 0));
  }

  function FinishSteps(check: Check, r: CheckResult): seq<Step> {
    ClaimSteps(check) + [Record(First(check), r, true)] + [Finish(First(check), 0)]
  }

  function FinishedWorld(config: Config, check: Check, r: CheckResult): World {
    ClaimedWorld(config, check).(
      tasks := map[First(check) := Task(0, 0, Finished(0, true))],
      sink := [Entry(0, First(check), r)])
  }

  lemma Finishes(config: Config, check: Check, r: CheckResult)
    requires check.enabled && r.checkId == check.id
    ensures Disciplined(Fresh(config), FinishSteps(check, r))
    ensures Exec(Fresh(config), FinishSteps(check, r)) == FinishedWorld(config, check, r)
  {
    Claims(config, check);
    Extend(Fresh(config), ClaimSteps(check), Record(First(check), r, true));
    Extend(Fresh(config), ClaimSteps(check) + [Record(First(check), r, true)], Finish(First(check), 0));
  }

  // The interval is clamped.

  function JoinSteps(check: Check, r: CheckResult): seq<Step> {
    FinishSteps(check, r) + [Join(0, First(check), Done(0, true))]
  }

  /** The world after the join; the check is due after `delay`. */
  function JoinedWorld(config: Config, check: Check, r: CheckResult, delay: nat): World {
    World(config, 0,
          map[check.id := ScheduledCheck(check, delay, false, Some(0), Some(0))],
          map[],
          [Run(Stats(1, 0, 0), false, false, 1), Run(ZERO_STATS, false, false, 0)],
          [Entry(0, First(check), r)],
          map[check.id := [Event.Registered(check, 0), Event.Started(0), Completed(0, delay)]])
  }

  lemma Joins(config: Config, check: Check, r: CheckResult)
    requires check.enabled && r.checkId == check.id && TotalNanos(Interval(check, config.unit)) <= config.limit
    ensures Disciplined(Fresh(config), JoinSteps(check, r))
    ensures Exec(Fresh(config), JoinSteps(check, r))
         == JoinedWorld(config, check, r, TotalNanos(Interval(check, config.unit)))
  {
    Finishes(config, check, r);
    Extend(Fresh(config), FinishSteps(check, r), Join(0, First(check), Done(0, true)));
    var v := Apply(FinishedWorld(config, check, r), Join(0, First(check), Done(0, true)));
    var delay := TotalNanos(Interval(check, config.unit));
    assert v.log[check.id] == [Event.Registered(check, 0), Event.Started(0), Completed(0, delay)];
    assert v == JoinedWorld(config, check, r, delay);
  }

  /**
   A check of 2^32 seconds, under the default unit and far from the clock's limit, starts
   again one second before its completion plus its configured interval.
   */
  lemma ClampedIntervalRestartsEarly(config: Config, check: Check, r: CheckResult)
    requires check.enabled && check.intervalSeconds == U32_MAX + 1 && r.checkId == check.id
    requires config.unit == ONE_SECOND && U32_MAX * NANOS_PER_SEC <= config.limit
    ensures var steps, now := JoinSteps(check, r) + [Tick(0, U32_MAX * NANOS_PER_SEC)], U32_MAX * NANOS_PER_SEC;
            && Disciplined(Fresh(config), steps)
            && LogOf(Exec(Fresh(config), steps), check.id) ==
               [Event.Registered(check, 0), Event.Started(0), Completed(0, now), Event.Started(now)]
            && now + NANOS_PER_SEC == Documented(check.intervalSeconds, config.unit)
  {
    var now := U32_MAX * NANOS_PER_SEC;
    DefaultUnitIsExact(check.intervalSeconds);
    Joins(config, check, r);
    Extend(Fresh(config), JoinSteps(check, r), Tick(0, now));
    TickStarts(JoinedWorld(config, check, r, now), 0, now, check.id);
  }

  // The addition overflows.

  /**
   On a clock that ends within a minute, a completed check of 60 seconds starts again in
   the instant of its completion: one run panics and the other one ticks.
   */
  lemma OverflowRestartsEarly(config: Config, check: Check, r: CheckResult)
    requires check.enabled && check.intervalSeconds == 60 && r.checkId == check.id
    requires config.unit == ONE_SECOND && config.limit < 60 * NANOS_PER_SEC
    ensures var steps := FinishSteps(check, r) + [Overflow(0, First(check), Done(0, true))] + [Tick(1, 0)];
            && Disciplined(Fresh(config), steps)
            && Exec(Fresh(config), steps).runs != [] && Exec(Fresh(config), steps).runs[0].gone
            && LogOf(Exec(Fresh(config), steps), check.id) ==
               [Event.Registered(check, 0), Event.Started(0), Overflowed(0, 0), Event.Started(0)]
  {
    var panic := Overflow(0, First(check), Done(0, true));
    DefaultUnitIsExact(check.intervalSeconds);
    Finishes(config, check, r);
    Overflows(config, check, r);
    Extend(Fresh(config), FinishSteps(check, r), panic);
    Extend(Fresh(config), FinishSteps(check, r) + [panic], Tick(1, 0));
    TickStarts(OverflowedWorld(config, check, r), 1, 0, check.id);
  }

  /** The world after the overflow: nothing runs, and the check is due as it was at first. */
  function OverflowedWorld(config: Config, check: Check, r: CheckResult): World {
    World(config, 0,
          map[check.id := ScheduledCheck(check, 0, false, Some(0), Some(0))],
          map[],
          [Run(ZERO_STATS, false, true, 1), Run(ZERO_STATS, false, false, 0)],
          [Entry(0, First(check), r)],
          map[check.id := [Event.Registered(check, 0), Event.Started(0), Overflowed(0, 0)]])
  }

  lemma Overflows(config: Config, check: Check, r: CheckResult)
    requires TotalNanos(Interval(check, config.unit)) > config.limit
    ensures var w, s := FinishedWorld(config, check, r), Overflow(0, First(check), Done(0, true));
            Enabled(w, s) && Apply(w, s) == OverflowedWorld(config, check, r)
  {
    var w, s := FinishedWorld(config, check, r), Overflow(0, First(check), Done(0, true));
    var v := Apply(w, s);
    assert v.log[check.id] == [Event.Registered(check, 0), Event.Started(0), Overflowed(0, 0)];
    assert v.log == OverflowedWorld(config, check, r).log;
  }

  lemma TickStarts(w: World, run: nat, now: Instant, id: Uuid)
    requires Enabled(w, Tick(run, now)) && id in Due(w.checks, now)
    ensures LogOf(Apply(w, Tick(run, now)), id) == LogOf(w, id) + [Event.Started(now)]
    ensures |Apply(w, Tick(run, now)).runs| == |w.runs|
    ensures forall r :: 0 <= r < |w.runs| ==> Apply(w, Tick(run, now)).runs[r].gone == w.runs[r].gone
  {
    TickShape(w, Tick(run, now), id);
  }

  // The check is registered again.

  /** A completed check that is registered again, while it is idle, starts at once. */
  lemma ReRegistrationRestartsEarly(config: Config, check: Check, r: CheckResult)
    requires check.enabled && check.intervalSeconds == 60 && r.checkId == check.id
    requires config.unit == ONE_SECOND && 60 * NANOS_PER_SEC <= config.limit
    ensures var steps := JoinSteps(check, r) + [Register(check, 0)] + [Tick(0, 0)];
            && Disciplined(Fresh(config), steps)
            && LogOf(Exec(Fresh(config), steps), check.id) ==
               [Event.Registered(check, 0), Event.Started(0), Completed(0, 60 * NANOS_PER_SEC),
                Event.Registered(check, 0), Event.Started(0)]
  {
    DefaultUnitIsExact(check.intervalSeconds);
    Joins(config, check, r);
    Extend(Fresh(config), JoinSteps(check, r), Register(check, 0));
    var v := Apply(JoinedWorld(config, check, r, 60 * NANOS_PER_SEC), Register(check, 0));
    assert LogOf(v, check.id) == [Event.Registered(check, 0), Event.Started(0), Completed(0, 60 * NANOS_PER_SEC),
                                  Event.Registered(check, 0)];
    Extend(Fresh(config), JoinSteps(check, r) + [Register(check, 0)], Tick(0, 0));
    TickStarts(v, 0, 0, check.id);
  }

  // A task panics.

  function PanicSteps(check: Check): seq<Step> {
    ClaimSteps(check) + [Panic(First(check))] + [Join(0, First(check), JoinError)]
  }

  /** A check whose task panics once stays marked running, and no later steps start it again without a registration. */
  lemma PanicIsFinal(config: Config, check: Check, later: seq<Step>)
    requires check.enabled
    ensures Disciplined(Fresh(config), PanicSteps(check))
    ensures var w := Exec(Fresh(config), PanicSteps(check));
            && check.id in w.checks && w.checks[check.id].running && FailedLast(w, check.id)
            && (Disciplined(w, later) && (forall s :: s in later && s.Register? ==> s.check.id != check.id) ==>
                  LogOf(Exec(w, later), check.id) == [Event.Registered(check, 0), Event.Started(0), Failed])
  {
    Claims(config, check);
    Extend(Fresh(config), ClaimSteps(check), Panic(First(check)));
    Extend(Fresh(config), ClaimSteps(check) + [Panic(First(check))], Join(0, First(check), JoinError));
    var w := Exec(Fresh(config), PanicSteps(check));
    assert LogOf(w, check.id) == [Event.Registered(check, 0), Event.Started(0), Failed];
    TraceKeepsInv(Fresh(config), PanicSteps(check));
    if Disciplined(w, later) && forall s :: s in later && s.Register? ==> s.check.id != check.id {
      FailedIsNeverClaimed(w, later, check.id);
    }
  }
}
