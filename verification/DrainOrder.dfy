/**
 The order in which tasks end and are joined does not matter: two traces with the same
 steps for each task leave the same table, stats and logs, and the same results per check.
 */
module DrainOrder {
  import opened Domain
  import opened Worlds
  import opened Exclusion
  import opened Drain
  import opened NonInterference

  /** A step in the life of one task: it records, finishes, panics or is joined. */
  predicate OfTask(s: Step) {
    s.Record? || s.Finish? || s.Panic? || s.Join?
  }

  predicate OnlyTaskSteps(steps: seq<Step>) {
    forall s :: s in steps ==> OfTask(s)
  }

  lemma {:induction false} TaskStepsAreSafe(w: World, steps: seq<Step>)
    requires Trace(w, steps) && OnlyTaskSteps(steps)
    ensures SafeTrace(w, steps)
    decreases steps
  {
    if steps == [] {
    } else {
      assert OfTask(steps[0]);
      TaskStepsAreSafe(Apply(w, steps[0]), steps[1..]);
    }
  }

  // Each check sees the same.

  /** The part of a world that is about one check. */
  function Solo(w: World, id: Uuid): World {
    World(w.config, w.clock,
          map i | i in w.checks && i == id :: w.checks[i],
          map t | t in w.tasks && t.check == id :: w.tasks[t],
          w.runs, SinkOf(w.sink, id),
          map i | i in w.log && i == id :: w.log[i])
  }

  lemma SoloIsView(w: World, id: Uuid)
    ensures SoloView(w, Solo(w, id), id)
  {
  }

  /** Two worlds that look the same to a check. */
  ghost predicate AlikeFor(u: World, v: World, id: Uuid) {
    && (id in u.checks <==> id in v.checks) && (id in u.checks ==> u.checks[id] == v.checks[id])
    && LogOf(u, id) == LogOf(v, id) && SinkOf(u.sink, id) == SinkOf(v.sink, id)
    && (forall t: TaskId :: t.check == id ==> (t in u.tasks <==> t in v.tasks))
    && (forall t: TaskId :: t.check == id && t in u.tasks && t in v.tasks ==> u.tasks[t] == v.tasks[t])
  }

  lemma SameViewAlike(u: World, v: World, solo: World, id: Uuid)
    requires SoloView(u, solo, id) && SoloView(v, solo, id)
    ensures AlikeFor(u, v, id)
  {
  }

  lemma SameProjectionAlike(w: World, a: seq<Step>, b: seq<Step>, id: Uuid)
    requires Inv(w) && Trace(w, a) && SafeTrace(w, a) && Trace(w, b) && SafeTrace(w, b)
    requires Project(a, id) == Project(b, id)
    ensures AlikeFor(Exec(w, a), Exec(w, b), id)
  {
    SoloIsView(w, id);
    ChecksDoNotInterfere(w, Solo(w, id), a, id);
    ChecksDoNotInterfere(w, Solo(w, id), b, id);
    SameViewAlike(Exec(w, a), Exec(w, b), Exec(Solo(w, id), Project(a, id)), id);
  }

  /** Worlds that look the same to every check have the same tables, tasks and logs. */
  lemma AlikeForAll(u: World, v: World)
    requires forall id :: AlikeFor(u, v, id)
    requires u.log.Keys == u.checks.Keys && v.log.Keys == v.checks.Keys
    ensures u.checks == v.checks && u.tasks == v.tasks && u.log == v.log
    ensures forall id :: SinkOf(u.sink, id) == SinkOf(v.sink, id)
  {
    forall id ensures id in u.checks <==> id in v.checks {
      assert AlikeFor(u, v, id);
    }
    forall id | id in u.checks ensures u.checks[id] == v.checks[id] {
      assert AlikeFor(u, v, id);
    }
    forall t ensures t in u.tasks <==> t in v.tasks {
      assert AlikeFor(u, v, t.check);
    }
    forall t | t in u.tasks ensures u.tasks[t] == v.tasks[t] {
      assert AlikeFor(u, v, t.check);
    }
    forall id | id in u.log ensures id in v.log && u.log[id] == v.log[id] {
      assert AlikeFor(u, v, id) && id in v.checks;
      assert u.log[id] == LogOf(u, id) && v.log[id] == LogOf(v, id);
    }
    forall id ensures SinkOf(u.sink, id) == SinkOf(v.sink, id) {
      assert AlikeFor(u, v, id);
    }
  }

  // The same steps per check are the same steps, up to their order.

  lemma {:induction false} ProjectKeepsCount(steps: seq<Step>, s: Step)
    requires OnlyTaskSteps(steps) && OfTask(s)
    ensures multiset(Project(steps, s.task.check))[s] == multiset(steps)[s]
  {
    if steps == [] {
    } else {
      var id := s.task.check;
      ProjectKeepsCount(steps[1..], s);
      assert steps == [steps[0]] + steps[1..];
      assert steps[0] in steps;
    }
  }

  lemma SameSteps(a: seq<Step>, b: seq<Step>)
    requires OnlyTaskSteps(a) && OnlyTaskSteps(b) && forall id :: Project(a, id) == Project(b, id)
    ensures multiset(a) == multiset(b)
  {
    forall s ensures multiset(a)[s] == multiset(b)[s] {
      if OfTask(s) {
        ProjectKeepsCount(a, s);
        ProjectKeepsCount(b, s);
      } else {
        assert s !in a && s !in b;
      }
    }
  }

  // Stats only count joins.

  function Plus(x: Stats, y: Stats): Stats {
    Stats(x.completed + y.completed, x.sinkErrors + y.sinkErrors, x.failures + y.failures)
  }

  /** What one step adds to the stats of a run. */
  function Counted(s: Step, run: nat): Stats {
    if s.Join? && s.run == run then CountJoin(ZERO_STATS, s.outcome) else ZERO_STATS
  }

  function Tally(steps: seq<Step>, run: nat): Stats {
    if steps == [] then ZERO_STATS else Plus(Counted(steps[0], run), Tally(steps[1..], run))
  }

  lemma {:induction false} TallySplit(a: seq<Step>, b: seq<Step>, run: nat)
    ensures Tally(a + b, run) == Plus(Tally(a, run), Tally(b, run))
  {
    if a == [] {
      assert a + b == b;
    } else {
      assert (a + b)[0] == a[0] && (a + b)[1..] == a[1..] + b;
      TallySplit(a[1..], b, run);
    }
  }

  lemma TallyFirst(s: Step, rest: seq<Step>, run: nat)
    ensures Tally([s] + rest, run) == Plus(Counted(s, run), Tally(rest, run))
  {
    assert ([s] + rest)[1..] == rest;
  }

  lemma TallyMoves(before: seq<Step>, s: Step, after: seq<Step>, run: nat)
    ensures Tally(before + ([s] + after), run) == Plus(Counted(s, run), Tally(before + after, run))
  {
    TallySplit(before, [s] + after, run);
    TallyFirst(s, after, run);
    TallySplit(before, after, run);
    PlusExchanges(Tally(before, run), Counted(s, run), Tally(after, run));
  }

  lemma PlusExchanges(x: Stats, y: Stats, z: Stats)
    ensures Plus(x, Plus(y, z)) == Plus(y, Plus(x, z))
  {
  }

  lemma PlusAssociates(x: Stats, y: Stats, z: Stats)
    ensures Plus(Plus(x, y), z) == Plus(x, Plus(y, z))
  {
  }

  lemma {:induction false} TallyIgnoresOrder(a: seq<Step>, b: seq<Step>, run: nat)
    requires multiset(a) == multiset(b)
    ensures Tally(a, run) == Tally(b, run)
    decreases b
  {
    if b == [] {
      assert |multiset(a)| == 0;
    } else {
      var before, after := TakeOut(a, b);
      TallyMoves(before, b[0], after, run);
      TallyIgnoresOrder(before + after, b[1..], run);
    }
  }

  lemma StepCounts(w: World, s: Step, run: nat)
    requires OfTask(s) && Enabled(w, s) && run < |w.runs|
    ensures |Apply(w, s).runs| == |w.runs|
    ensures Apply(w, s).runs[run] == w.runs[run].(stats := Plus(w.runs[run].stats, Counted(s, run)))
  {
  }

  lemma {:induction false} StatsAreTally(w: World, steps: seq<Step>, run: nat)
    requires Trace(w, steps) && OnlyTaskSteps(steps) && run < |w.runs|
    ensures |Exec(w, steps).runs| == |w.runs|
    ensures Exec(w, steps).runs[run] == w.runs[run].(stats := Plus(w.runs[run].stats, Tally(steps, run)))
    decreases steps
  {
    if steps == [] {
    } else {
      assert OfTask(steps[0]);
      StepCounts(w, steps[0], run);
      StatsAreTally(Apply(w, steps[0]), steps[1..], run);
      PlusAssociates(w.runs[run].stats, Counted(steps[0], run), Tally(steps[1..], run));
    }
  }

  lemma {:induction false} RunsKeepNumber(w: World, steps: seq<Step>)
    requires Trace(w, steps) && OnlyTaskSteps(steps)
    ensures |Exec(w, steps).runs| == |w.runs|
    decreases steps
  {
    if steps == [] {
    } else {
      assert OfTask(steps[0]);
      RunsKeepNumber(Apply(w, steps[0]), steps[1..]);
    }
  }

  // The clock shows the latest finish.

  /** The clock of a world that these steps have led to from a clock at `start`. */
  ghost predicate ShowsLatest(clock: nat, start: nat, steps: seq<Step>) {
    && start <= clock && (forall s :: s in steps && s.Finish? ==> s.now <= clock)
    && (clock == start || exists s :: s in steps && s.Finish? && s.now == clock)
  }

  lemma {:induction false} ClockShowsLatest(w: World, steps: seq<Step>)
    requires Trace(w, steps) && OnlyTaskSteps(steps)
    ensures ShowsLatest(Exec(w, steps).clock, w.clock, steps) && Exec(w, steps).config == w.config
    decreases steps
  {
    if steps == [] {
    } else {
      var v := Apply(w, steps[0]);
      ClockShowsLatest(v, steps[1..]);
      assert steps[0] in steps && OfTask(steps[0]);
      assert v.clock == if steps[0].Finish? then steps[0].now else w.clock;
      ShowsLatestFirst(Exec(w, steps).clock, w.clock, v.clock, steps);
    }
  }

  lemma ShowsLatestFirst(clock: nat, start: nat, next: nat, steps: seq<Step>)
    requires steps != [] && start <= next && next == (if steps[0].Finish? then steps[0].now else start)
    requires ShowsLatest(clock, next, steps[1..])
    ensures ShowsLatest(clock, start, steps)
  {
    assert steps == [steps[0]] + steps[1..];
    if clock != next {
      var s :| s in steps[1..] && s.Finish? && s.now == clock;
      assert s in steps;
    } else {
      assert steps[0] in steps;
    }
  }

  lemma LatestIsUnique(c: nat, d: nat, start: nat, a: seq<Step>, b: seq<Step>)
    requires multiset(a) == multiset(b) && ShowsLatest(c, start, a) && ShowsLatest(d, start, b)
    ensures c == d
  {
    forall s ensures s in a <==> s in b {
      assert s in a <==> s in multiset(a);
      assert s in b <==> s in multiset(b);
    }
  }

  /**
   Draining is confluent, however its steps interleave: two traces in which each task goes
   through the same steps, at the same times and with the same outcomes, lead to the same
   world but for the order in which the sink holds results of different checks.
   */
  lemma OrderIsImmaterial(w: World, a: seq<Step>, b: seq<Step>)
    requires Inv(w) && Trace(w, a) && Trace(w, b) && OnlyTaskSteps(a) && OnlyTaskSteps(b)
    requires forall id :: Project(a, id) == Project(b, id)
    ensures Exec(w, a) == Exec(w, b).(sink := Exec(w, a).sink)
    ensures forall id :: SinkOf(Exec(w, a).sink, id) == SinkOf(Exec(w, b).sink, id)
  {
    var u, v := Exec(w, a), Exec(w, b);
    TaskStepsAreSafe(w, a);
    TaskStepsAreSafe(w, b);
    TraceKeepsInv(w, a);
    TraceKeepsInv(w, b);
    forall id ensures AlikeFor(u, v, id) {
      SameProjectionAlike(w, a, b, id);
    }
    AlikeForAll(u, v);
    SameSteps(a, b);
    SameRuns(w, a, b);
    ClockShowsLatest(w, a);
    ClockShowsLatest(w, b);
    LatestIsUnique(u.clock, v.clock, w.clock, a, b);
  }

  lemma SameRuns(w: World, a: seq<Step>, b: seq<Step>)
    requires Trace(w, a) && Trace(w, b) && OnlyTaskSteps(a) && OnlyTaskSteps(b) && multiset(a) == multiset(b)
    ensures Exec(w, a).runs == Exec(w, b).runs
  {
    RunsKeepNumber(w, a);
    RunsKeepNumber(w, b);
    forall run | 0 <= run < |w.runs| ensures Exec(w, a).runs[run] == Exec(w, b).runs[run] {
      StatsAreTally(w, a, run);
      StatsAreTally(w, b, run);
      TallyIgnoresOrder(a, b, run);
    }
  }
}
