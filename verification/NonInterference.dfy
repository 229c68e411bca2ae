/**
 Checks do not interfere: leaving out every step of every other check turns a
 trace into a trace of one check alone, with the same ticks at the same times, and
 that check's entry, tasks, log and results are the same in both.
 */
module NonInterference {
  import opened Domain
  import opened Durations
  import opened Worlds
  import opened Exclusion

  /** Is the step about the one check, or about runs? */
  predicate Concerns(s: Step, id: Uuid) {
    match s
    case Register(check, _) => check.id == id
    case Record(task, _, _) => task.check == id
    case Finish(task, _) => task.check == id
    case Panic(task) => task.check == id
    case Join(_, task, _) => task.check == id
    case _ => true
  }

  /** What one check sees of a step about runs: the overflow of another check is only the crash of its run. */
  function SeenBy(s: Step, id: Uuid): Step {
    if s.Overflow? && s.task.check != id then Crash(s.run) else s
  }

  function Project(steps: seq<Step>, id: Uuid): seq<Step> {
    if steps == [] then []
    else (if Concerns(steps[0], id) then [SeenBy(steps[0], id)] else []) + Project(steps[1..], id)
  }

  function SinkOf(sink: seq<Entry>, id: Uuid): seq<Entry> {
    if sink == [] then []
    else SinkOf(sink[..|sink| - 1], id) + if sink[|sink| - 1].task.check == id then [sink[|sink| - 1]] else []
  }

  ghost predicate SameEntry(w: World, solo: World, id: Uuid) {
    && solo.config == w.config && solo.clock <= w.clock
    && solo.checks.Keys <= {id} && (id in w.checks <==> id in solo.checks)
    && (id in w.checks ==> solo.checks[id] == w.checks[id])
    && LogOf(solo, id) == LogOf(w, id)
  }

  ghost predicate SameTasks(tasks: Tasks, solo: Tasks, id: Uuid) {
    && (forall t :: t in solo <==> t in tasks && t.check == id)
    && (forall t :: t in solo ==> solo[t] == tasks[t])
  }

  ghost predicate SameRuns(w: World, solo: World) {
    && |solo.runs| == |w.runs|
    && forall r :: 0 <= r < |w.runs| ==>
         solo.runs[r].draining == w.runs[r].draining && solo.runs[r].gone == w.runs[r].gone
  }

  /** `solo` is what `w` looks like to one check. Only the clock may lag behind and the run totals may differ. */
  ghost predicate SoloView(w: World, solo: World, id: Uuid) {
    SameEntry(w, solo, id) && SameTasks(w.tasks, solo.tasks, id) && SameRuns(w, solo) && solo.sink == SinkOf(w.sink, id)
  }

  lemma SinkOfAppend(sink: seq<Entry>, e: Entry, id: Uuid)
    ensures SinkOf(sink + [e], id) == SinkOf(sink, id) + if e.task.check == id then [e] else []
  {
    assert (sink + [e])[..|sink + [e]| - 1] == sink;
  }

  lemma OtherStep(w: World, solo: World, s: Step, id: Uuid)
    requires SoloView(w, solo, id) && Enabled(w, s) && !Concerns(s, id)
    ensures SoloView(Apply(w, s), solo, id)
  {
    if s.Record? && s.ok {
      SinkOfAppend(w.sink, Entry(w.tasks[s.task].run, s.task, s.result), id);
    }
  }

  lemma SpawnedAlike(w: World, solo: World, now: Instant, id: Uuid)
    requires SameEntry(w, solo, id)
    ensures forall t :: t in Spawned(solo, now) <==> t in Spawned(w, now) && t.check == id
  {
  }

  lemma SpawnAlike(tasks: Tasks, solo: Tasks, spawned: set<TaskId>, soloSpawned: set<TaskId>, run: nat, now: Instant,
                   id: Uuid)
    requires SameTasks(tasks, solo, id)
    requires forall t :: t in soloSpawned <==> t in spawned && t.check == id
    ensures SameTasks(Spawn(tasks, spawned, run, now), Spawn(solo, soloSpawned, run, now), id)
  {
  }

  lemma SoloTick(w: World, solo: World, s: Step, id: Uuid)
    requires SoloView(w, solo, id) && s.Tick? && Enabled(w, s)
    ensures Enabled(solo, s) && SoloView(Apply(w, s), Apply(solo, s), id)
  {
    SpawnedAlike(w, solo, s.now, id);
    SpawnAlike(w.tasks, solo.tasks, Spawned(w, s.now), Spawned(solo, s.now), s.run, s.now, id);
    TickShape(w, s, id);
    TickShape(solo, s, id);
  }

  lemma SoloTaskStep(w: World, solo: World, s: Step, id: Uuid)
    requires SoloView(w, solo, id) && (s.Record? || s.Finish? || s.Panic?) && Enabled(w, s) && s.task.check == id
    ensures Enabled(solo, s) && SoloView(Apply(w, s), Apply(solo, s), id)
  {
    if s.Record? && s.ok {
      SinkOfAppend(w.sink, Entry(w.tasks[s.task].run, s.task, s.result), id);
    }
  }

  lemma SoloJoin(w: World, solo: World, s: Step, id: Uuid)
    requires SoloView(w, solo, id) && s.Join? && Enabled(w, s) && s.task.check == id
    ensures Enabled(solo, s) && SoloView(Apply(w, s), Apply(solo, s), id)
  {
  }

  lemma SoloOverflow(w: World, solo: World, s: Step, id: Uuid)
    requires SoloView(w, solo, id) && s.Overflow? && Enabled(w, s)
    ensures Enabled(solo, SeenBy(s, id)) && SoloView(Apply(w, s), Apply(solo, SeenBy(s, id)), id)
  {
  }

  lemma SoloRunStep(w: World, solo: World, s: Step, id: Uuid)
    requires SoloView(w, solo, id) && Enabled(w, s) && Concerns(s, id)
    requires s.Register? || s.StartRun? || s.Shutdown? || s.Crash?
    ensures Enabled(solo, s) && SoloView(Apply(w, s), Apply(solo, s), id)
  {
  }

  lemma SoloStep(w: World, solo: World, s: Step, id: Uuid)
    requires SoloView(w, solo, id) && Enabled(w, s) && Concerns(s, id)
    ensures Enabled(solo, SeenBy(s, id)) && SoloView(Apply(w, s), Apply(solo, SeenBy(s, id)), id)
  {
    match s {
      case Tick(_, _) => SoloTick(w, solo, s, id);
      case Join(_, _, _) => SoloJoin(w, solo, s, id);
      case Overflow(_, _, _) => SoloOverflow(w, solo, s, id);
      case Record(_, _, _) => SoloTaskStep(w, solo, s, id);
      case Finish(_, _) => SoloTaskStep(w, solo, s, id);
      case Panic(_) => SoloTaskStep(w, solo, s, id);
      case _ => SoloRunStep(w, solo, s, id);
    }
  }

  lemma SafeAlone(w: World, solo: World, s: Step, id: Uuid)
    requires SoloView(w, solo, id) && Enabled(w, s) && Concerns(s, id) && Safe(w, s)
    ensures Safe(solo, SeenBy(s, id))
  {
  }

  /**
   Non-interference: any disciplined trace, projected onto one check, is a
   disciplined trace of that check alone, and both leave the check with the same
   entry, log, tasks and recorded results. Whatever happens to other checks changes
   neither whether nor when this one is claimed, except that an overflowing completion
   ends the run it happens in.
   */
  lemma {:induction false} ChecksDoNotInterfere(w: World, solo: World, steps: seq<Step>, id: Uuid)
    requires Inv(w) && SoloView(w, solo, id) && Trace(w, steps) && SafeTrace(w, steps)
    ensures Trace(solo, Project(steps, id)) && SafeTrace(solo, Project(steps, id))
    ensures SoloView(Exec(w, steps), Exec(solo, Project(steps, id)), id)
    decreases steps
  {
    if steps == [] {
    } else {
      var s, rest := steps[0], steps[1..];
      StepKeepsInv(w, s);
      if Concerns(s, id) {
        SoloStep(w, solo, s, id);
        SafeAlone(w, solo, s, id);
        ChecksDoNotInterfere(Apply(w, s), Apply(solo, SeenBy(s, id)), rest, id);
        Cons(solo, SeenBy(s, id), Project(rest, id));
      } else {
        OtherStep(w, solo, s, id);
        ChecksDoNotInterfere(Apply(w, s), solo, rest, id);
        assert Project(steps, id) == Project(rest, id);
      }
    }
  }

  /** From a fresh scheduler: two traces that agree on the steps of one check treat it alike. */
  lemma SameProjectionSameLog(config: Config, a: seq<Step>, b: seq<Step>, id: Uuid)
    requires Trace(Fresh(config), a) && SafeTrace(Fresh(config), a)
    requires Trace(Fresh(config), b) && SafeTrace(Fresh(config), b)
    requires Project(a, id) == Project(b, id)
    ensures LogOf(Exec(Fresh(config), a), id) == LogOf(Exec(Fresh(config), b), id)
    ensures SinkOf(Exec(Fresh(config), a).sink, id) == SinkOf(Exec(Fresh(config), b).sink, id)
  {
    ChecksDoNotInterfere(Fresh(config), Fresh(config), a, id);
    ChecksDoNotInterfere(Fresh(config), Fresh(config), b, id);
  }
}
