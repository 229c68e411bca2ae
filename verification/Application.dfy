/** The use cases: creating a check, enabling or disabling it, and monitoring what is enabled. */
module Application {
  import opened Wrappers
  import opened Domain
  import opened Durations
  import opened Mapping
  import opened Ordering
  import opened Databases
  import opened SchedulerStates
  import opened Worlds
  import opened Exclusion
  import opened Accounting
  import opened Drain
  import opened FixedDelay
  import opened Runtime

  datatype ApplicationError =
    | Persistence(error: PersistenceError)
    | Invalid(cause: DomainError)
    | ServiceNotFound(service: Uuid)
    | CheckNotFound(check: Uuid)

  /** What has been written about the enabled flags, in order. */
  datatype Write = Created(id: Uuid) | Set(id: Uuid, enabled: bool)

  /** The last write about a check decides; a created check is enabled. */
  function Setting(history: seq<Write>, id: Uuid): Option<bool> {
    if history == [] then None
    else
      var last := history[|history| - 1];
      if last.id != id then Setting(history[..|history| - 1], id)
      else if last.Created? then Some(true)
      else Some(last.enabled)
  }

  lemma SettingAfter(history: seq<Write>, w: Write, id: Uuid)
    ensures Setting(history + [w], id) ==
            if w.id != id then Setting(history, id) else if w.Created? then Some(true) else Some(w.enabled)
  {
    assert (history + [w])[..|history + [w]| - 1] == history;
  }

  /** The stored flags are what the history says. */
  ghost predicate Reflects(checks: seq<Check>, history: seq<Write>) {
    && (forall c :: c in checks ==> Setting(history, c.id) == Some(c.enabled))
    && (forall id :: Setting(history, id).Some? ==> exists c :: c in checks && c.id == id)
  }

  lemma CreateReflects(checks: seq<Check>, history: seq<Write>, c: Check)
    requires Reflects(checks, history) && c.enabled && forall d :: d in checks ==> d.id != c.id
    ensures Reflects(checks + [c], history + [Created(c.id)])
  {
    forall id
      ensures Setting(history + [Created(c.id)], id) == if id == c.id then Some(true) else Setting(history, id)
    {
      SettingAfter(history, Created(c.id), id);
    }
    forall id | Setting(history + [Created(c.id)], id).Some? ensures exists d :: d in checks + [c] && d.id == id {
      if id == c.id {
        assert c in checks + [c];
      } else {
        var d :| d in checks && d.id == id;
        assert d in checks + [c];
      }
    }
  }

  lemma SetMember(checks: seq<Check>, id: Uuid, enabled: bool, c: Check)
    requires StorableChecks(checks) && c in checks
    ensures (if c.id == id then c.(enabled := enabled) else c) in SetEnabled(checks, id, enabled)
  {
    SetEnabledAt(checks, id, enabled);
    var i :| 0 <= i < |checks| && checks[i] == c;
    assert SetEnabled(checks, id, enabled)[i] in SetEnabled(checks, id, enabled);
  }

  lemma MemberOfSet(checks: seq<Check>, id: Uuid, enabled: bool, c: Check) returns (d: Check)
    requires StorableChecks(checks) && c in SetEnabled(checks, id, enabled)
    ensures d in checks && c == if d.id == id then d.(enabled := enabled) else d
  {
    SetEnabledAt(checks, id, enabled);
    var i :| 0 <= i < |checks| && SetEnabled(checks, id, enabled)[i] == c;
    d := checks[i];
  }

  lemma SetReflects(checks: seq<Check>, history: seq<Write>, id: Uuid, enabled: bool)
    requires Reflects(checks, history) && StorableChecks(checks) && exists c :: c in checks && c.id == id
    ensures Reflects(SetEnabled(checks, id, enabled), history + [Set(id, enabled)])
  {
    var after, longer := SetEnabled(checks, id, enabled), history + [Set(id, enabled)];
    forall c | c in after ensures Setting(longer, c.id) == Some(c.enabled) {
      var d := MemberOfSet(checks, id, enabled, c);
      SettingAfter(history, Set(id, enabled), d.id);
    }
    forall x | Setting(longer, x).Some? ensures exists c :: c in after && c.id == x {
      SettingAfter(history, Set(id, enabled), x);
      var c :| c in checks && c.id == x;
      SetMember(checks, id, enabled, c);
    }
  }

  lemma SetKeepsValid(checks: seq<Check>, id: Uuid, enabled: bool)
    requires StorableChecks(checks) && AllValid(checks)
    ensures AllValid(SetEnabled(checks, id, enabled))
  {
    SetEnabledAt(checks, id, enabled);
  }

  // What a monitor run starts from.

  ghost predicate Monotone(at: nat -> Instant) {
    forall i, j :: i <= j ==> at(i) <= at(j)
  }

  /** The table holds these checks, each under its id, and no others. */
  ghost predicate Registers(table: Table, checks: seq<Check>) {
    && (forall id :: id in table <==> Includes(checks, id))
    && (forall id :: id in table ==> table[id].check in checks && table[id].check.id == id)
  }

  ghost predicate Includes(checks: seq<Check>, id: Uuid) {
    exists i :: 0 <= i < |checks| && checks[i].id == id
  }

  lemma RegistersNext(table: Table, checks: seq<Check>, check: Check, now: Instant)
    requires Registers(table, checks)
    ensures Registers(table[check.id := NewEntry(check, now)], checks + [check])
  {
    var longer := checks + [check];
    assert longer[|checks|] == check;
    forall id ensures Includes(longer, id) <==> Includes(checks, id) || id == check.id {
      if Includes(checks, id) {
        var i :| 0 <= i < |checks| && checks[i].id == id;
        assert longer[i].id == id;
      }
    }
  }

  ghost predicate NothingFailed(w: World) {
    forall id :: !FailedLast(w, id)
  }

  lemma StartsUnfailed(w: World, s: Step)
    requires NothingFailed(w) && (s.Register? || s.StartRun?) && Enabled(w, s)
    ensures NothingFailed(Apply(w, s))
  {
    forall id ensures !FailedLast(Apply(w, s), id) {
      assert !FailedLast(w, id);
    }
  }

  /** A fresh scheduler after registering the first n checks, the i-th at time at(i). */
  ghost function AfterRegistering(config: Config, checks: seq<Check>, at: nat -> Instant, n: nat): (w: World)
    requires n <= |checks| && Monotone(at)
    ensures w.config == config && w.clock == (if n == 0 then 0 else at(n - 1)) && w.tasks == map[]
    ensures w.runs == [] && w.sink == [] && NothingFailed(w)
    ensures Registers(w.checks, checks[..n])
  {
    if n == 0 then Fresh(config)
    else
      var w := AfterRegistering(config, checks, at, n - 1);
      assert checks[..n] == checks[..n - 1] + [checks[n - 1]];
      RegistersNext(w.checks, checks[..n - 1], checks[n - 1], at(n - 1));
      StartsUnfailed(w, Register(checks[n - 1], at(n - 1)));
      Apply(w, Register(checks[n - 1], at(n - 1)))
  }

  lemma NextRegistration(config: Config, checks: seq<Check>, at: nat -> Instant, i: nat)
    requires i < |checks| && Monotone(at)
    ensures var w := AfterRegistering(config, checks, at, i);
            && w.clock <= at(i) && !InFlight(w, checks[i].id)
            && AfterRegistering(config, checks, at, i + 1) == Apply(w, Register(checks[i], at(i)))
  {
  }

  predicate NoRegistration(steps: seq<Step>) {
    forall s :: s in steps ==> !s.Register?
  }

  /** Every entry keeps its check. */
  ghost predicate SameChecks(a: Table, b: Table) {
    a.Keys == b.Keys && forall id :: id in a ==> a[id].check == b[id].check
  }

  lemma StepKeepsChecks(w: World, s: Step)
    requires Enabled(w, s) && !s.Register?
    ensures SameChecks(w.checks, Apply(w, s).checks)
  {
    if s.Tick? {
      forall id | id in w.checks ensures Apply(w, s).checks[id].check == w.checks[id].check {
        TickShape(w, s, id);
      }
    }
  }

  /** Without registrations a trace is disciplined, and the table keeps its checks. */
  lemma {:induction false} PrivateTrace(w: World, steps: seq<Step>)
    requires Trace(w, steps) && NoRegistration(steps)
    ensures SafeTrace(w, steps) && SameChecks(w.checks, Exec(w, steps).checks)
    decreases steps
  {
    if steps == [] {
    } else {
      StepKeepsChecks(w, steps[0]);
      PrivateTrace(Apply(w, steps[0]), steps[1..]);
    }
  }

  predicate HasService(services: seq<Service>, id: Uuid) {
    exists i :: 0 <= i < |services| && services[i].id == id
  }

  /** The check that is to be created, or why it cannot be. */
  function Validated(services: seq<Service>, serviceId: Uuid, url: string, status: U16, interval: U64, timeout: U64,
                     id: Uuid, createdAt: Timestamp): Result<Check, ApplicationError>
  {
    if !HasService(services, serviceId) then Failure(ServiceNotFound(serviceId))
    else
      match NewHttpCheck(id, createdAt, serviceId, url, status, interval, timeout)
      case Failure(e) => Failure(Invalid(e))
      case Success(c) => Success(c)
  }

  /** Why a creation is refused before anything is stored. */
  ghost function Refusal(services: seq<Service>, serviceId: Uuid, url: string, status: U16, interval: U64,
                         timeout: U64): Option<ApplicationError>
  {
    if forall s :: s in services ==> s.id != serviceId then Some(ServiceNotFound(serviceId))
    else if forall i :: 0 <= i < |url| ==> url[i] as int in WHITESPACE then Some(Invalid(EmptyHttpUrl))
    else if status < 100 || 600 <= status then Some(Invalid(InvalidHttpStatus(status)))
    else if interval == 0 then Some(Invalid(ZeroInterval))
    else if timeout == 0 then Some(Invalid(ZeroTimeout))
    else None
  }

  /** Validation answers the refusal or, if there is none, a valid check with the URL trimmed. */
  lemma ValidatedOrRefused(services: seq<Service>, serviceId: Uuid, url: string, status: U16, interval: U64,
                           timeout: U64, id: Uuid, createdAt: Timestamp)
    ensures var r := Validated(services, serviceId, url, status, interval, timeout, id, createdAt);
            var refusal := Refusal(services, serviceId, url, status, interval, timeout);
            && (refusal.Some? ==> r == Failure(refusal.value))
            && (refusal.None? ==>
                  && r == Success(Check(id, serviceId, Http(Trim(url), status), interval, timeout, true, createdAt))
                  && ValidCheck(r.value))
  {
    assert HasService(services, serviceId) <==> exists s :: s in services && s.id == serviceId;
    ConstructorErrors(id, createdAt, serviceId, url, status, interval, timeout);
    ConstructorsValidate(id, createdAt, serviceId, url, status, interval, timeout);
  }

  ghost function InsertFailure(services: seq<Service>, checks: seq<Check>, c: Check, fails: bool)
    : Option<PersistenceError>
  {
    StatementError(InsertCheckError(services, checks, c), fails)
  }

  ghost function RecordFailure(checks: seq<Check>, results: seq<CheckResult>, r: CheckResult, fails: bool)
    : Option<PersistenceError>
  {
    StatementError(InsertResultError(checks, results, r), fails)
  }

  /**
   A concrete loss of a first result: the check is created and its result could be stored,
   but the database fails at that moment; the next reload returns the check.
   */
  lemma LostFirstResult(service: Service, id: Uuid, createdAt: Timestamp, executed: CheckResult)
    requires executed.checkId == id && executed.durationMs <= 1000
    ensures var check := Check(id, service.id, Http("http://localhost", 200), 60, 1000, true, createdAt);
            var validated := Validated([service], service.id, "http://localhost", 200, 60, 1000, id, createdAt);
            && validated == Success(check) && InsertFailure([service], [], check, false) == None
            && RecordFailure([check], [], executed, false) == None
            && RecordFailure([check], [], executed, true) == Some(DatabaseFailure)
            && SortBy(CheckPrecedes, EnabledOf([check])) == [check]
  {
    TrimIsIdempotent("http://localhost");
    assert [service][0].id == service.id && service in [service];
    var check := Check(id, service.id, Http("http://localhost", 200), 60, 1000, true, createdAt);
    assert [check][0] in [check] && [check][1..] == [];
  }

  /** What storing a new check and its first result returns and leaves behind, when the two inserts end like this. */
  ghost predicate Stored(check: Check, executed: CheckResult,
                         notInserted: Option<PersistenceError>, notRecorded: Option<PersistenceError>,
                         before: Snapshot, history: seq<Write>, after: Snapshot, history': seq<Write>,
                         r: Result<(Check, CheckResult), ApplicationError>)
  {
    if notInserted.Some? then r == Failure(Persistence(notInserted.value)) && after == before && history' == history
    else
      && after.services == before.services && after.checks == before.checks + [check]
      && history' == history + [Created(check.id)]
      && after.results == before.results + (if notRecorded.None? then [executed] else [])
      && r == if notRecorded.None? then Success((check, executed)) else Failure(Persistence(notRecorded.value))
  }

  class HealthCheckApp {
    const database: Database
    /** The writes that reached the checks table. */
    ghost var history: seq<Write>

    ghost predicate Valid()
      reads this, database
    {
      database.Valid() && AllValid(database.checks) && Reflects(database.checks, history)
    }

    /** Opens a database, new or with checks whose flags the given writes have left. */
    constructor (database: Database, ghost history: seq<Write>)
      requires database.Valid() && AllValid(database.checks) && Reflects(database.checks, history)
      ensures Valid() && this.database == database && this.history == history
    {
      this.database := database;
      this.history := history;
    }

    /** Stores a valid enabled check and notes the write. */
    method InsertValid(c: Check, fails: bool) returns (error: Option<PersistenceError>)
      requires Valid() && ValidCheck(c) && c.enabled
      modifies this`history, database`checkRows, database`checks
      ensures Valid() && error == InsertFailure(database.services, old(database.checks), c, fails)
      ensures database.checks == if error.None? then old(database.checks) + [c] else old(database.checks)
      ensures history == if error.None? then old(history) + [Created(c.id)] else old(history)
    {
      ghost var checks := database.checks;
      error := database.InsertCheck(c, fails);
      if error.None? {
        InsertedFits(database.services, checks, c);
        CreateReflects(checks, history, c);
        history := history + [Created(c.id)];
      }
    }

    method InsertExecuted(r: CheckResult, fails: bool) returns (error: Option<PersistenceError>)
      requires Valid()
      modifies database`resultRows, database`results
      ensures Valid() && error == RecordFailure(database.checks, old(database.results), r, fails)
      ensures database.results == if error.None? then old(database.results) + [r] else old(database.results)
    {
      error := database.InsertResult(r, fails);
    }

    /** Inserts a new check and then, if that succeeds, its first result. */
    method InsertBoth(check: Check, executed: CheckResult, insertFails: bool, recordFails: bool)
      returns (notInserted: Option<PersistenceError>, notRecorded: Option<PersistenceError>)
      requires Valid() && ValidCheck(check) && check.enabled
      modifies this`history, database`checkRows, database`checks, database`resultRows, database`results
      ensures Valid() && notInserted == InsertFailure(database.services, old(database.checks), check, insertFails)
      ensures database.checks == if notInserted.None? then old(database.checks) + [check] else old(database.checks)
      ensures history == if notInserted.None? then old(history) + [Created(check.id)] else old(history)
      ensures notInserted.None? ==>
                notRecorded == RecordFailure(database.checks, old(database.results), executed, recordFails)
      ensures database.results ==
              if notInserted.None? && notRecorded.None? then old(database.results) + [executed]
              else old(database.results)
    {
      ghost var services, results := database.services, database.results;
      notInserted := InsertValid(check, insertFails);
      assert database.services == services && database.results == results;
      if notInserted.Some? {
        return notInserted, None;
      }
      notRecorded := InsertExecuted(executed, recordFails);
    }

    /**
     Creates an enabled check and records its first result. The generated id, the
     creation time, the outcome of the execution and whether the database fails are
     parameters. When only the result cannot be stored, the call fails but the check stays.
     */
    method CreateHttpCheck(serviceId: Uuid, url: string, status: U16, interval: U64, timeout: U64,
                           id: Uuid, createdAt: Timestamp, executed: CheckResult,
                           insertFails: bool, recordFails: bool)
      returns (r: Result<(Check, CheckResult), ApplicationError>)
      requires Valid() && executed.checkId == id
      modifies this`history, database`checkRows, database`checks, database`resultRows, database`results
      ensures Valid()
      ensures var refusal := Refusal(database.services, serviceId, url, status, interval, timeout);
              if refusal.Some? then
                && r == Failure(refusal.value) && history == old(history)
                && Contents(database) == old(Contents(database))
              else
                var check := Check(id, serviceId, Http(Trim(url), status), interval, timeout, true, createdAt);
                var notInserted := InsertFailure(database.services, old(database.checks), check, insertFails);
                var notRecorded := RecordFailure(database.checks, old(database.results), executed, recordFails);
                Stored(check, executed, notInserted, notRecorded,
                       old(Contents(database)), old(history), Contents(database), history, r)
    {
      var check := Validated(database.services, serviceId, url, status, interval, timeout, id, createdAt);
      ValidatedOrRefused(database.services, serviceId, url, status, interval, timeout, id, createdAt);
      if check.Failure? {
        return Failure(check.error);
      }
      var notInserted, notRecorded := InsertBoth(check.value, executed, insertFails, recordFails);
      if notInserted.Some? {
        return Failure(Persistence(notInserted.value));
      }
      if notRecorded.Some? {
        return Failure(Persistence(notRecorded.value));
      }
      return Success((check.value, executed));
    }

    method SetCheckEnabled(id: Uuid, enabled: bool, fails: bool) returns (error: Option<ApplicationError>)
      requires Valid()
      modifies this`history, database`checkRows, database`checks
      ensures Valid()
      ensures error == if !(exists c :: c in old(database.checks) && c.id == id) then Some(CheckNotFound(id))
                       else if fails then Some(Persistence(DatabaseFailure))
                       else None
      ensures database.checks ==
              if error.None? then SetEnabled(old(database.checks), id, enabled) else old(database.checks)
      ensures history == if error.None? then old(history) + [Set(id, enabled)] else old(history)
    {
      var found := GetById(database.checkRows, id);
      if found.Failure? {
        error := Some(Persistence(found.error));
        GetReadsBack(database.checks, id);
      } else {
        GetReadsBack(database.checks, id);
        FindCommutes(database.checks, id);
        if found.value.None? {
          error := Some(CheckNotFound(id));
        } else {
          SetReflects(database.checks, history, id, enabled);
          SetKeepsValid(database.checks, id, enabled);
          var notUpdated := database.UpdateEnabled(id, enabled, fails);
          if notUpdated.Some? {
            return Some(Persistence(notUpdated.value));
          }
          history := history + [Set(id, enabled)];
          error := None;
        }
      }
    }

    /** The checks that a reload returns. */
    ghost function Reloaded(): seq<Check>
      reads database
    {
      SortBy(CheckPrecedes, EnabledOf(database.checks))
    }

    /** A fresh scheduler with the listed checks registered, the i-th at time at(i). */
    method RegisterAll(config: Config, checks: seq<Check>, at: nat -> Instant) returns (scheduler: Scheduler)
      requires Monotone(at) && database.Valid()
      ensures fresh(scheduler) && fresh(scheduler.state) && scheduler.Valid()
      ensures scheduler.config == config && scheduler.sink == Sqlite(database) && scheduler.before == Contents(database)
      ensures scheduler.world == AfterRegistering(config, checks, at, |checks|)
    {
      scheduler := new Scheduler(config, Sqlite(database));
      for i := 0 to |checks|
        invariant scheduler.Valid() && fresh(scheduler) && fresh(scheduler.state) && scheduler.config == config
        invariant scheduler.sink == Sqlite(database) && scheduler.before == Contents(database)
        invariant scheduler.world == AfterRegistering(config, checks, at, i)
      {
        NextRegistration(config, checks, at, i);
        scheduler.Register(checks[i], at(i));
      }
    }

    /** Where the loop starts: a fresh scheduler under the default unit, the reloaded checks registered, one run. */
    ghost function MonitorStart(limit: Instant, at: nat -> Instant): World
      requires Monotone(at)
      reads database
    {
      Apply(AfterRegistering(Config(ONE_SECOND, limit), Reloaded(), at, |Reloaded()|), StartRun)
    }

    method RunReloaded(limit: Instant, at: nat -> Instant, script: seq<Step>, reloaded: seq<Check>)
      returns (returned: Option<Stats>, ghost table: Table, ghost recorded: seq<CheckResult>)
      requires database.Valid() && Reflects(database.checks, history) && reloaded == Reloaded()
      requires Monotone(at) && NoRegistration(script)
      requires Script(Sqlite(database), Contents(database), MonitorStart(limit, at), script, 0)
      modifies database
      ensures database.Valid()
      ensures Contents(database) == old(Contents(database)).(results := old(database.results) + recorded)
      ensures RunsReloaded(database.checks, history, table, recorded)
      ensures RunIsOver(old(MonitorStart(limit, at)), script, returned, table, recorded)
    {
      var scheduler := RegisterAll(Config(ONE_SECOND, limit), reloaded, at);
      assert reloaded[..|reloaded|] == reloaded;
      MonitoredRun(scheduler.sink, Contents(database), history, reloaded, scheduler.world, script);
      returned, table, recorded := RunRegistered(scheduler, script);
    }

    /** Runs a scheduler that records into the database. */
    method RunRegistered(scheduler: Scheduler, script: seq<Step>)
      returns (returned: Option<Stats>, ghost table: Table, ghost recorded: seq<CheckResult>)
      requires scheduler.Valid() && scheduler.sink == Sqlite(database) && scheduler.before == Contents(database)
      requires scheduler.world.runs == [] && scheduler.world.sink == []
      requires Script(scheduler.sink, scheduler.before, Apply(scheduler.world, StartRun), script, 0)
      modifies scheduler, scheduler.state, database
      ensures database.Valid()
      ensures Contents(database) == old(Contents(database)).(results := old(database.results) + recorded)
      ensures Trace(Apply(old(scheduler.world), StartRun), script)
      ensures RunResult(Exec(Apply(old(scheduler.world), StartRun), script), returned, table, recorded)
    {
      assert scheduler.sink.Tables() == {database};
      returned := scheduler.RunUntilShutdown(0, script);
      table, recorded := scheduler.state.checks, ResultsOf(scheduler.world.sink);
    }

    /**
     Registers every enabled check with a fresh scheduler and runs it until shutdown,
     recording into the database. `script` is the interleaving of the run with its
     tasks, in which nobody else registers checks; there are no stats if the run is
     dropped or panics. `table` is the scheduler's table at the end, and `recorded` what
     the run has recorded.
     */
    method MonitorUntil(limit: Instant, at: nat -> Instant, script: seq<Step>)
      returns (stats: Option<Result<Stats, ApplicationError>>, ghost table: Table, ghost recorded: seq<CheckResult>)
      requires Valid() && Monotone(at) && NoRegistration(script)
      requires Script(Sqlite(database), Contents(database), MonitorStart(limit, at), script, 0)
      modifies database
      ensures Valid() && Contents(database) == old(Contents(database)).(results := old(database.results) + recorded)
      ensures RunsReloaded(database.checks, history, table, recorded)
      ensures stats.None? || stats.value.Success?
      ensures var returned := if stats.Some? then Some(stats.value.value) else None;
              RunIsOver(old(MonitorStart(limit, at)), script, returned, table, recorded)
    {
      var listed := ListEnabled(database.checkRows);
      if listed.Failure? {
        stats := Some(Failure(Persistence(listed.error)));
        table, recorded := map[], [];
        ListEnabledReads(database.checks);
      } else {
        ListEnabledReads(database.checks);
        var returned;
        returned, table, recorded := RunReloaded(limit, at, script, listed.value);
        stats := if returned.Some? then Some(Success(returned.value)) else None;
      }
    }
  }

  /**
   How the first run of a script ends: with the stats of the transition system, which
   count the sink's refusals, or without any if it was dropped or its clock ran out.
   */
  ghost predicate RunIsOver(start: World, script: seq<Step>, stats: Option<Stats>, table: Table,
                            recorded: seq<CheckResult>)
  {
    && Trace(start, script)
    && var end := Exec(start, script);
       && RunResult(end, stats, table, recorded)
       && (stats.Some? ==> stats.value.sinkErrors == Refusals(start, script, 0))
       && (stats.Some? && |end.runs| == 1 ==> FlagsTell(table, script))
       && (stats.None? ==> Crash(0) in script || end.clock + U32_MAX * NANOS_PER_SEC > end.config.limit)
  }

  /** The enabled checks still marked running are exactly those of which the run has joined a failed task. */
  ghost predicate FlagsTell(table: Table, script: seq<Step>) {
    forall id :: id in table ==> (table[id].running <==> table[id].check.enabled && FailsIn(script, id))
  }

  lemma FlagsTellAfter(start: World, script: seq<Step>)
    requires Inv(start) && SafeScript(start, script) && NoRegistration(script) && NothingFailed(start)
    requires var end := Exec(start, script); |end.runs| == 1 && JoinSet(end.tasks, 0) == {}
    ensures FlagsTell(Exec(start, script).checks, script)
  {
    var end := Exec(start, script);
    TraceKeepsInv(start, script);
    PrivateTrace(start, script);
    OnlyRunIdle(end);
    IdleFlags(end);
    forall id | id in end.checks ensures FailedLast(end, id) <==> FailsIn(script, id) {
      FailedLastExactly(start, script, id);
    }
  }

  /** The first run's stats, the shared table and what the sink has taken. */
  ghost predicate RunResult(end: World, stats: Option<Stats>, table: Table, recorded: seq<CheckResult>) {
    && end.runs != [] && stats == (if end.runs[0].gone then None else Some(end.runs[0].stats))
    && table == end.checks && recorded == ResultsOf(end.sink)
  }

  lemma OverAfter(start: World, script: seq<Step>, stats: Option<Stats>, table: Table, recorded: seq<CheckResult>)
    requires Inv(start) && SafeScript(start, script) && Ended(Exec(start, script), 0)
    requires start.config.unit == ONE_SECOND && start.runs == [Run(ZERO_STATS, false, false, 0)]
    requires JoinSet(start.tasks, 0) == {} && RunResult(Exec(start, script), stats, table, recorded)
    requires NoRegistration(script) && NothingFailed(start)
    ensures RunIsOver(start, script, stats, table, recorded)
  {
    var end := Exec(start, script);
    ConfigIsConstant(start, script);
    if stats.Some? {
      SinkErrorsAreRefusals(start, script, 0);
      assert Refused(start.tasks, 0) <= JoinSet(start.tasks, 0) && Refused(end.tasks, 0) <= JoinSet(end.tasks, 0);
      if |end.runs| == 1 {
        FlagsTellAfter(start, script);
      }
    } else if end.clock + U32_MAX * NANOS_PER_SEC <= end.config.limit {
      DefaultUnitNeverPanics(start, script);
      GoneHasCause(start, script, 0);
    }
  }

  /** What a monitor run amounts to, whatever its script. */
  lemma MonitoredRun(sink: Sink, snapshot: Snapshot, history: seq<Write>, reloaded: seq<Check>, w: World,
                     script: seq<Step>)
    requires Reflects(snapshot.checks, history) && StorableChecks(snapshot.checks)
    requires reloaded == SortBy(CheckPrecedes, EnabledOf(snapshot.checks)) && NoRegistration(script)
    requires Inv(w) && Accounted(w) && Registers(w.checks, reloaded) && w.config.unit == ONE_SECOND && w.runs == []
    requires NothingFailed(w)
    requires Script(sink, snapshot, Apply(w, StartRun), script, 0)
    ensures var start := Apply(w, StartRun);
            Trace(start, script) && MonitorOutcome(snapshot.checks, history, start, script)
  {
    var start := Apply(w, StartRun);
    ScriptIsTrace(sink, snapshot, start, script, 0);
    StartKeepsAll(w);
    NewRunIsEmpty(w);
    StartsUnfailed(w, StartRun);
    forall stats, table, recorded | RunResult(Exec(start, script), stats, table, recorded)
      ensures RunIsOver(start, script, stats, table, recorded)
      ensures RunsReloaded(snapshot.checks, history, table, recorded)
    {
      OverAfter(start, script, stats, table, recorded);
      ReloadedRun(snapshot.checks, history, reloaded, start, script);
    }
  }

  ghost predicate MonitorOutcome(checks: seq<Check>, history: seq<Write>, start: World, script: seq<Step>)
    requires Trace(start, script)
  {
    forall stats, table, recorded :: RunResult(Exec(start, script), stats, table, recorded) ==>
      RunIsOver(start, script, stats, table, recorded) && RunsReloaded(checks, history, table, recorded)
  }

  lemma StartKeepsAll(w: World)
    requires Inv(w) && Accounted(w)
    ensures Inv(Apply(w, StartRun)) && Accounted(Apply(w, StartRun))
  {
    StepKeepsAll(w, StartRun);
  }

  ghost predicate SafeScript(start: World, script: seq<Step>) {
    Trace(start, script) && SafeTrace(start, script)
  }

  /**
   A run monitors exactly the checks whose last write says enabled, each with its
   stored definition, and records results for no other check.
   */
  ghost predicate RunsReloaded(checks: seq<Check>, history: seq<Write>, table: Table, recorded: seq<CheckResult>) {
    && (forall id :: id in table <==> Setting(history, id) == Some(true))
    && (forall id :: id in table ==> table[id].check in checks && table[id].check.id == id)
    && (forall r :: r in recorded ==> Setting(history, r.checkId) == Some(true))
  }

  /** A run over the reloaded checks in which nobody registers monitors what was reloaded. */
  lemma ReloadedRun(checks: seq<Check>, history: seq<Write>, reloaded: seq<Check>, start: World, script: seq<Step>)
    requires Reflects(checks, history) && StorableChecks(checks) && reloaded == SortBy(CheckPrecedes, EnabledOf(checks))
    requires Inv(start) && Accounted(start) && SafeScript(start, script) && NoRegistration(script)
    requires Registers(start.checks, reloaded)
    ensures var end := Exec(start, script); RunsReloaded(checks, history, end.checks, ResultsOf(end.sink))
  {
    var end := Exec(start, script);
    PrivateTrace(start, script);
    TraceKeepsAccounts(start, script);
    ReloadedAreEnabled(checks, history, reloaded);
    SinkHoldsRegistered(end);
    MonitoredAre(checks, history, reloaded, start.checks, end.checks, ResultsOf(end.sink));
  }

  lemma MonitoredAre(checks: seq<Check>, history: seq<Write>, reloaded: seq<Check>, start: Table, end: Table,
                     recorded: seq<CheckResult>)
    requires forall c :: c in reloaded ==> c in checks
    requires forall id :: Includes(reloaded, id) <==> Setting(history, id) == Some(true)
    requires Registers(start, reloaded)
    requires SameChecks(start, end)
    requires forall r :: r in recorded ==> r.checkId in end
    ensures RunsReloaded(checks, history, end, recorded)
  {
    forall id ensures id in end <==> Setting(history, id) == Some(true) {
      assert id in end <==> id in start;
    }
  }

  /** The reloaded checks are those whose last write says enabled. */
  lemma ReloadedAreEnabled(checks: seq<Check>, history: seq<Write>, reloaded: seq<Check>)
    requires Reflects(checks, history) && StorableChecks(checks) && reloaded == SortBy(CheckPrecedes, EnabledOf(checks))
    ensures forall c :: c in reloaded ==> c in checks
    ensures forall id :: Includes(reloaded, id) <==> Setting(history, id) == Some(true)
  {
    forall c ensures c in reloaded <==> c in checks && c.enabled {
      ReloadedMember(checks, c);
    }
    ListedAreEnabled(checks, history, reloaded);
  }

  lemma ListedAreEnabled(checks: seq<Check>, history: seq<Write>, reloaded: seq<Check>)
    requires Reflects(checks, history) && forall c :: c in reloaded <==> c in checks && c.enabled
    ensures forall id :: Includes(reloaded, id) <==> Setting(history, id) == Some(true)
  {
    forall id ensures Includes(reloaded, id) <==> Setting(history, id) == Some(true) {
      ListedIsEnabled(checks, history, reloaded, id);
    }
  }

  lemma ListedIsEnabled(checks: seq<Check>, history: seq<Write>, reloaded: seq<Check>, id: Uuid)
    requires Reflects(checks, history) && forall c :: c in reloaded <==> c in checks && c.enabled
    ensures Includes(reloaded, id) <==> Setting(history, id) == Some(true)
  {
    if Includes(reloaded, id) {
      var i :| 0 <= i < |reloaded| && reloaded[i].id == id;
      assert reloaded[i] in reloaded;
    }
    if Setting(history, id) == Some(true) {
      var c :| c in checks && c.id == id;
      assert c in reloaded;
      var i :| 0 <= i < |reloaded| && reloaded[i] == c;
    }
  }

  lemma ReloadedMember(checks: seq<Check>, c: Check)
    requires StorableChecks(checks)
    ensures c in SortBy(CheckPrecedes, EnabledOf(checks)) <==> c in checks && c.enabled
  {
    EnabledCommutes(checks);
    SortKeepsElements(CheckPrecedes, EnabledOf(checks));
    assert c in SortBy(CheckPrecedes, EnabledOf(checks)) <==> c in multiset(SortBy(CheckPrecedes, EnabledOf(checks)));
    assert c in EnabledOf(checks) <==> c in multiset(EnabledOf(checks));
  }

  lemma {:induction false} ResultsAreEntries(sink: seq<Entry>)
    ensures forall r :: r in ResultsOf(sink) ==> exists e :: e in sink && e.result == r
  {
    if sink == [] {
    } else {
      var init, last := sink[..|sink| - 1], sink[|sink| - 1];
      ResultsAreEntries(init);
      forall r | r in ResultsOf(sink) ensures exists e :: e in sink && e.result == r {
        if r in ResultsOf(init) {
          var e :| e in init && e.result == r;
          assert e in sink;
        } else {
          assert last in sink && last.result == r;
        }
      }
    }
  }

  lemma SinkHoldsRegistered(w: World)
    requires Inv(w) && Accounted(w)
    ensures forall r :: r in ResultsOf(w.sink) ==> r.checkId in w.checks
  {
    ResultsAreEntries(w.sink);
    forall r | r in ResultsOf(w.sink) ensures r.checkId in w.checks {
      var e :| e in w.sink && e.result == r;
      assert Genuine(w, e);
    }
  }

  /** Each check is reloaded once. */
  lemma ReloadedOnce(checks: seq<Check>)
    requires DistinctCheckIds(checks) && StorableChecks(checks)
    ensures DistinctCheckIds(SortBy(CheckPrecedes, EnabledOf(checks)))
  {
    EnabledDistinct(checks);
    SortKeepsElements(CheckPrecedes, EnabledOf(checks));
    DistinctPermutation(EnabledOf(checks), SortBy(CheckPrecedes, EnabledOf(checks)));
  }
}
