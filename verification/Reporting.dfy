/** Health reports: the status of a service over its checks, and of a project over its services. */
module Reporting {
  import opened Wrappers
  import opened Domain
  import opened Mapping
  import opened Ordering
  import opened Results
  import opened Databases

  function Aggregate(statuses: seq<HealthStatus>): HealthStatus {
    if statuses == [] then Unknown
    else if Unhealthy in statuses then Unhealthy
    else if Degraded in statuses then Degraded
    else if Unknown in statuses then Unknown
    else Healthy
  }

  function Severity(s: HealthStatus): nat {
    match s
    case Healthy => 0
    case Unknown => 1
    case Degraded => 2
    case Unhealthy => 3
  }

  /** The aggregate is the most severe of the statuses. */
  lemma AggregateIsMaximum(statuses: seq<HealthStatus>, s: HealthStatus)
    requires statuses != []
    ensures Aggregate(statuses) == s <==> s in statuses && forall t :: t in statuses ==> Severity(t) <= Severity(s)
  {
    var a := Aggregate(statuses);
    assert statuses[0] in statuses;
    match statuses[0] {
      case Healthy => assert a in statuses;
      case Unknown => assert a in statuses;
      case Degraded => assert a in statuses;
      case Unhealthy => assert a in statuses;
    }
    forall t | t in statuses ensures Severity(t) <= Severity(a) {
      assert t.Healthy? || t.Unknown? || t.Degraded? || t.Unhealthy?;
    }
    assert s in statuses && (forall t :: t in statuses ==> Severity(t) <= Severity(s)) ==> Severity(a) == Severity(s);
  }

  /** Only which statuses occur matters: neither their order nor their number. */
  lemma AggregateIgnoresOrderAndCount(a: seq<HealthStatus>, b: seq<HealthStatus>)
    requires forall s :: s in a <==> s in b
    ensures Aggregate(a) == Aggregate(b)
  {
    if a != [] {
      assert a[0] in b;
    }
    if b != [] {
      assert b[0] in a;
    }
  }

  function AggregateEach(groups: seq<seq<HealthStatus>>): seq<HealthStatus> {
    if groups == [] then [] else [Aggregate(groups[0])] + AggregateEach(groups[1..])
  }

  /** All statuses in one list; an empty group contributes one Unknown. */
  function Flatten(groups: seq<seq<HealthStatus>>): seq<HealthStatus> {
    if groups == [] then []
    else (if groups[0] == [] then [Unknown] else groups[0]) + Flatten(groups[1..])
  }

  lemma AggregateOfConcat(a: seq<HealthStatus>, b: seq<HealthStatus>)
    requires a != []
    ensures Aggregate([Aggregate(a)] + b) == Aggregate(a + b)
  {
    AggregateIsMaximum(a, Aggregate(a));
  }

  lemma AggregateCongruence(a: HealthStatus, b: seq<HealthStatus>, c: seq<HealthStatus>)
    requires Aggregate(b) == Aggregate(c) && (b == [] <==> c == [])
    ensures Aggregate([a] + b) == Aggregate([a] + c)
  {
  }

  /** Aggregating twice, over checks and then over services, is one aggregation over everything. */
  lemma {:induction false} TwoLevelsAreOne(groups: seq<seq<HealthStatus>>)
    ensures Aggregate(AggregateEach(groups)) == Aggregate(Flatten(groups))
    ensures AggregateEach(groups) == [] <==> Flatten(groups) == []
  {
    if groups == [] {
    } else {
      var first := if groups[0] == [] then [Unknown] else groups[0];
      TwoLevelsAreOne(groups[1..]);
      assert Aggregate(groups[0]) == Aggregate(first);
      AggregateCongruence(Aggregate(first), AggregateEach(groups[1..]), Flatten(groups[1..]));
      AggregateOfConcat(first, Flatten(groups[1..]));
    }
  }

  // Reports over the store.

  datatype CheckHealth = CheckHealth(check: Check, latestResult: Option<CheckResult>, recentHistory: seq<CheckResult>)
  datatype ServiceHealth = ServiceHealth(service: Service, status: HealthStatus, checks: seq<CheckHealth>)
  datatype ProjectSummary = ProjectSummary(project: Uuid, status: HealthStatus, services: seq<ServiceHealth>)

  datatype ReportingError =
    | Persistence(error: PersistenceError)
    | ProjectNotFound(project: Uuid)
    | ServiceNotFound(service: Uuid)

  function StatusOf(health: CheckHealth): HealthStatus {
    match health.latestResult
    case Some(r) => r.status
    case None => Unknown
  }

  /** The latest statuses of the enabled checks. */
  function EnabledStatuses(checks: seq<CheckHealth>): seq<HealthStatus> {
    if checks == [] then []
    else (if checks[0].check.enabled then [StatusOf(checks[0])] else []) + EnabledStatuses(checks[1..])
  }

  function LatestResult(results: seq<CheckResult>, checkId: Uuid): Option<CheckResult> {
    var sorted := Chronological(results, checkId);
    if sorted == [] then None else Some(sorted[0])
  }

  function HealthOf(results: seq<CheckResult>, check: Check, historyLimit: nat): CheckHealth {
    CheckHealth(check, LatestResult(results, check.id), Take(Chronological(results, check.id), historyLimit))
  }

  function HealthOfAll(results: seq<CheckResult>, checks: seq<Check>, historyLimit: nat): seq<CheckHealth> {
    if checks == [] then []
    else [HealthOf(results, checks[0], historyLimit)] + HealthOfAll(results, checks[1..], historyLimit)
  }

  function ServiceReport(checks: seq<Check>, results: seq<CheckResult>, service: Service, historyLimit: nat)
    : ServiceHealth
  {
    var healths := HealthOfAll(results, SortBy(CheckPrecedes, OfService(checks, service.id)), historyLimit);
    ServiceHealth(service, Aggregate(EnabledStatuses(healths)), healths)
  }

  function ServicesOf(services: seq<Service>, project: Uuid): seq<Service> {
    if services == [] then []
    else (if services[0].projectId == project then [services[0]] else []) + ServicesOf(services[1..], project)
  }

  function FindService(services: seq<Service>, id: Uuid): Option<Service> {
    if services == [] then None else if services[0].id == id then Some(services[0]) else FindService(services[1..], id)
  }

  function Statuses(services: seq<ServiceHealth>): seq<HealthStatus> {
    if services == [] then [] else [services[0].status] + Statuses(services[1..])
  }

  function StatusGroups(checks: seq<Check>, results: seq<CheckResult>, services: seq<Service>): seq<seq<HealthStatus>> {
    if services == [] then []
    else [EnabledStatuses(ServiceReport(checks, results, services[0], 0).checks)]
         + StatusGroups(checks, results, services[1..])
  }

  // The reports as they are read from rows, errors included.

  function CheckHealthFromRows(rows: seq<ResultRow>, check: Check, historyLimit: nat)
    : Result<CheckHealth, PersistenceError>
  {
    var latest :- LatestForCheck(rows, check.id);
    if historyLimit == 0 then Success(CheckHealth(check, latest, []))
    else
      var recent :- RecentForCheck(rows, check.id, historyLimit);
      Success(CheckHealth(check, latest, recent))
  }

  function HealthsFromRows(rows: seq<ResultRow>, checks: seq<Check>, historyLimit: nat)
    : Result<seq<CheckHealth>, PersistenceError>
  {
    if checks == [] then Success([])
    else
      var first :- CheckHealthFromRows(rows, checks[0], historyLimit);
      var rest :- HealthsFromRows(rows, checks[1..], historyLimit);
      Success([first] + rest)
  }

  function ServiceFromRows(checkRows: seq<CheckRow>, rows: seq<ResultRow>, service: Service, historyLimit: nat)
    : Result<ServiceHealth, PersistenceError>
  {
    var checks :- ListForService(checkRows, service.id);
    var healths :- HealthsFromRows(rows, checks, historyLimit);
    Success(ServiceHealth(service, Aggregate(EnabledStatuses(healths)), healths))
  }

  function ServicesFromRows(checkRows: seq<CheckRow>, rows: seq<ResultRow>, services: seq<Service>)
    : Result<seq<ServiceHealth>, PersistenceError>
  {
    if services == [] then Success([])
    else
      var first :- ServiceFromRows(checkRows, rows, services[0], 0);
      var rest :- ServicesFromRows(checkRows, rows, services[1..]);
      Success([first] + rest)
  }

  function ReportService(services: seq<Service>, checkRows: seq<CheckRow>, rows: seq<ResultRow>, id: Uuid,
                         historyLimit: nat)
    : Result<ServiceHealth, ReportingError>
  {
    match FindService(services, id)
    case None => Failure(ServiceNotFound(id))
    case Some(service) =>
      match ServiceFromRows(checkRows, rows, service, historyLimit)
      case Success(report) => Success(report)
      case Failure(e) => Failure(Persistence(e))
  }

  function ReportProject(projects: set<Uuid>, services: seq<Service>, checkRows: seq<CheckRow>, rows: seq<ResultRow>,
                         id: Uuid)
    : Result<ProjectSummary, ReportingError>
  {
    if id !in projects then Failure(ProjectNotFound(id))
    else
      match ServicesFromRows(checkRows, rows, ServicesOf(services, id))
      case Success(reports) => Success(ProjectSummary(id, Aggregate(Statuses(reports)), reports))
      case Failure(e) => Failure(Persistence(e))
  }

  function Prepend<T, E>(done: seq<T>, rest: Result<seq<T>, E>): Result<seq<T>, E> {
    match rest
    case Success(values) => Success(done + values)
    case Failure(e) => Failure(e)
  }

  lemma PrependNone<T, E>(rest: Result<seq<T>, E>)
    ensures Prepend([], rest) == rest
  {
    if rest.Success? {
      assert [] + rest.value == rest.value;
    }
  }

  lemma PrependOne<T, E>(done: seq<T>, x: T, rest: Result<seq<T>, E>)
    ensures Prepend(done, Prepend([x], rest)) == Prepend(done + [x], rest)
  {
    if rest.Success? {
      assert done + ([x] + rest.value) == (done + [x]) + rest.value;
    }
  }

  class StatusReporter {
    const database: Database
    const projects: set<Uuid>

    constructor (database: Database, projects: set<Uuid>)
      ensures this.database == database && this.projects == projects
    {
      this.database := database;
      this.projects := projects;
    }

    method HealthForService(service: Service, historyLimit: nat) returns (r: Result<ServiceHealth, PersistenceError>)
      ensures r == ServiceFromRows(database.checkRows, database.resultRows, service, historyLimit)
      ensures r.Success? ==> r.value.service == service && StatusFollows(r.value.status, r.value.checks)
    {
      var listed := ListForService(database.checkRows, service.id);
      if listed.Failure? {
        return Failure(listed.error);
      }
      var checks := listed.value;
      var healths: seq<CheckHealth> := [];
      PrependNone(HealthsFromRows(database.resultRows, checks, historyLimit));
      assert checks[0..] == checks;
      for i := 0 to |checks|
        invariant HealthsFromRows(database.resultRows, checks, historyLimit)
               == Prepend(healths, HealthsFromRows(database.resultRows, checks[i..], historyLimit))
      {
        var latest := LatestForCheck(database.resultRows, checks[i].id);
        if latest.Failure? {
          return Failure(latest.error);
        }
        var recent: seq<CheckResult> := [];
        if historyLimit != 0 {
          var queried := RecentForCheck(database.resultRows, checks[i].id, historyLimit);
          if queried.Failure? {
            return Failure(queried.error);
          }
          recent := queried.value;
        }
        var health := CheckHealth(checks[i], latest.value, recent);
        assert checks[i..][1..] == checks[i + 1..];
        PrependOne(healths, health, HealthsFromRows(database.resultRows, checks[i + 1..], historyLimit));
        healths := healths + [health];
      }
      assert healths + [] == healths;
      ServiceStatusRules(healths);
      return Success(ServiceHealth(service, Aggregate(EnabledStatuses(healths)), healths));
    }

    method ServiceHealthById(serviceId: Uuid, historyLimit: nat) returns (r: Result<ServiceHealth, ReportingError>)
      ensures r == ReportService(database.services, database.checkRows, database.resultRows, serviceId, historyLimit)
      ensures database.Valid() && AllValid(database.checks) ==>
                r == ServiceAnswer(database.services, database.checks, database.results, serviceId, historyLimit)
      ensures database.Valid() && AllValid(database.checks) ==>
                (r == Failure(ServiceNotFound(serviceId)) <==> forall s :: s in database.services ==> s.id != serviceId)
      ensures database.Valid() && AllValid(database.checks) && r.Success? ==>
                && r.value.service in database.services && r.value.service.id == serviceId
                && Describes(r.value, database.checks, database.results, historyLimit)
      ensures r.Success? ==> StatusFollows(r.value.status, r.value.checks)
    {
      FindServiceFinds(database.services, serviceId);
      if database.Valid() && AllValid(database.checks) {
        ServiceIsAnswered(database.services, database.checks, database.results, serviceId, historyLimit);
        AnswerDescribes(database.services, database.checks, database.results, serviceId, historyLimit);
      }
      var service := FindService(database.services, serviceId);
      if service.None? {
        return Failure(ServiceNotFound(serviceId));
      }
      var health := HealthForService(service.value, historyLimit);
      match health {
        case Success(report) => return Success(report);
        case Failure(e) => return Failure(Persistence(e));
      }
    }

    /** The loop over the services of a project. */
    method HealthOfServices(listed: seq<Service>) returns (r: Result<seq<ServiceHealth>, PersistenceError>)
      ensures r == ServicesFromRows(database.checkRows, database.resultRows, listed)
    {
      var services: seq<ServiceHealth> := [];
      PrependNone(ServicesFromRows(database.checkRows, database.resultRows, listed));
      assert listed[0..] == listed;
      for i := 0 to |listed|
        invariant ServicesFromRows(database.checkRows, database.resultRows, listed)
               == Prepend(services, ServicesFromRows(database.checkRows, database.resultRows, listed[i..]))
      {
        var health := HealthForService(listed[i], 0);
        assert listed[i..][1..] == listed[i + 1..];
        if health.Failure? {
          return Failure(health.error);
        }
        PrependOne(services, health.value, ServicesFromRows(database.checkRows, database.resultRows, listed[i + 1..]));
        services := services + [health.value];
      }
      assert services + [] == services;
      return Success(services);
    }

    method Summary(project: Uuid) returns (r: Result<ProjectSummary, ReportingError>)
      ensures r == ReportProject(projects, database.services, database.checkRows, database.resultRows, project)
      ensures database.Valid() && AllValid(database.checks) ==>
                FlatSummary(projects, database.services, database.checks, database.results, project, r)
      ensures database.Valid() && AllValid(database.checks) && r.Success? ==>
                Summarizes(r.value, database.services, database.checks, database.results)
    {
      if database.Valid() && AllValid(database.checks) {
        if project in projects {
          SummarySummarizes(projects, database.services, database.checks, database.results, project);
        }
        SummaryIsFlat(projects, database.services, database.checks, database.results, project);
      }
      if project !in projects {
        return Failure(ProjectNotFound(project));
      }
      var services := HealthOfServices(ServicesOf(database.services, project));
      match services {
        case Success(reports) => return Success(ProjectSummary(project, Aggregate(Statuses(reports)), reports));
        case Failure(e) => return Failure(Persistence(e));
      }
    }
  }

  lemma HealthReadsBack(results: seq<CheckResult>, check: Check, historyLimit: nat)
    requires Storable(results)
    ensures CheckHealthFromRows(Rows(results), check, historyLimit) == Success(HealthOf(results, check, historyLimit))
  {
    QueriesAreChronological(results, check.id, historyLimit);
    assert Take(Chronological(results, check.id), 0) == [];
  }

  lemma {:induction false} HealthsReadBack(results: seq<CheckResult>, checks: seq<Check>, historyLimit: nat)
    requires Storable(results)
    ensures HealthsFromRows(Rows(results), checks, historyLimit) == Success(HealthOfAll(results, checks, historyLimit))
  {
    if checks == [] {
    } else {
      HealthReadsBack(results, checks[0], historyLimit);
      HealthsReadBack(results, checks[1..], historyLimit);
    }
  }

  /** Over a consistent store no report fails, and each is the one over the stored values. */
  lemma ServiceReadsBack(checks: seq<Check>, results: seq<CheckResult>, service: Service, historyLimit: nat)
    requires StorableChecks(checks) && AllValid(checks) && Storable(results)
    ensures ServiceFromRows(CheckRows(checks), Rows(results), service, historyLimit)
         == Success(ServiceReport(checks, results, service, historyLimit))
  {
    ListForServiceReads(checks, service.id);
    HealthsReadBack(results, SortBy(CheckPrecedes, OfService(checks, service.id)), historyLimit);
  }

  /** The reports on services, in their order and without histories. */
  function Reports(checks: seq<Check>, results: seq<CheckResult>, services: seq<Service>): seq<ServiceHealth> {
    if services == [] then []
    else [ServiceReport(checks, results, services[0], 0)] + Reports(checks, results, services[1..])
  }

  lemma FirstService(checkRows: seq<CheckRow>, rows: seq<ResultRow>, services: seq<Service>, report: ServiceHealth)
    requires services != [] && ServiceFromRows(checkRows, rows, services[0], 0) == Success(report)
    requires ServicesFromRows(checkRows, rows, services[1..]).Success?
    ensures ServicesFromRows(checkRows, rows, services)
         == Success([report] + ServicesFromRows(checkRows, rows, services[1..]).value)
  {
  }

  lemma {:induction false} ServicesReadBack(checks: seq<Check>, results: seq<CheckResult>, services: seq<Service>)
    requires StorableChecks(checks) && AllValid(checks) && Storable(results)
    ensures ServicesFromRows(CheckRows(checks), Rows(results), services) == Success(Reports(checks, results, services))
  {
    if services == [] {
    } else {
      ServiceReadsBack(checks, results, services[0], 0);
      ServicesReadBack(checks, results, services[1..]);
      FirstService(CheckRows(checks), Rows(results), services, ServiceReport(checks, results, services[0], 0));
    }
  }

  /**
   A project's status is one aggregation of the latest statuses of all its enabled
   checks, each service without enabled checks contributing one Unknown.
   */
  lemma ProjectStatusIsFlat(checks: seq<Check>, results: seq<CheckResult>, services: seq<Service>)
    requires StorableChecks(checks) && AllValid(checks) && Storable(results)
    ensures var r := ServicesFromRows(CheckRows(checks), Rows(results), services);
            && r.Success?
            && Aggregate(Statuses(r.value)) == Aggregate(Flatten(StatusGroups(checks, results, services)))
  {
    ServicesReadBack(checks, results, services);
    GroupedStatuses(checks, results, services);
    TwoLevelsAreOne(StatusGroups(checks, results, services));
  }

  /** The report on a service over a consistent store: it fails only for an unknown service. */
  function ServiceAnswer(services: seq<Service>, checks: seq<Check>, results: seq<CheckResult>, id: Uuid,
                         historyLimit: nat)
    : Result<ServiceHealth, ReportingError>
  {
    match FindService(services, id)
    case None => Failure(ServiceNotFound(id))
    case Some(service) => Success(ServiceReport(checks, results, service, historyLimit))
  }

  lemma ServiceIsAnswered(services: seq<Service>, checks: seq<Check>, results: seq<CheckResult>, id: Uuid,
                          historyLimit: nat)
    requires StorableChecks(checks) && AllValid(checks) && Storable(results)
    ensures ReportService(services, CheckRows(checks), Rows(results), id, historyLimit)
         == ServiceAnswer(services, checks, results, id, historyLimit)
  {
    if FindService(services, id).Some? {
      ServiceReadsBack(checks, results, FindService(services, id).value, historyLimit);
    }
  }

  /** The lookup fails exactly for an id that no service has. */
  lemma {:induction false} FindServiceFinds(services: seq<Service>, id: Uuid)
    ensures FindService(services, id).None? <==> forall s :: s in services ==> s.id != id
    ensures FindService(services, id).Some? ==>
              FindService(services, id).value in services && FindService(services, id).value.id == id
  {
    if services == [] {
    } else {
      FindServiceFinds(services[1..], id);
    }
  }

  /**
   A summary over a consistent store: it fails only for an unknown project, and its
   status is one flat aggregation.
   */
  ghost predicate FlatSummary(projects: set<Uuid>, services: seq<Service>, checks: seq<Check>,
                              results: seq<CheckResult>,
                              project: Uuid, r: Result<ProjectSummary, ReportingError>) {
    if project !in projects then r == Failure(ProjectNotFound(project))
    else
      var listed := ServicesOf(services, project);
      && r.Success? && r.value.project == project
      && r.value.services == Reports(checks, results, listed)
      && r.value.status == Aggregate(Flatten(StatusGroups(checks, results, listed)))
  }

  lemma SummaryIsFlat(projects: set<Uuid>, services: seq<Service>, checks: seq<Check>, results: seq<CheckResult>,
                      project: Uuid)
    requires StorableChecks(checks) && AllValid(checks) && Storable(results)
    ensures FlatSummary(projects, services, checks, results, project,
                        ReportProject(projects, services, CheckRows(checks), Rows(results), project))
  {
    ServicesReadBack(checks, results, ServicesOf(services, project));
    ProjectStatusIsFlat(checks, results, ServicesOf(services, project));
  }

  lemma {:induction false} GroupedStatuses(checks: seq<Check>, results: seq<CheckResult>, services: seq<Service>)
    ensures Statuses(Reports(checks, results, services)) == AggregateEach(StatusGroups(checks, results, services))
  {
    if services == [] {
    } else {
      GroupedStatuses(checks, results, services[1..]);
    }
  }

  // What the reports say, whatever computes them.

  /** Some enabled check's latest result has this status. */
  ghost predicate Shows(healths: seq<CheckHealth>, s: HealthStatus) {
    exists h :: h in healths && h.check.enabled && h.latestResult.Some? && h.latestResult.value.status == s
  }

  /** Some enabled check has no result yet. */
  ghost predicate AnySilent(healths: seq<CheckHealth>) {
    exists h :: h in healths && h.check.enabled && h.latestResult.None?
  }

  ghost predicate AnyEnabled(healths: seq<CheckHealth>) {
    exists h :: h in healths && h.check.enabled
  }

  /**
   The status of a service: Unhealthy if an enabled check is, else Degraded if one is, else
   Unknown if none is enabled, one is unknown or one has no result; Healthy if there are enabled
   checks and the latest result of each is healthy.
   */
  ghost predicate StatusFollows(status: HealthStatus, healths: seq<CheckHealth>) {
    && (status == Unhealthy <==> Shows(healths, Unhealthy))
    && (status == Degraded <==> Shows(healths, Degraded) && !Shows(healths, Unhealthy))
    && (status == Unknown <==>
          || !AnyEnabled(healths)
          || ((AnySilent(healths) || Shows(healths, Unknown))
              && !Shows(healths, Degraded) && !Shows(healths, Unhealthy)))
    && (status == Healthy <==>
          && AnyEnabled(healths)
          && forall h :: h in healths && h.check.enabled ==>
               h.latestResult.Some? && h.latestResult.value.status == Healthy)
  }

  lemma {:induction false} EnabledStatusesAre(healths: seq<CheckHealth>)
    ensures forall s ::
              s in EnabledStatuses(healths) <==> Shows(healths, s) || (s == Unknown && AnySilent(healths))
    ensures EnabledStatuses(healths) == [] <==> !AnyEnabled(healths)
  {
    if healths == [] {
    } else {
      EnabledStatusesAre(healths[1..]);
    }
  }

  lemma ServiceStatusRules(healths: seq<CheckHealth>)
    ensures StatusFollows(Aggregate(EnabledStatuses(healths)), healths)
  {
    EnabledStatusesAre(healths);
    var statuses := EnabledStatuses(healths);
    assert AnySilent(healths) ==> Unknown in statuses;
    forall h | h in healths && h.check.enabled && h.latestResult.Some?
      ensures h.latestResult.value.status in statuses
    {
      assert Shows(healths, h.latestResult.value.status);
    }
  }

  /**
   A concrete service whose enabled check without a result does not make it unknown,
   since another one is unhealthy.
   */
  lemma UnhealthyHidesUnknown(silent: Check, failing: Check, r: CheckResult)
    requires silent.enabled && failing.enabled && r.status == Unhealthy
    ensures var healths := [CheckHealth(silent, None, []), CheckHealth(failing, Some(r), [r])];
            AnySilent(healths) && Aggregate(EnabledStatuses(healths)) == Unhealthy
  {
    var healths := [CheckHealth(silent, None, []), CheckHealth(failing, Some(r), [r])];
    assert healths[0] in healths && healths[1] in healths;
    ServiceStatusRules(healths);
  }

  /** The status of a project over those of its services. */
  ghost predicate ProjectFollows(status: HealthStatus, services: seq<ServiceHealth>) {
    && (status == Unhealthy <==> exists h :: h in services && h.status == Unhealthy)
    && (status == Degraded <==>
          && (exists h :: h in services && h.status == Degraded)
          && forall h :: h in services ==> h.status != Unhealthy)
    && (status == Unknown <==>
          || services == []
          || ((exists h :: h in services && h.status == Unknown)
              && forall h :: h in services ==> h.status != Unhealthy && h.status != Degraded))
    && (status == Healthy <==> services != [] && forall h :: h in services ==> h.status == Healthy)
  }

  lemma {:induction false} StatusesAre(services: seq<ServiceHealth>)
    ensures forall s :: s in Statuses(services) <==> exists h :: h in services && h.status == s
    ensures Statuses(services) == [] <==> services == []
  {
    if services == [] {
    } else {
      StatusesAre(services[1..]);
    }
  }

  lemma ProjectStatusRules(services: seq<ServiceHealth>)
    ensures ProjectFollows(Aggregate(Statuses(services)), services)
  {
    StatusesAre(services);
    forall h | h in services ensures h.status in Statuses(services) {
    }
    if services != [] {
      assert services[0] in services;
    }
  }

  predicate IsOf(r: CheckResult, results: seq<CheckResult>, checkId: Uuid) {
    r in results && r.checkId == checkId
  }

  /** Stored for the check, and no other result stored for it is later, nor as late with a larger id. */
  ghost predicate IsNewest(r: CheckResult, results: seq<CheckResult>, checkId: Uuid) {
    && IsOf(r, results, checkId)
    && forall q :: IsOf(q, results, checkId) ==>
         !Earlier(r.checkedAt, q.checkedAt) && (r.checkedAt == q.checkedAt ==> q.id <= r.id)
  }

  /** A history: as many results of the check as asked for, if there are as many, the newest ones, newest first. */
  ghost predicate IsHistory(history: seq<CheckResult>, results: seq<CheckResult>, checkId: Uuid, limit: nat) {
    && |history| == (if limit <= |OfCheck(results, checkId)| then limit else |OfCheck(results, checkId)|)
    && (forall i :: 0 <= i < |history| ==> IsOf(history[i], results, checkId))
    && (forall i, j :: 0 <= i < j < |history| ==> !ResultPrecedes(history[j], history[i]))
    && (forall q, i :: IsOf(q, results, checkId) && 0 <= i < |history| && q !in history ==>
          !ResultPrecedes(q, history[i]))
  }

  ghost predicate DescribesCheck(h: CheckHealth, results: seq<CheckResult>, limit: nat) {
    && (h.latestResult.None? <==> forall q :: q in results ==> q.checkId != h.check.id)
    && (h.latestResult.Some? ==> IsNewest(h.latestResult.value, results, h.check.id))
    && IsHistory(h.recentHistory, results, h.check.id, limit)
  }

  function Checks(healths: seq<CheckHealth>): seq<Check> {
    Map((h: CheckHealth) => h.check, healths)
  }

  /** A report on a service: its checks in the store, oldest first, each with its newest result and history. */
  ghost predicate Describes(report: ServiceHealth, checks: seq<Check>, results: seq<CheckResult>, limit: nat) {
    && StatusFollows(report.status, report.checks)
    && (forall c :: (exists h :: h in report.checks && h.check == c)
                <==> c in checks && c.serviceId == report.service.id)
    && OldestFirst(Checks(report.checks))
    && (forall h :: h in report.checks ==> DescribesCheck(h, results, limit))
  }

  lemma ChronologicalIs(results: seq<CheckResult>, checkId: Uuid)
    ensures var sorted := Chronological(results, checkId);
            && |sorted| == |OfCheck(results, checkId)| && Sorted(ResultPrecedes, sorted)
            && forall r :: r in sorted <==> IsOf(r, results, checkId)
  {
    var mine, sorted := OfCheck(results, checkId), Chronological(results, checkId);
    ResultOrderIsWeak();
    SortSorts(ResultPrecedes, mine);
    SortKeepsElements(ResultPrecedes, mine);
    OfCheckKeeps(results, checkId);
    forall r ensures r in sorted <==> IsOf(r, results, checkId) {
      assert r in multiset(sorted) <==> r in multiset(mine);
    }
  }

  lemma FirstIsNewest(sorted: seq<CheckResult>, results: seq<CheckResult>, checkId: Uuid)
    requires sorted != [] && Sorted(ResultPrecedes, sorted)
    requires forall r :: r in sorted <==> IsOf(r, results, checkId)
    ensures IsNewest(sorted[0], results, checkId)
  {
    forall q | IsOf(q, results, checkId) ensures q == sorted[0] || !ResultPrecedes(q, sorted[0]) {
      var i :| 0 <= i < |sorted| && sorted[i] == q;
    }
  }

  lemma TakeIsHistory(sorted: seq<CheckResult>, results: seq<CheckResult>, checkId: Uuid, limit: nat)
    requires |sorted| == |OfCheck(results, checkId)| && Sorted(ResultPrecedes, sorted)
    requires forall r :: r in sorted <==> IsOf(r, results, checkId)
    ensures IsHistory(Take(sorted, limit), results, checkId, limit)
  {
    var history := Take(sorted, limit);
    assert forall i :: 0 <= i < |history| ==> sorted[i] == history[i] && history[i] in history;
    forall i | 0 <= i < |history| ensures IsOf(history[i], results, checkId) {
      assert sorted[i] in sorted;
    }
    forall q, i | IsOf(q, results, checkId) && 0 <= i < |history| && q !in history
      ensures !ResultPrecedes(q, history[i])
    {
      var j :| 0 <= j < |sorted| && sorted[j] == q;
    }
  }

  lemma HealthIsDescribed(results: seq<CheckResult>, check: Check, limit: nat)
    ensures DescribesCheck(HealthOf(results, check, limit), results, limit)
  {
    var sorted := Chronological(results, check.id);
    ChronologicalIs(results, check.id);
    TakeIsHistory(sorted, results, check.id, limit);
    if sorted != [] {
      FirstIsNewest(sorted, results, check.id);
    } else {
      forall q | q in results ensures q.checkId != check.id {
        assert IsOf(q, results, check.id) ==> q in sorted;
      }
    }
  }

  lemma {:induction false} HealthOfAllAt(results: seq<CheckResult>, checks: seq<Check>, limit: nat)
    ensures var healths := HealthOfAll(results, checks, limit);
            |healths| == |checks| && forall i :: 0 <= i < |checks| ==> healths[i] == HealthOf(results, checks[i], limit)
  {
    if checks == [] {
    } else {
      HealthOfAllAt(results, checks[1..], limit);
    }
  }

  /** The report that the program computes is such a report. */
  lemma ReportDescribes(checks: seq<Check>, results: seq<CheckResult>, service: Service, limit: nat)
    requires DistinctCheckIds(checks)
    ensures Describes(ServiceReport(checks, results, service, limit), checks, results, limit)
  {
    var listed := SortBy(CheckPrecedes, OfService(checks, service.id));
    var healths := HealthOfAll(results, listed, limit);
    OfServiceKeeps(checks, service.id);
    OfServiceDistinct(checks, service.id);
    SortedChecks(OfService(checks, service.id));
    HealthOfAllAt(results, listed, limit);
    ServiceStatusRules(healths);
    forall h | h in healths ensures DescribesCheck(h, results, limit) {
      var i :| 0 <= i < |healths| && healths[i] == h;
      HealthIsDescribed(results, listed[i], limit);
    }
    HealthsOfListed(healths, listed);
    assert Checks(healths) == listed;
  }

  lemma AnswerDescribes(services: seq<Service>, checks: seq<Check>, results: seq<CheckResult>, id: Uuid, limit: nat)
    requires DistinctCheckIds(checks)
    ensures var r := ServiceAnswer(services, checks, results, id, limit);
            r.Success? ==> Describes(r.value, checks, results, limit)
  {
    if FindService(services, id).Some? {
      ReportDescribes(checks, results, FindService(services, id).value, limit);
    }
  }

  lemma HealthsOfListed(healths: seq<CheckHealth>, listed: seq<Check>)
    requires |healths| == |listed| && forall i :: 0 <= i < |listed| ==> healths[i].check == listed[i]
    ensures forall c :: (exists h :: h in healths && h.check == c) <==> c in listed
  {
    forall c | c in listed ensures exists h :: h in healths && h.check == c {
      var i :| 0 <= i < |listed| && listed[i] == c;
      assert healths[i] in healths;
    }
  }

  /** Exactly the services of the project are listed, in their order. */
  lemma {:induction false} ServicesOfKeeps(services: seq<Service>, project: Uuid)
    ensures forall s :: s in ServicesOf(services, project) <==> s in services && s.projectId == project
  {
    if services == [] {
    } else {
      ServicesOfKeeps(services[1..], project);
    }
  }

  lemma {:induction false} ServicesOfSnoc(services: seq<Service>, s: Service, project: Uuid)
    ensures ServicesOf(services + [s], project)
         == ServicesOf(services, project) + if s.projectId == project then [s] else []
  {
    if services == [] {
      assert [] + [s] == [s] && ServicesOf([s][1..], project) == [];
    } else {
      var longer := services + [s];
      assert longer[0] == services[0] && longer[1..] == services[1..] + [s];
      ServicesOfSnoc(services[1..], s, project);
      var head := if services[0].projectId == project then [services[0]] else [];
      var last := if s.projectId == project then [s] else [];
      assert head + (ServicesOf(services[1..], project) + last) == (head + ServicesOf(services[1..], project)) + last;
    }
  }

  /** A summary: a report on each service of the project and on no other, and the status over them. */
  ghost predicate Summarizes(summary: ProjectSummary, services: seq<Service>, checks: seq<Check>,
                             results: seq<CheckResult>) {
    && ProjectFollows(summary.status, summary.services)
    && (forall s :: (exists h :: h in summary.services && h.service == s)
                <==> s in services && s.projectId == summary.project)
    && (forall h :: h in summary.services ==> Describes(h, checks, results, 0))
  }

  lemma {:induction false} ReportsAt(checks: seq<Check>, results: seq<CheckResult>, services: seq<Service>)
    ensures var reports := Reports(checks, results, services);
            && |reports| == |services|
            && forall i :: 0 <= i < |services| ==> reports[i] == ServiceReport(checks, results, services[i], 0)
  {
    if services == [] {
    } else {
      ReportsAt(checks, results, services[1..]);
    }
  }

  lemma ReportsDescribe(checks: seq<Check>, results: seq<CheckResult>, services: seq<Service>)
    requires DistinctCheckIds(checks)
    ensures var reports := Reports(checks, results, services);
            && (forall s :: (exists h :: h in reports && h.service == s) <==> s in services)
            && (forall h :: h in reports ==> Describes(h, checks, results, 0))
  {
    var reports := Reports(checks, results, services);
    ReportsAt(checks, results, services);
    forall h | h in reports ensures h.service in services && Describes(h, checks, results, 0) {
      var i :| 0 <= i < |reports| && reports[i] == h;
      ReportDescribes(checks, results, services[i], 0);
    }
    forall s | s in services ensures exists h :: h in reports && h.service == s {
      var i :| 0 <= i < |services| && services[i] == s;
      assert reports[i] in reports;
    }
  }

  lemma SummarySummarizes(projects: set<Uuid>, services: seq<Service>, checks: seq<Check>, results: seq<CheckResult>,
                          project: Uuid)
    requires StorableChecks(checks) && AllValid(checks) && DistinctCheckIds(checks) && Storable(results)
    requires project in projects
    ensures var r := ReportProject(projects, services, CheckRows(checks), Rows(results), project);
            r.Success? && r.value.project == project && Summarizes(r.value, services, checks, results)
  {
    var listed := ServicesOf(services, project);
    ServicesReadBack(checks, results, listed);
    ReportsDescribe(checks, results, listed);
    ServicesOfKeeps(services, project);
    ProjectStatusRules(Reports(checks, results, listed));
  }
}
