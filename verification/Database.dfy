/** The tables behind the repositories: rows as text and integers, and the domain values they stand for. */
module Databases {
  import opened Wrappers
  import opened Domain
  import opened Rfc3339
  import opened Text
  import opened UuidText
  import opened Mapping
  import opened Ordering
  import opened Results

  datatype Service = Service(id: Uuid, projectId: Uuid)

  predicate StorableCheck(c: Check) {
    c.intervalSeconds < I64_LIMIT && c.timeoutMs < I64_LIMIT
  }

  predicate StorableChecks(checks: seq<Check>) {
    forall i :: 0 <= i < |checks| ==> StorableCheck(checks[i])
  }

  function CheckRowOf(c: Check): CheckRow
    requires StorableCheck(c)
  {
    CheckToRow(c).value
  }

  function CheckRows(checks: seq<Check>): seq<CheckRow>
    requires StorableChecks(checks)
  {
    Map(CheckRowOf, checks)
  }

  ghost predicate DistinctCheckIds(checks: seq<Check>) {
    forall i, j :: 0 <= i < j < |checks| ==> checks[i].id != checks[j].id
  }

  ghost predicate AllValid(checks: seq<Check>) {
    forall i :: 0 <= i < |checks| ==> ValidCheck(checks[i])
  }

  // Queries on rows, and what they mean.

  function FindRow(rows: seq<CheckRow>, id: string): Option<CheckRow> {
    if rows == [] then None else if rows[0].id == id then Some(rows[0]) else FindRow(rows[1..], id)
  }

  function FindCheck(checks: seq<Check>, id: Uuid): Option<Check> {
    if checks == [] then None else if checks[0].id == id then Some(checks[0]) else FindCheck(checks[1..], id)
  }

  function GetById(rows: seq<CheckRow>, id: Uuid): Result<Option<Check>, PersistenceError> {
    match FindRow(rows, UuidToDb(id))
    case None => Success(None)
    case Some(row) =>
      var check :- CheckFromRow(row);
      Success(Some(check))
  }

  function EnabledRows(rows: seq<CheckRow>): seq<CheckRow> {
    if rows == [] then [] else (if rows[0].enabled == 1 then [rows[0]] else []) + EnabledRows(rows[1..])
  }

  function EnabledOf(checks: seq<Check>): seq<Check> {
    if checks == [] then [] else (if checks[0].enabled then [checks[0]] else []) + EnabledOf(checks[1..])
  }

  function RowsOfService(rows: seq<CheckRow>, serviceId: string): seq<CheckRow> {
    if rows == [] then []
    else (if rows[0].serviceId == serviceId then [rows[0]] else []) + RowsOfService(rows[1..], serviceId)
  }

  function OfService(checks: seq<Check>, serviceId: Uuid): seq<Check> {
    if checks == [] then []
    else (if checks[0].serviceId == serviceId then [checks[0]] else []) + OfService(checks[1..], serviceId)
  }

  /** ORDER BY created_at, id, on the stored text. */
  predicate CheckRowPrecedes(a: CheckRow, b: CheckRow) {
    TextLess(a.createdAt, b.createdAt) || (a.createdAt == b.createdAt && TextLess(a.id, b.id))
  }

  predicate CheckPrecedes(a: Check, b: Check) {
    Earlier(a.createdAt, b.createdAt) || (a.createdAt == b.createdAt && a.id < b.id)
  }

  function ListEnabled(rows: seq<CheckRow>): Result<seq<Check>, PersistenceError> {
    DecodeAll(CheckFromRow, SortBy(CheckRowPrecedes, EnabledRows(rows)))
  }

  function ListForService(rows: seq<CheckRow>, serviceId: Uuid): Result<seq<Check>, PersistenceError> {
    DecodeAll(CheckFromRow, SortBy(CheckRowPrecedes, RowsOfService(rows, UuidToDb(serviceId))))
  }

  function SetRowEnabled(rows: seq<CheckRow>, id: string, enabled: bool): seq<CheckRow> {
    if rows == [] then []
    else [if rows[0].id == id then rows[0].(enabled := if enabled then 1 else 0) else rows[0]]
         + SetRowEnabled(rows[1..], id, enabled)
  }

  function SetEnabled(checks: seq<Check>, id: Uuid, enabled: bool): seq<Check> {
    if checks == [] then []
    else [if checks[0].id == id then checks[0].(enabled := enabled) else checks[0]]
         + SetEnabled(checks[1..], id, enabled)
  }

  lemma MapTail<T, U>(f: T --> U, xs: seq<T>)
    requires xs != [] && forall i :: 0 <= i < |xs| ==> f.requires(xs[i])
    ensures Map(f, xs) == [f(xs[0])] + Map(f, xs[1..])
  {
  }

  lemma {:induction false} FindCommutes(checks: seq<Check>, id: Uuid)
    requires StorableChecks(checks)
    ensures match FindCheck(checks, id)
            case None => FindRow(CheckRows(checks), UuidToDb(id)) == None
            case Some(c) => c in checks && c.id == id && FindRow(CheckRows(checks), UuidToDb(id)) == Some(CheckRowOf(c))
    ensures FindCheck(checks, id).None? <==> forall c :: c in checks ==> c.id != id
  {
    if checks == [] {
    } else {
      MapTail(CheckRowOf, checks);
      UuidTextIsInjective(checks[0].id, id);
      FindCommutes(checks[1..], id);
      assert CheckRows(checks)[1..] == CheckRows(checks[1..]);
    }
  }

  /** Reading a check by id gives the stored one back. */
  lemma GetReadsBack(checks: seq<Check>, id: Uuid)
    requires StorableChecks(checks) && AllValid(checks)
    ensures GetById(CheckRows(checks), id) == Success(FindCheck(checks, id))
  {
    FindCommutes(checks, id);
    match FindCheck(checks, id) {
      case None =>
      case Some(c) => CheckRoundTrip(c);
    }
  }

  lemma {:induction false} EnabledCommutes(checks: seq<Check>)
    requires StorableChecks(checks)
    ensures forall c :: c in EnabledOf(checks) <==> c in checks && c.enabled
    ensures StorableChecks(EnabledOf(checks)) && EnabledRows(CheckRows(checks)) == CheckRows(EnabledOf(checks))
  {
    if checks == [] {
    } else {
      MapTail(CheckRowOf, checks);
      EnabledCommutes(checks[1..]);
      assert CheckRows(checks)[1..] == CheckRows(checks[1..]);
      assert CheckRowOf(checks[0]).enabled == 1 <==> checks[0].enabled;
    }
  }

  /** The rows that a reload selects, whoever wrote them. */
  lemma {:induction false} EnabledRowsKeep(rows: seq<CheckRow>)
    ensures forall row :: row in EnabledRows(rows) <==> row in rows && row.enabled == 1
  {
    if rows == [] {
    } else {
      EnabledRowsKeep(rows[1..]);
    }
  }

  lemma {:induction false} OfServiceKeeps(checks: seq<Check>, serviceId: Uuid)
    ensures forall c :: c in OfService(checks, serviceId) <==> c in checks && c.serviceId == serviceId
  {
    if checks == [] {
    } else {
      OfServiceKeeps(checks[1..], serviceId);
    }
  }

  lemma PrependCheckRow(c: Check, checks: seq<Check>)
    requires StorableChecks(checks) && StorableCheck(c)
    ensures StorableChecks([c] + checks) && CheckRows([c] + checks) == [CheckRowOf(c)] + CheckRows(checks)
  {
    assert ([c] + checks)[1..] == checks;
  }

  lemma {:induction false} ServiceCommutes(checks: seq<Check>, serviceId: Uuid)
    requires StorableChecks(checks)
    ensures StorableChecks(OfService(checks, serviceId))
    ensures RowsOfService(CheckRows(checks), UuidToDb(serviceId)) == CheckRows(OfService(checks, serviceId))
  {
    if checks == [] {
    } else {
      MapTail(CheckRowOf, checks);
      UuidTextIsInjective(checks[0].serviceId, serviceId);
      ServiceCommutes(checks[1..], serviceId);
      PrependCheckRow(checks[0], OfService(checks[1..], serviceId));
      assert CheckRows(checks)[1..] == CheckRows(checks[1..]);
    }
  }

  lemma CheckRowOrder(a: Check, b: Check)
    requires StorableCheck(a) && StorableCheck(b)
    ensures CheckRowPrecedes(CheckRowOf(a), CheckRowOf(b)) <==> CheckPrecedes(a, b)
  {
    TimestampTextKeepsOrder(a.createdAt, b.createdAt);
    UuidTextKeepsOrder(a.id, b.id);
    TimestampParsesBack(a.createdAt);
    TimestampParsesBack(b.createdAt);
  }

  lemma SortedRowsDecode(checks: seq<Check>)
    requires StorableChecks(checks) && AllValid(checks)
    ensures DecodeAll(CheckFromRow, SortBy(CheckRowPrecedes, CheckRows(checks)))
         == Success(SortBy(CheckPrecedes, checks))
  {
    forall a, b | a in checks && b in checks
      ensures CheckRowPrecedes(CheckRowOf(a), CheckRowOf(b)) <==> CheckPrecedes(a, b)
    {
      CheckRowOrder(a, b);
    }
    SortMap(CheckRowOf, CheckPrecedes, CheckRowPrecedes, checks);
    var sorted := SortBy(CheckPrecedes, checks);
    SortKeepsElements(CheckPrecedes, checks);
    forall i | 0 <= i < |sorted| ensures CheckFromRow(CheckRowOf(sorted[i])) == Success(sorted[i]) {
      assert sorted[i] in multiset(checks);
      assert sorted[i] in checks;
      CheckRoundTrip(sorted[i]);
    }
    DecodeMap(CheckRowOf, CheckFromRow, sorted);
  }

  /** Reloading returns exactly the enabled checks, without error, oldest first. */
  lemma ListEnabledReads(checks: seq<Check>)
    requires StorableChecks(checks) && AllValid(checks)
    ensures ListEnabled(CheckRows(checks)) == Success(SortBy(CheckPrecedes, EnabledOf(checks)))
  {
    EnabledCommutes(checks);
    SortedRowsDecode(EnabledOf(checks));
  }

  lemma ListForServiceReads(checks: seq<Check>, serviceId: Uuid)
    requires StorableChecks(checks) && AllValid(checks)
    ensures ListForService(CheckRows(checks), serviceId) == Success(SortBy(CheckPrecedes, OfService(checks, serviceId)))
  {
    OfServiceKeeps(checks, serviceId);
    ServiceCommutes(checks, serviceId);
    SortedRowsDecode(OfService(checks, serviceId));
  }

  lemma {:induction false} EnabledDistinct(checks: seq<Check>)
    requires DistinctCheckIds(checks) && StorableChecks(checks)
    ensures DistinctCheckIds(EnabledOf(checks))
  {
    if checks == [] {
    } else {
      EnabledDistinct(checks[1..]);
      EnabledCommutes(checks[1..]);
    }
  }

  lemma {:induction false} OccursOnce(checks: seq<Check>, c: Check)
    requires DistinctCheckIds(checks)
    ensures multiset(checks)[c] <= 1
  {
    if checks == [] {
    } else {
      assert checks == [checks[0]] + checks[1..];
      OccursOnce(checks[1..], c);
      if c == checks[0] {
        assert c !in checks[1..];
        assert c !in multiset(checks[1..]);
      }
    }
  }

  lemma OccursTwice(checks: seq<Check>, i: nat, j: nat)
    requires i < j < |checks| && checks[i] == checks[j]
    ensures multiset(checks)[checks[i]] >= 2
  {
    assert checks == checks[..j] + [checks[j]] + checks[j + 1..];
    assert checks[i] in checks[..j];
  }

  lemma DistinctPermutation(a: seq<Check>, b: seq<Check>)
    requires DistinctCheckIds(a) && multiset(a) == multiset(b)
    ensures DistinctCheckIds(b)
  {
    forall i, j | 0 <= i < j < |b| ensures b[i].id != b[j].id {
      assert b[i] in multiset(b) && b[j] in multiset(b);
      assert b[i] in a && b[j] in a;
      if b[i] == b[j] {
        OccursTwice(b, i, j);
        OccursOnce(a, b[i]);
      }
    }
  }

  lemma {:induction false} OfServiceDistinct(checks: seq<Check>, serviceId: Uuid)
    requires DistinctCheckIds(checks)
    ensures DistinctCheckIds(OfService(checks, serviceId))
  {
    if checks == [] {
    } else {
      OfServiceDistinct(checks[1..], serviceId);
      OfServiceKeeps(checks[1..], serviceId);
    }
  }

  lemma CheckOrderIsWeak()
    ensures WeakOrder(CheckPrecedes)
  {
    forall a, b | CheckPrecedes(a, b) ensures !CheckPrecedes(b, a) {
      EarlierIsTotalOrder(a.createdAt, b.createdAt, b.createdAt);
    }
    forall a, b, c | CheckPrecedes(a, c) ensures CheckPrecedes(a, b) || CheckPrecedes(b, c) {
      EarlierIsTotalOrder(a.createdAt, b.createdAt, c.createdAt);
      EarlierIsTotalOrder(b.createdAt, a.createdAt, c.createdAt);
      EarlierIsTotalOrder(a.createdAt, c.createdAt, b.createdAt);
    }
  }

  /** Created earlier, or at the same time with a smaller id; so no check is listed twice. */
  ghost predicate OldestFirst(listed: seq<Check>) {
    forall i, j :: 0 <= i < j < |listed| ==>
      || Earlier(listed[i].createdAt, listed[j].createdAt)
      || (listed[i].createdAt == listed[j].createdAt && listed[i].id < listed[j].id)
  }

  lemma SortedChecks(mine: seq<Check>)
    requires DistinctCheckIds(mine)
    ensures var listed := SortBy(CheckPrecedes, mine);
            OldestFirst(listed) && forall c :: c in listed <==> c in mine
  {
    var listed := SortBy(CheckPrecedes, mine);
    CheckOrderIsWeak();
    SortSorts(CheckPrecedes, mine);
    SortKeepsElements(CheckPrecedes, mine);
    DistinctPermutation(mine, listed);
    forall c ensures c in listed <==> c in mine {
      assert c in multiset(listed) <==> c in multiset(mine);
    }
    forall i, j | 0 <= i < j < |listed|
      ensures || Earlier(listed[i].createdAt, listed[j].createdAt)
              || (listed[i].createdAt == listed[j].createdAt && listed[i].id < listed[j].id)
    {
      assert listed[i].id != listed[j].id && !CheckPrecedes(listed[j], listed[i]);
      EarlierIsTotalOrder(listed[i].createdAt, listed[j].createdAt, listed[i].createdAt);
    }
  }

  /** What a reload lists: the enabled checks, each once, oldest first. */
  lemma EnabledOldestFirst(checks: seq<Check>)
    requires StorableChecks(checks) && AllValid(checks) && DistinctCheckIds(checks)
    ensures var r := ListEnabled(CheckRows(checks));
            && r.Success? && OldestFirst(r.value)
            && forall c :: c in r.value <==> c in checks && c.enabled
  {
    EnabledCommutes(checks);
    ListEnabledReads(checks);
    EnabledDistinct(checks);
    SortedChecks(EnabledOf(checks));
  }

  lemma ServiceOldestFirst(checks: seq<Check>, serviceId: Uuid)
    requires StorableChecks(checks) && AllValid(checks) && DistinctCheckIds(checks)
    ensures var r := ListForService(CheckRows(checks), serviceId);
            && r.Success? && OldestFirst(r.value)
            && forall c :: c in r.value <==> c in checks && c.serviceId == serviceId
  {
    OfServiceKeeps(checks, serviceId);
    ListForServiceReads(checks, serviceId);
    OfServiceDistinct(checks, serviceId);
    SortedChecks(OfService(checks, serviceId));
  }

  lemma {:induction false} SetEnabledAt(checks: seq<Check>, id: Uuid, enabled: bool)
    ensures var after := SetEnabled(checks, id, enabled);
            && |after| == |checks|
            && forall i :: 0 <= i < |checks| ==>
                 after[i] == if checks[i].id == id then checks[i].(enabled := enabled) else checks[i]
  {
    if checks == [] {
    } else {
      SetEnabledAt(checks[1..], id, enabled);
    }
  }

  lemma {:induction false} SetRowEnabledAt(rows: seq<CheckRow>, id: string, enabled: bool)
    ensures var after := SetRowEnabled(rows, id, enabled);
            && |after| == |rows|
            && forall i :: 0 <= i < |rows| ==>
                 after[i] == if rows[i].id == id then rows[i].(enabled := if enabled then 1 else 0) else rows[i]
  {
    if rows == [] {
    } else {
      SetRowEnabledAt(rows[1..], id, enabled);
    }
  }

  lemma SetOneRow(c: Check, id: Uuid, enabled: bool)
    requires StorableCheck(c)
    ensures CheckRowOf(c).id == UuidToDb(id) <==> c.id == id
    ensures CheckRowOf(c.(enabled := enabled)) == CheckRowOf(c).(enabled := if enabled then 1 else 0)
  {
    UuidTextIsInjective(c.id, id);
  }

  /** Updating the rows whose text id matches is updating the checks with that id. */
  lemma SetEnabledCommutes(checks: seq<Check>, id: Uuid, enabled: bool)
    requires StorableChecks(checks)
    ensures StorableChecks(SetEnabled(checks, id, enabled))
    ensures SetRowEnabled(CheckRows(checks), UuidToDb(id), enabled) == CheckRows(SetEnabled(checks, id, enabled))
  {
    SetEnabledAt(checks, id, enabled);
    SetRowEnabledAt(CheckRows(checks), UuidToDb(id), enabled);
    forall i | 0 <= i < |checks| ensures SetRowEnabled(CheckRows(checks), UuidToDb(id), enabled)[i]
                                      == CheckRowOf(SetEnabled(checks, id, enabled)[i]) {
      SetOneRow(checks[i], id, enabled);
    }
  }

  // The tables as they change.

  /** What keeps a check out of its table: the mapping first, then the schema's constraints. */
  ghost function InsertCheckError(services: seq<Service>, checks: seq<Check>, c: Check): Option<PersistenceError> {
    if CheckToRow(c).Failure? then Some(CheckToRow(c).error)
    else if || !(100 <= c.kind.expectedStatus <= 599) || c.intervalSeconds == 0 || c.timeoutMs == 0
            || (exists d :: d in checks && d.id == c.id) || !(exists s :: s in services && s.id == c.serviceId)
    then Some(ConstraintViolation)
    else None
  }

  ghost function InsertResultError(checks: seq<Check>, results: seq<CheckResult>, r: CheckResult)
    : Option<PersistenceError>
  {
    if ResultToRow(r).Failure? then Some(ResultToRow(r).error)
    else if (exists q :: q in results && q.id == r.id) || !(exists c :: c in checks && c.id == r.checkId)
    then Some(ConstraintViolation)
    else None
  }

  /**
   How a write ends: the mapping speaks before the statement is sent; a database that fails
   to carry the statement out does not come to its constraints.
   */
  function StatementError(refusal: Option<PersistenceError>, fails: bool): (error: Option<PersistenceError>)
    ensures error.None? <==> refusal.None? && !fails
  {
    if fails && (refusal.None? || refusal.value.ConstraintViolation?) then Some(DatabaseFailure) else refusal
  }

  /** The schema's constraints on the checks table, as the database evaluates them on the row. */
  predicate ViolatesChecks(services: seq<Service>, rows: seq<CheckRow>, row: CheckRow) {
    || !(100 <= row.expectedStatus <= 599) || row.intervalSeconds <= 0 || row.timeoutMs <= 0
    || row.kind != "HTTP" || (row.enabled != 0 && row.enabled != 1)
    || (exists i :: 0 <= i < |rows| && rows[i].id == row.id)
    || !(exists i :: 0 <= i < |services| && UuidToDb(services[i].id) == row.serviceId)
  }

  predicate ViolatesResults(checkRows: seq<CheckRow>, rows: seq<ResultRow>, row: ResultRow) {
    || row.status !in ["HEALTHY", "DEGRADED", "UNHEALTHY", "UNKNOWN"] || row.durationMs < 0
    || (exists i :: 0 <= i < |rows| && rows[i].id == row.id)
    || !(exists i :: 0 <= i < |checkRows| && checkRows[i].id == row.checkId)
  }

  lemma CheckConstraintsAgree(services: seq<Service>, checks: seq<Check>, c: Check)
    requires StorableChecks(checks) && StorableCheck(c)
    ensures ViolatesChecks(services, CheckRows(checks), CheckRowOf(c)) <==> InsertCheckError(services, checks, c).Some?
  {
    TextIdsAreIds(checks, c.id);
    ServiceTextIsId(services, c.serviceId);
    CheckRoundTrip(c);
  }

  lemma ResultConstraintsAgree(checks: seq<Check>, results: seq<CheckResult>, r: CheckResult)
    requires StorableChecks(checks) && Storable(results) && r.durationMs < I64_LIMIT
    ensures ViolatesResults(CheckRows(checks), Rows(results), RowOf(r)) <==> InsertResultError(checks, results, r).Some?
  {
    TextIdsAreIds(checks, r.checkId);
    ResultTextIdsAreIds(results, r.id);
    ResultRowFields(r);
  }

  /**
   A check that the constructors have built is refused only for its size, for an id that is
   taken, or for a service that does not exist.
   */
  lemma ValidChecksAreTaken(services: seq<Service>, checks: seq<Check>, c: Check)
    requires ValidCheck(c)
    ensures var fits := c.intervalSeconds < 9_223_372_036_854_775_808 && c.timeoutMs < 9_223_372_036_854_775_808;
            var taken := exists d :: d in checks && d.id == c.id;
            var known := exists s :: s in services && s.id == c.serviceId;
            var error := InsertCheckError(services, checks, c);
            && (error.None? <==> fits && !taken && known)
            && (error == Some(ConstraintViolation) <==> fits && (taken || !known))
  {
  }

  /** Likewise a result: for its duration, for an id that is taken, or for a check that does not exist. */
  lemma ResultsAreTaken(checks: seq<Check>, results: seq<CheckResult>, r: CheckResult)
    ensures var fits := r.durationMs < 9_223_372_036_854_775_808;
            var taken := exists q :: q in results && q.id == r.id;
            var known := exists c :: c in checks && c.id == r.checkId;
            var error := InsertResultError(checks, results, r);
            && (error.None? <==> fits && !taken && known)
            && (error == Some(ConstraintViolation) <==> fits && (taken || !known))
  {
  }

  lemma InRange(services: seq<Service>, rows: seq<CheckRow>, row: CheckRow)
    requires !ViolatesChecks(services, rows, row)
    ensures row.kind == "HTTP" && 100 <= row.expectedStatus <= 599 && row.intervalSeconds > 0 && row.timeoutMs > 0
    ensures row.enabled == 0 || row.enabled == 1
  {
  }

  /**
   Whoever wrote a row that the constraints let through: as a check it can fail to be read
   only for its texts, and the flag that a reload selects by is the flag that is read.
   */
  lemma ConstrainedChecksRead(services: seq<Service>, rows: seq<CheckRow>, row: CheckRow)
    requires !ViolatesChecks(services, rows, row)
    requires ParseUuid(row.id).Some? && ParseUuid(row.serviceId).Some? && ParseTimestamp(row.createdAt).Some?
    requires !(forall i :: 0 <= i < |row.url| ==> row.url[i] as int in WHITESPACE)
    ensures CheckFromRow(row).Success? && (CheckFromRow(row).value.enabled <==> row.enabled == 1)
  {
    InRange(services, rows, row);
    ReadableChecks(row);
    EnabledIsRead(row);
  }

  lemma ConstrainedResultsRead(checkRows: seq<CheckRow>, rows: seq<ResultRow>, row: ResultRow)
    requires !ViolatesResults(checkRows, rows, row)
    requires ParseUuid(row.id).Some? && ParseUuid(row.checkId).Some? && ParseTimestamp(row.checkedAt).Some?
    ensures ResultFromRow(row).Success?
  {
    StatusTexts(Healthy, row.status);
    StatusTexts(Degraded, row.status);
    StatusTexts(Unhealthy, row.status);
    StatusTexts(Unknown, row.status);
    ReadableResults(row);
  }

  lemma ResultRowFields(r: CheckResult)
    requires r.durationMs < I64_LIMIT
    ensures var row := RowOf(r);
            && row.id == UuidToDb(r.id) && row.checkId == UuidToDb(r.checkId) && row.durationMs == r.durationMs
            && row.status in ["HEALTHY", "DEGRADED", "UNHEALTHY", "UNKNOWN"]
  {
    match r.status {
      case Healthy => assert RowOf(r).status == ["HEALTHY", "DEGRADED", "UNHEALTHY", "UNKNOWN"][0];
      case Degraded => assert RowOf(r).status == ["HEALTHY", "DEGRADED", "UNHEALTHY", "UNKNOWN"][1];
      case Unhealthy => assert RowOf(r).status == ["HEALTHY", "DEGRADED", "UNHEALTHY", "UNKNOWN"][2];
      case Unknown => assert RowOf(r).status == ["HEALTHY", "DEGRADED", "UNHEALTHY", "UNKNOWN"][3];
    }
  }

  lemma AppendCheckRow(checks: seq<Check>, c: Check)
    requires StorableChecks(checks) && StorableCheck(c)
    ensures StorableChecks(checks + [c]) && CheckRows(checks + [c]) == CheckRows(checks) + [CheckRowOf(c)]
  {
    MapSnoc(CheckRowOf, checks, c);
  }

  lemma InsertedFits(services: seq<Service>, checks: seq<Check>, c: Check)
    requires InsertCheckError(services, checks, c).None?
    ensures StorableCheck(c) && forall d :: d in checks ==> d.id != c.id
  {
    CheckRoundTrip(c);
  }

  lemma AppendCheck(services: seq<Service>, checks: seq<Check>, c: Check)
    requires StorableChecks(checks) && DistinctCheckIds(checks) && InsertCheckError(services, checks, c).None?
    ensures StorableCheck(c) && StorableChecks(checks + [c]) && DistinctCheckIds(checks + [c])
    ensures CheckRows(checks + [c]) == CheckRows(checks) + [CheckRowOf(c)]
  {
    InsertedFits(services, checks, c);
    AppendCheckRow(checks, c);
    forall i | 0 <= i < |checks| ensures checks[i].id != c.id {
      assert checks[i] in checks;
    }
  }

  lemma AppendResult(checks: seq<Check>, results: seq<CheckResult>, r: CheckResult)
    requires Storable(results) && DistinctIds(results) && r.durationMs < I64_LIMIT
    requires InsertResultError(checks, results, r).None?
    ensures Storable(results + [r]) && DistinctIds(results + [r])
    ensures Rows(results + [r]) == Rows(results) + [RowOf(r)]
  {
    MapSnoc(RowOf, results, r);
    forall i | 0 <= i < |results| ensures results[i].id != r.id {
      assert results[i] in results;
    }
  }

  lemma UpdateKeepsIds(checks: seq<Check>, id: Uuid, enabled: bool)
    requires StorableChecks(checks) && DistinctCheckIds(checks)
    ensures DistinctCheckIds(SetEnabled(checks, id, enabled))
  {
    SetEnabledAt(checks, id, enabled);
  }

  class Database {
    var services: seq<Service>
    var checkRows: seq<CheckRow>
    var resultRows: seq<ResultRow>
    ghost var checks: seq<Check>
    ghost var results: seq<CheckResult>

    ghost predicate Valid()
      reads this
    {
      && StorableChecks(checks) && checkRows == CheckRows(checks) && DistinctCheckIds(checks)
      && Storable(results) && resultRows == Rows(results) && DistinctIds(results)
    }

    constructor (services: seq<Service>)
      ensures Valid() && this.services == services && checks == [] && results == []
    {
      this.services := services;
      checkRows, resultRows := [], [];
      checks, results := [], [];
    }

    /** Inserts a check, unless the mapping or a constraint refuses it or the database fails. */
    method InsertCheck(c: Check, fails: bool) returns (error: Option<PersistenceError>)
      requires Valid()
      modifies this`checkRows, this`checks
      ensures Valid() && error == StatementError(InsertCheckError(services, old(checks), c), fails)
      ensures checks == if error.None? then old(checks) + [c] else old(checks)
    {
      var row := CheckToRow(c);
      if row.Failure? {
        return Some(row.error);
      }
      CheckConstraintsAgree(services, checks, c);
      if fails {
        return Some(DatabaseFailure);
      }
      if ViolatesChecks(services, checkRows, row.value) {
        return Some(ConstraintViolation);
      }
      AppendCheck(services, checks, c);
      checkRows := checkRows + [row.value];
      checks := checks + [c];
      return None;
    }

    /** Inserts a result, unless the mapping or a constraint refuses it or the database fails. */
    method InsertResult(r: CheckResult, fails: bool) returns (error: Option<PersistenceError>)
      requires Valid()
      modifies this`resultRows, this`results
      ensures Valid() && error == StatementError(InsertResultError(checks, old(results), r), fails)
      ensures results == if error.None? then old(results) + [r] else old(results)
    {
      var row := ResultToRow(r);
      if row.Failure? {
        return Some(row.error);
      }
      ResultConstraintsAgree(checks, results, r);
      if fails {
        return Some(DatabaseFailure);
      }
      if ViolatesResults(checkRows, resultRows, row.value) {
        return Some(ConstraintViolation);
      }
      AppendResult(checks, results, r);
      resultRows := resultRows + [row.value];
      results := results + [r];
      return None;
    }

    method UpdateEnabled(id: Uuid, enabled: bool, fails: bool) returns (error: Option<PersistenceError>)
      requires Valid()
      modifies this`checkRows, this`checks
      ensures Valid() && error == StatementError(None, fails)
      ensures checks == if error.None? then SetEnabled(old(checks), id, enabled) else old(checks)
    {
      if fails {
        return Some(DatabaseFailure);
      }
      SetEnabledCommutes(checks, id, enabled);
      UpdateKeepsIds(checks, id, enabled);
      checkRows := SetRowEnabled(checkRows, UuidToDb(id), enabled);
      checks := SetEnabled(checks, id, enabled);
      return None;
    }
  }

  lemma TextIdsAreIds(checks: seq<Check>, id: Uuid)
    requires StorableChecks(checks)
    ensures (exists i :: 0 <= i < |checks| && CheckRows(checks)[i].id == UuidToDb(id))
       <==> (exists c :: c in checks && c.id == id)
  {
    forall i | 0 <= i < |checks| ensures CheckRows(checks)[i].id == UuidToDb(id) <==> checks[i].id == id {
      UuidTextIsInjective(checks[i].id, id);
    }
  }

  lemma ResultTextIdsAreIds(results: seq<CheckResult>, id: Uuid)
    requires Storable(results)
    ensures (exists i :: 0 <= i < |results| && Rows(results)[i].id == UuidToDb(id))
       <==> (exists r :: r in results && r.id == id)
  {
    forall i | 0 <= i < |results| ensures Rows(results)[i].id == UuidToDb(id) <==> results[i].id == id {
      UuidTextIsInjective(results[i].id, id);
    }
  }

  lemma ServiceTextIsId(services: seq<Service>, id: Uuid)
    ensures (exists i :: 0 <= i < |services| && UuidToDb(services[i].id) == UuidToDb(id))
       <==> (exists s :: s in services && s.id == id)
  {
    forall i | 0 <= i < |services| ensures UuidToDb(services[i].id) == UuidToDb(id) <==> services[i].id == id {
      UuidTextIsInjective(services[i].id, id);
    }
  }
}
