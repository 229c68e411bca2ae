/** The codecs between domain values and the columns of the database. */
module Mapping {
  import opened Wrappers
  import opened Domain
  import opened Rfc3339
  import opened UuidText

  const I64_LIMIT: int := 0x8000_0000_0000_0000

  type I64 = n: int | -I64_LIMIT <= n < I64_LIMIT

  datatype PersistenceError =
    | InvalidUuid(field: string, value: string)
    | InvalidTimestamp(field: string, value: string)
    | InvalidEnum(kind: string, value: string)
    | NumericOutOfRange(field: string, number: I64)
    | InvalidDomain(error: DomainError)
    | ConstraintViolation
    | DatabaseFailure

  datatype CheckRow = CheckRow(
    id: string,
    serviceId: string,
    kind: string,
    url: string,
    expectedStatus: I64,
    intervalSeconds: I64,
    timeoutMs: I64,
    enabled: I64,
    createdAt: string)

  datatype ResultRow = ResultRow(
    id: string,
    checkId: string,
    checkedAt: string,
    status: string,
    durationMs: I64,
    error: Option<string>)

  function UuidFromDb(field: string, value: string): Result<Uuid, PersistenceError> {
    match ParseUuid(value)
    case Some(uuid) => Success(uuid)
    case None => Failure(InvalidUuid(field, value))
  }

  function TimestampFromDb(field: string, value: string): Result<Timestamp, PersistenceError> {
    match ParseTimestamp(value)
    case Some(t) => Success(t)
    case None => Failure(InvalidTimestamp(field, value))
  }

  // Numbers and enums.

  function U64ToDb(value: U64, field: string): Result<I64, PersistenceError> {
    if value < I64_LIMIT then Success(value) else Failure(NumericOutOfRange(field, I64_LIMIT - 1))
  }

  function U64FromDb(field: string, value: I64): Result<U64, PersistenceError> {
    if value >= 0 then Success(value) else Failure(NumericOutOfRange(field, value))
  }

  function StatusToDb(status: HealthStatus): string {
    match status
    case Healthy => "HEALTHY"
    case Degraded => "DEGRADED"
    case Unhealthy => "UNHEALTHY"
    case Unknown => "UNKNOWN"
  }

  function StatusFromDb(value: string): Result<HealthStatus, PersistenceError> {
    if value == "HEALTHY" then Success(Healthy)
    else if value == "DEGRADED" then Success(Degraded)
    else if value == "UNHEALTHY" then Success(Unhealthy)
    else if value == "UNKNOWN" then Success(Unknown)
    else Failure(InvalidEnum("health_status", value))
  }

  function CheckKindFromDb(kind: string, url: string, expectedStatus: I64): Result<CheckKind, PersistenceError> {
    if kind != "HTTP" then Failure(InvalidEnum("check_kind", kind))
    else if !(0 <= expectedStatus < U16_LIMIT) then
      Failure(NumericOutOfRange("checks.expected_status", expectedStatus))
    else
      match HttpKind(url, expectedStatus)
      case Success(k) => Success(k)
      case Failure(e) => Failure(InvalidDomain(e))
  }

  // Rows.

  function CheckToRow(c: Check): Result<CheckRow, PersistenceError> {
    var interval :- U64ToDb(c.intervalSeconds, "checks.interval_seconds");
    var timeout :- U64ToDb(c.timeoutMs, "checks.timeout_ms");
    Success(CheckRow(
              UuidToDb(c.id), UuidToDb(c.serviceId), "HTTP", c.kind.url, c.kind.expectedStatus,
              interval, timeout, if c.enabled then 1 else 0, TimestampToDb(c.createdAt)))
  }

  function CheckFromRow(row: CheckRow): Result<Check, PersistenceError> {
    var id :- UuidFromDb("checks.id", row.id);
    var serviceId :- UuidFromDb("checks.service_id", row.serviceId);
    var kind :- CheckKindFromDb(row.kind, row.url, row.expectedStatus);
    var interval :- U64FromDb("checks.interval_seconds", row.intervalSeconds);
    var timeout :- U64FromDb("checks.timeout_ms", row.timeoutMs);
    var createdAt :- TimestampFromDb("checks.created_at", row.createdAt);
    match FromPersisted(id, serviceId, kind, interval, timeout, row.enabled != 0, createdAt)
    case Success(c) => Success(c)
    case Failure(e) => Failure(InvalidDomain(e))
  }

  function ResultToRow(r: CheckResult): Result<ResultRow, PersistenceError> {
    var duration :- U64ToDb(r.durationMs, "check_results.duration_ms");
    Success(ResultRow(UuidToDb(r.id), UuidToDb(r.checkId), TimestampToDb(r.checkedAt),
                      StatusToDb(r.status), duration, r.error))
  }

  function ResultFromRow(row: ResultRow): Result<CheckResult, PersistenceError> {
    var id :- UuidFromDb("check_results.id", row.id);
    var checkId :- UuidFromDb("check_results.check_id", row.checkId);
    var checkedAt :- TimestampFromDb("check_results.checked_at", row.checkedAt);
    var status :- StatusFromDb(row.status);
    var duration :- U64FromDb("check_results.duration_ms", row.durationMs);
    Success(CheckResult(id, checkId, checkedAt, status, duration, row.error))
  }

  // Row round trips.

  lemma KindRoundTrip(kind: CheckKind)
    ensures CheckKindFromDb("HTTP", kind.url, kind.expectedStatus) == Success(kind)
      <==> kind.url != [] && Trimmed(kind.url) && 100 <= kind.expectedStatus <= 599
  {
    TrimIsIdempotent(kind.url);
  }

  lemma UuidColumn(field: string, u: Uuid)
    ensures UuidFromDb(field, UuidToDb(u)) == Success(u)
  {
    UuidRoundTrip(u);
  }

  lemma TimestampColumn(field: string, t: Timestamp)
    ensures TimestampFromDb(field, TimestampToDb(t)) == Success(t)
  {
    TimestampParsesBack(t);
  }

  lemma CheckColumns(row: CheckRow, c: Check)
    requires UuidFromDb("checks.id", row.id) == Success(c.id)
    requires UuidFromDb("checks.service_id", row.serviceId) == Success(c.serviceId)
    requires TimestampFromDb("checks.created_at", row.createdAt) == Success(c.createdAt)
    requires row.kind == "HTTP" && row.url == c.kind.url && row.expectedStatus == c.kind.expectedStatus
    requires row.intervalSeconds == c.intervalSeconds && row.timeoutMs == c.timeoutMs
    requires row.enabled != 0 <==> c.enabled
    ensures CheckFromRow(row) == Success(c) <==> ValidCheck(c)
  {
    KindRoundTrip(c.kind);
    if CheckKindFromDb(row.kind, row.url, row.expectedStatus) == Success(c.kind) {
      assert CheckFromRow(row) == Success(c) <==> c.intervalSeconds > 0 && c.timeoutMs > 0;
    }
  }

  /**
   The mapping accepts a check exactly when its interval and timeout fit a signed
   64-bit column, and reading the row back gives the same check exactly when the
   check is one the validating constructors build.
   */
  lemma CheckRoundTrip(c: Check)
    ensures CheckToRow(c).Success? <==> c.intervalSeconds < I64_LIMIT && c.timeoutMs < I64_LIMIT
    ensures CheckToRow(c).Success? ==> (CheckFromRow(CheckToRow(c).value) == Success(c) <==> ValidCheck(c))
  {
    if CheckToRow(c).Success? {
      UuidColumn("checks.id", c.id);
      UuidColumn("checks.service_id", c.serviceId);
      TimestampColumn("checks.created_at", c.createdAt);
      CheckColumns(CheckToRow(c).value, c);
    }
  }

  lemma ResultColumns(row: ResultRow, r: CheckResult)
    requires UuidFromDb("check_results.id", row.id) == Success(r.id)
    requires UuidFromDb("check_results.check_id", row.checkId) == Success(r.checkId)
    requires TimestampFromDb("check_results.checked_at", row.checkedAt) == Success(r.checkedAt)
    requires row.status == StatusToDb(r.status) && row.durationMs == r.durationMs && row.error == r.error
    ensures ResultFromRow(row) == Success(r)
  {
    StatusReadsBack(r.status);
  }

  lemma StatusReadsBack(status: HealthStatus)
    ensures StatusFromDb(StatusToDb(status)) == Success(status)
  {
  }

  /** Every result whose duration fits the column is read back unchanged, and no other is accepted. */
  lemma ResultRoundTrip(r: CheckResult)
    ensures ResultToRow(r).Success? <==> r.durationMs < I64_LIMIT
    ensures ResultToRow(r).Success? ==> ResultFromRow(ResultToRow(r).value) == Success(r)
  {
    if ResultToRow(r).Success? {
      UuidColumn("check_results.id", r.id);
      UuidColumn("check_results.check_id", r.checkId);
      TimestampColumn("check_results.checked_at", r.checkedAt);
      ResultColumns(ResultToRow(r).value, r);
    }
  }

  // What the columns may hold.

  /** The four status texts, and no other is read. */
  lemma StatusTexts(s: HealthStatus, value: string)
    ensures StatusFromDb(value) == Success(s) <==>
            || (s == Healthy && value == "HEALTHY") || (s == Degraded && value == "DEGRADED")
            || (s == Unhealthy && value == "UNHEALTHY") || (s == Unknown && value == "UNKNOWN")
    ensures StatusToDb(s) == value <==> StatusFromDb(value) == Success(s)
  {
  }

  /** Why a check is not accepted: an interval or a timeout beyond a signed 64-bit column, the interval first. */
  lemma RefusedChecks(c: Check)
    ensures CheckToRow(c) == Failure(NumericOutOfRange("checks.interval_seconds", 9_223_372_036_854_775_807))
       <==> c.intervalSeconds > 9_223_372_036_854_775_807
    ensures CheckToRow(c) == Failure(NumericOutOfRange("checks.timeout_ms", 9_223_372_036_854_775_807))
       <==> c.intervalSeconds <= 9_223_372_036_854_775_807 < c.timeoutMs
    ensures CheckToRow(c).Success? <==>
            c.intervalSeconds < 9_223_372_036_854_775_808 && c.timeoutMs < 9_223_372_036_854_775_808
  {
    var a, b := "checks.interval_seconds", "checks.timeout_ms";
    assert |a| != |b|;
  }

  lemma ReadableKinds(kind: string, url: string, status: I64)
    ensures CheckKindFromDb(kind, url, status).Success? <==>
            kind == "HTTP" && 100 <= status <= 599 && !(forall i :: 0 <= i < |url| ==> url[i] as int in WHITESPACE)
  {
    BlankIsTrimmedAway(url);
  }

  /** The check rows that can be read, whoever wrote them. */
  lemma ReadableChecks(row: CheckRow)
    ensures CheckFromRow(row).Success? <==>
            && ParseUuid(row.id).Some? && ParseUuid(row.serviceId).Some? && ParseTimestamp(row.createdAt).Some?
            && row.kind == "HTTP" && 100 <= row.expectedStatus <= 599
            && !(forall i :: 0 <= i < |row.url| ==> row.url[i] as int in WHITESPACE)
            && row.intervalSeconds > 0 && row.timeoutMs > 0
  {
    ReadableKinds(row.kind, row.url, row.expectedStatus);
    var kind := CheckKindFromDb(row.kind, row.url, row.expectedStatus);
    var id, serviceId := UuidFromDb("checks.id", row.id), UuidFromDb("checks.service_id", row.serviceId);
    var createdAt := TimestampFromDb("checks.created_at", row.createdAt);
    if id.Success? && serviceId.Success? && kind.Success? && createdAt.Success? {
      assert CheckFromRow(row).Success? <==> row.intervalSeconds > 0 && row.timeoutMs > 0;
    }
  }

  lemma EnabledIsRead(row: CheckRow)
    requires CheckFromRow(row).Success?
    ensures CheckFromRow(row).value.enabled <==> row.enabled != 0
  {
  }

  /** The result rows that can be read: an unknown status or a negative duration is refused. */
  lemma ReadableResults(row: ResultRow)
    ensures ResultFromRow(row).Success? <==>
            && ParseUuid(row.id).Some? && ParseUuid(row.checkId).Some? && ParseTimestamp(row.checkedAt).Some?
            && (exists s :: row.status == StatusToDb(s)) && row.durationMs >= 0
  {
    if StatusFromDb(row.status).Success? {
      StatusTexts(StatusFromDb(row.status).value, row.status);
    }
    forall s ensures row.status == StatusToDb(s) <==> StatusFromDb(row.status) == Success(s) {
      StatusTexts(s, row.status);
    }
  }

  /** An error of this column, or else what is wrong with the later ones. */
  function When(wrong: bool, error: PersistenceError, later: Option<PersistenceError>): Option<PersistenceError> {
    if wrong then Some(error) else later
  }

  function ErrorOf<T>(r: Result<T, PersistenceError>): Option<PersistenceError> {
    match r
    case Success(_) => None
    case Failure(e) => Some(e)
  }

  /**
   The error of a kind that cannot be read: its name comes first, then a status that is
   no 16-bit number, then what the domain refuses.
   */
  lemma CorruptKinds(kind: string, url: string, status: I64)
    ensures var blank := forall i :: 0 <= i < |url| ==> url[i] as int in WHITESPACE;
            && (kind != "HTTP" ==>
                  CheckKindFromDb(kind, url, status) == Failure(InvalidEnum("check_kind", kind)))
            && (kind == "HTTP" && (status < 0 || status > 65_535) ==>
                  CheckKindFromDb(kind, url, status) == Failure(NumericOutOfRange("checks.expected_status", status)))
            && (kind == "HTTP" && 0 <= status <= 65_535 && blank ==>
                  CheckKindFromDb(kind, url, status) == Failure(InvalidDomain(EmptyHttpUrl)))
            && (kind == "HTTP" && (0 <= status < 100 || 600 <= status <= 65_535) && !blank ==>
                  CheckKindFromDb(kind, url, status) == Failure(InvalidDomain(InvalidHttpStatus(status))))
  {
    BlankIsTrimmedAway(url);
  }

  /** The error of a result row that cannot be read is that of its first corrupt column. */
  lemma CorruptResults(row: ResultRow)
    ensures ErrorOf(ResultFromRow(row)) ==
            When(ParseUuid(row.id).None?, InvalidUuid("check_results.id", row.id),
            When(ParseUuid(row.checkId).None?, InvalidUuid("check_results.check_id", row.checkId),
            When(ParseTimestamp(row.checkedAt).None?, InvalidTimestamp("check_results.checked_at", row.checkedAt),
            When(StatusFromDb(row.status).Failure?, InvalidEnum("health_status", row.status),
            When(row.durationMs < 0, NumericOutOfRange("check_results.duration_ms", row.durationMs), None)))))
  {
  }

  /** The error of a check row that cannot be read is that of its first corrupt column; the domain's come last. */
  lemma CorruptChecks(row: CheckRow)
    ensures var kind := ErrorOf(CheckKindFromDb(row.kind, row.url, row.expectedStatus));
            ErrorOf(CheckFromRow(row)) ==
            When(ParseUuid(row.id).None?, InvalidUuid("checks.id", row.id),
            When(ParseUuid(row.serviceId).None?, InvalidUuid("checks.service_id", row.serviceId),
            if kind.Some? then kind else
            When(row.intervalSeconds < 0, NumericOutOfRange("checks.interval_seconds", row.intervalSeconds),
            When(row.timeoutMs < 0, NumericOutOfRange("checks.timeout_ms", row.timeoutMs),
            When(ParseTimestamp(row.createdAt).None?, InvalidTimestamp("checks.created_at", row.createdAt),
            When(row.intervalSeconds == 0, InvalidDomain(ZeroInterval),
            When(row.timeoutMs == 0, InvalidDomain(ZeroTimeout), None)))))))
  {
  }
}
