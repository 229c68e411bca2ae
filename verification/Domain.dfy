/** The core domain values: checks, check results and their constructors. */
module Domain {
  import opened Wrappers

  const UUID_LIMIT: nat := 0x1_0000_0000_0000_0000_0000_0000_0000_0000
  const U16_LIMIT: nat := 0x1_0000
  const U64_LIMIT: nat := 0x1_0000_0000_0000_0000

  /** A UUID as its 128-bit value. */
  type Uuid = n: nat | n < UUID_LIMIT

  type U16 = n: nat | n < U16_LIMIT
  type U64 = n: nat | n < U64_LIMIT

  /**
   UTC date and time fields; second 60 is a leap second. Only the years that
   RFC 3339 can write are included.
   */
  datatype TimestampFields =
    Timestamp(year: nat, month: nat, day: nat, hour: nat, minute: nat, second: nat, nanos: nat)

  predicate IsLeapYear(year: nat) {
    year % 4 == 0 && (year % 100 != 0 || year % 400 == 0)
  }

  function DaysInMonth(year: nat, month: nat): nat {
    if month == 2 then (if IsLeapYear(year) then 29 else 28)
    else if month in {4, 6, 9, 11} then 30
    else 31
  }

  predicate ValidTimestamp(t: TimestampFields) {
    && t.year <= 9999
    && 1 <= t.month <= 12
    && 1 <= t.day <= DaysInMonth(t.year, t.month)
    && t.hour < 24 && t.minute < 60 && t.second <= 60
    && t.nanos < 1_000_000_000
  }

  type Timestamp = t: TimestampFields | ValidTimestamp(t)
    witness TimestampFields.Timestamp(1970, 1, 1, 0, 0, 0, 0)

  /** Chronological order: the most significant differing field decides. */
  predicate Earlier(t: Timestamp, u: Timestamp) {
    if t.year != u.year then t.year < u.year
    else if t.month != u.month then t.month < u.month
    else if t.day != u.day then t.day < u.day
    else if t.hour != u.hour then t.hour < u.hour
    else if t.minute != u.minute then t.minute < u.minute
    else if t.second != u.second then t.second < u.second
    else t.nanos < u.nanos
  }

  datatype HealthStatus = Healthy | Degraded | Unhealthy | Unknown

  datatype CheckKind = Http(url: string, expectedStatus: U16)

  datatype Check = Check(
    id: Uuid,
    serviceId: Uuid,
    kind: CheckKind,
    intervalSeconds: U64,
    timeoutMs: U64,
    enabled: bool,
    createdAt: Timestamp)

  datatype CheckResult = CheckResult(
    id: Uuid,
    checkId: Uuid,
    checkedAt: Timestamp,
    status: HealthStatus,
    durationMs: U64,
    error: Option<string>)

  datatype DomainError =
    | EmptyHttpUrl
    | ZeroInterval
    | ZeroTimeout
    | InvalidHttpStatus(status: U16)

  /** The characters with the Unicode White_Space property. */
  predicate IsWhitespace(c: char) {
    var n := c as int;
    || 0x09 <= n <= 0x0D || n == 0x20 || n == 0x85 || n == 0xA0 || n == 0x1680
    || 0x2000 <= n <= 0x200A || n == 0x2028 || n == 0x2029 || n == 0x202F || n == 0x205F || n == 0x3000
  }

  function TrimStart(s: string): string {
    if s != [] && IsWhitespace(s[0]) then TrimStart(s[1..]) else s
  }

  function TrimEnd(s: string): string {
    if s != [] && IsWhitespace(s[|s| - 1]) then TrimEnd(s[..|s| - 1]) else s
  }

  function Trim(s: string): string {
    TrimEnd(TrimStart(s))
  }

  /** No whitespace at either end. */
  predicate Trimmed(s: string) {
    s != [] ==> !IsWhitespace(s[0]) && !IsWhitespace(s[|s| - 1])
  }

  function HttpKind(url: string, expectedStatus: U16): Result<CheckKind, DomainError> {
    var url := Trim(url);
    if url == [] then Failure(EmptyHttpUrl)
    else if !(100 <= expectedStatus <= 599) then Failure(InvalidHttpStatus(expectedStatus))
    else Success(Http(url, expectedStatus))
  }

  function FromPersisted(id: Uuid, serviceId: Uuid, kind: CheckKind, intervalSeconds: U64, timeoutMs: U64,
                         enabled: bool, createdAt: Timestamp): Result<Check, DomainError> {
    if intervalSeconds == 0 then Failure(ZeroInterval)
    else if timeoutMs == 0 then Failure(ZeroTimeout)
    else Success(Check(id, serviceId, kind, intervalSeconds, timeoutMs, enabled, createdAt))
  }

  /** A new check is enabled; its generated id and creation time are parameters here. */
  function NewCheck(id: Uuid, createdAt: Timestamp, serviceId: Uuid, kind: CheckKind, intervalSeconds: U64,
                    timeoutMs: U64)
    : Result<Check, DomainError> {
    FromPersisted(id, serviceId, kind, intervalSeconds, timeoutMs, true, createdAt)
  }

  /** Both validations in a row, as a new HTTP check is built. */
  function NewHttpCheck(id: Uuid, createdAt: Timestamp, serviceId: Uuid, url: string, status: U16, interval: U64,
                        timeout: U64)
    : Result<Check, DomainError> {
    var kind :- HttpKind(url, status);
    NewCheck(id, createdAt, serviceId, kind, interval, timeout)
  }

  /** What the validating constructors promise about a check. */
  predicate ValidCheck(c: Check) {
    && c.kind.url != [] && Trimmed(c.kind.url)
    && 100 <= c.kind.expectedStatus <= 599
    && c.intervalSeconds > 0 && c.timeoutMs > 0
  }

  lemma {:induction false} TrimStartStops(s: string)
    ensures TrimStart(s) != [] ==> !IsWhitespace(TrimStart(s)[0])
    ensures TrimStart(s) == s <==> s == [] || !IsWhitespace(s[0])
    ensures |TrimStart(s)| <= |s|
  {
    if s == [] || !IsWhitespace(s[0]) {
    } else {
      TrimStartStops(s[1..]);
    }
  }

  lemma {:induction false} TrimEndStops(s: string)
    ensures TrimEnd(s) <= s
    ensures TrimEnd(s) != [] ==> !IsWhitespace(TrimEnd(s)[|TrimEnd(s)| - 1])
    ensures TrimEnd(s) == s <==> s == [] || !IsWhitespace(s[|s| - 1])
  {
    if s == [] || !IsWhitespace(s[|s| - 1]) {
    } else {
      TrimEndStops(s[..|s| - 1]);
    }
  }

  /** Trimming always yields a trimmed text and leaves exactly the trimmed texts alone, so it is idempotent. */
  lemma TrimIsIdempotent(s: string)
    ensures Trimmed(Trim(s))
    ensures Trim(s) == s <==> Trimmed(s)
    ensures Trim(Trim(s)) == Trim(s)
  {
    TrimmedByTrim(s);
    TrimmedByTrim(Trim(s));
  }

  lemma TrimmedByTrim(s: string)
    ensures Trimmed(Trim(s))
    ensures Trim(s) == s <==> Trimmed(s)
  {
    TrimStartStops(s);
    TrimEndStops(TrimStart(s));
  }

  /**
   The constructors accept exactly the inputs that make a valid check, and change nothing
   but the URL's whitespace.
   */
  lemma ConstructorsValidate(id: Uuid, createdAt: Timestamp, serviceId: Uuid, url: string, status: U16,
                             interval: U64, timeout: U64)
    ensures var check := NewHttpCheck(id, createdAt, serviceId, url, status, interval, timeout);
            var trimmed := Check(id, serviceId, Http(Trim(url), status), interval, timeout, true, createdAt);
            && (check.Success? <==> ValidCheck(trimmed))
            && (check.Success? ==> check.value == trimmed)
  {
    TrimIsIdempotent(url);
  }

  /** White_Space as the Unicode property list enumerates it: 25 characters. */
  const WHITESPACE: set<int> := {
    0x0009, 0x000A, 0x000B, 0x000C, 0x000D, 0x0020, 0x0085, 0x00A0, 0x1680, 0x2000, 0x2001, 0x2002, 0x2003,
    0x2004, 0x2005, 0x2006, 0x2007, 0x2008, 0x2009, 0x200A, 0x2028, 0x2029, 0x202F, 0x205F, 0x3000}

  lemma WhitespaceIsEnumerated(c: char)
    ensures IsWhitespace(c) <==> c as int in WHITESPACE
  {
  }

  lemma {:induction false} BlankStartIsTrimmed(s: string)
    requires forall i :: 0 <= i < |s| ==> s[i] as int in WHITESPACE
    ensures TrimStart(s) == []
  {
    if s == [] {
    } else {
      WhitespaceIsEnumerated(s[0]);
      BlankStartIsTrimmed(s[1..]);
    }
  }

  /** Trimming leaves nothing of a text of whitespace, and nothing else becomes empty. */
  lemma BlankIsTrimmedAway(s: string)
    ensures Trim(s) == [] <==> forall i :: 0 <= i < |s| ==> s[i] as int in WHITESPACE
  {
    if forall i :: 0 <= i < |s| ==> s[i] as int in WHITESPACE {
      BlankStartIsTrimmed(s);
    }
    TrimCutsWhitespace(s);
  }

  lemma {:induction false} TrimStartCuts(s: string) returns (k: nat)
    ensures k <= |s| && TrimStart(s) == s[k..] && forall i :: 0 <= i < k ==> s[i] as int in WHITESPACE
  {
    if s == [] || !IsWhitespace(s[0]) {
      k := 0;
    } else {
      WhitespaceIsEnumerated(s[0]);
      var rest := TrimStartCuts(s[1..]);
      k := rest + 1;
      assert s[1..][rest..] == s[k..];
      assert forall i :: 1 <= i < k ==> s[i] == s[1..][i - 1];
    }
  }

  lemma {:induction false} TrimEndCuts(s: string) returns (k: nat)
    ensures k <= |s| && TrimEnd(s) == s[..k] && forall i :: k <= i < |s| ==> s[i] as int in WHITESPACE
  {
    if s == [] || !IsWhitespace(s[|s| - 1]) {
      k := |s|;
    } else {
      WhitespaceIsEnumerated(s[|s| - 1]);
      k := TrimEndCuts(s[..|s| - 1]);
      assert s[..|s| - 1][..k] == s[..k];
      assert forall i :: k <= i < |s| - 1 ==> s[i] == s[..|s| - 1][i];
    }
  }

  /** Trimming cuts off whitespace at both ends and nothing else. */
  ghost predicate Cuts(s: string, a: nat, b: nat) {
    && a <= b <= |s| && Trim(s) == s[a..b]
    && (forall i :: 0 <= i < a ==> s[i] as int in WHITESPACE)
    && (forall i :: b <= i < |s| ==> s[i] as int in WHITESPACE)
    && (a < b ==> s[a] as int !in WHITESPACE && s[b - 1] as int !in WHITESPACE)
  }

  lemma TrimCutsWhitespace(s: string)
    ensures exists a, b :: Cuts(s, a, b)
  {
    var a := TrimStartCuts(s);
    var k := TrimEndCuts(TrimStart(s));
    var b := a + k;
    assert s[a..][..k] == s[a..b];
    TrimIsIdempotent(s);
    assert forall i :: b <= i < |s| ==> s[i] == s[a..][i - a];
    if a < b {
      WhitespaceIsEnumerated(s[a]);
      WhitespaceIsEnumerated(s[b - 1]);
      assert Trim(s)[0] == s[a] && Trim(s)[|Trim(s)| - 1] == s[b - 1];
    }
    assert Cuts(s, a, b);
  }

  /** A text that begins and ends with printing ASCII characters is left alone. */
  lemma PrintableEndsAreKept(s: string)
    requires s != [] && '!' <= s[0] <= '~' && '!' <= s[|s| - 1] <= '~'
    ensures Trim(s) == s
  {
    TrimIsIdempotent(s);
  }

  /** Which error the constructors answer: the URL comes first, then the status, the interval and the timeout. */
  lemma ConstructorErrors(id: Uuid, createdAt: Timestamp, serviceId: Uuid, url: string, status: U16,
                          interval: U64, timeout: U64)
    ensures var r := NewHttpCheck(id, createdAt, serviceId, url, status, interval, timeout);
            var blank := forall i :: 0 <= i < |url| ==> url[i] as int in WHITESPACE;
            && (blank <==> r == Failure(EmptyHttpUrl))
            && (!blank && (status < 100 || 600 <= status) <==> r == Failure(InvalidHttpStatus(status)))
            && (!blank && 100 <= status <= 599 && interval == 0 <==> r == Failure(ZeroInterval))
            && (!blank && 100 <= status <= 599 && interval > 0 && timeout == 0 <==> r == Failure(ZeroTimeout))
  {
    BlankIsTrimmedAway(url);
  }
}
