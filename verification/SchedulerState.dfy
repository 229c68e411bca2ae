/** The table of scheduled checks and the three operations on it. */
module SchedulerStates {
  import opened Wrappers
  import opened Domain
  import opened Durations

  datatype ScheduledCheck = ScheduledCheck(
    check: Check,
    nextDue: Instant,
    running: bool,
    lastStarted: Option<Instant>,
    lastCompleted: Option<Instant>)

  type Table = map<Uuid, ScheduledCheck>

  function NewEntry(check: Check, now: Instant): ScheduledCheck {
    ScheduledCheck(check, now, false, None, None)
  }

  function Interval(check: Check, unit: Duration): Duration {
    IntervalDuration(check.intervalSeconds, unit)
  }

  predicate IsDue(entry: ScheduledCheck, now: Instant) {
    entry.check.enabled && !entry.running && entry.nextDue <= now
  }

  /** The ids a tick at `now` claims. */
  function Due(table: Table, now: Instant): set<Uuid> {
    set id | id in table && IsDue(table[id], now)
  }

  function ClaimEntry(entry: ScheduledCheck, now: Instant): ScheduledCheck {
    if IsDue(entry, now) then entry.(running := true, lastStarted := Some(now)) else entry
  }

  function Claim(table: Table, now: Instant): Table {
    map id | id in table :: ClaimEntry(table[id], now)
  }

  function CompleteEntry(entry: ScheduledCheck, completedAt: Instant, unit: Duration): ScheduledCheck {
    entry.(running := false,
           lastCompleted := Some(completedAt),
           nextDue := completedAt + TotalNanos(Interval(entry.check, unit)))
  }

  /** Where the addition overflows, the due time is not reached any more. */
  function OverflowEntry(entry: ScheduledCheck, completedAt: Instant): ScheduledCheck {
    entry.(running := false, lastCompleted := Some(completedAt))
  }

  function CompleteIn(table: Table, id: Uuid, completedAt: Instant, unit: Duration): Table {
    if id in table then table[id := CompleteEntry(table[id], completedAt, unit)] else table
  }

  /** Every entry is stored under its own check's id. */
  ghost predicate Keyed(table: Table) {
    forall id :: id in table ==> table[id].check.id == id
  }

  function Ids(checks: seq<Check>): seq<Uuid> {
    seq(|checks|, i requires 0 <= i < |checks| => checks[i].id)
  }

  /** `checks` lists each claimed check once, in any order. */
  ghost predicate Lists(checks: seq<Check>, ids: set<Uuid>, table: Table) {
    && (forall i :: 0 <= i < |checks| ==>
          checks[i].id in ids && checks[i].id in table && checks[i] == table[checks[i].id].check)
    && (forall i, j :: 0 <= i < j < |checks| ==> checks[i].id != checks[j].id)
    && (forall id :: id in ids ==> id in Ids(checks))
  }

  class SchedulerState {
    var checks: Table

    constructor ()
      ensures checks == map[]
    {
      checks := map[];
    }

    method Register(check: Check, now: Instant)
      requires Keyed(checks)
      modifies this
      ensures checks == old(checks)[check.id := NewEntry(check, now)]
      ensures Keyed(checks)
    {
      checks := checks[check.id := NewEntry(check, now)];
    }

    /** Visits the entries in an arbitrary order; the outcome does not depend on it. */
    method ClaimDueChecks(now: Instant) returns (due: seq<Check>)
      requires Keyed(checks)
      modifies this
      ensures checks == Claim(old(checks), now)
      ensures Lists(due, Due(old(checks), now), old(checks))
      ensures Keyed(checks)
      ensures Due(checks, now) == {}
    {
      due := [];
      var remaining := checks.Keys;
      ghost var before, visited := checks, {};
      while remaining != {}
        invariant visited !! remaining && visited + remaining == before.Keys == checks.Keys
        invariant forall id :: id in remaining ==> checks[id] == before[id]
        invariant forall id :: id in visited ==> checks[id] == ClaimEntry(before[id], now)
        invariant Lists(due, (set id | id in visited && IsDue(before[id], now)), before)
        decreases remaining
      {
        var id :| id in remaining;
        remaining := remaining - {id};
        visited := visited + {id};
        ghost var dueBefore := due;
        var scheduled := checks[id];
        if !scheduled.check.enabled || scheduled.running || scheduled.nextDue > now {
          continue;
        }
        checks := checks[id := scheduled.(running := true, lastStarted := Some(now))];
        due := due + [scheduled.check];
        assert Ids(due) == Ids(dueBefore) + [id];
      }
    }

    /** Reports whether the addition overflowed; the program panics there, with the first two fields already written. */
    method Complete(checkId: Uuid, completedAt: Instant, unit: Duration, limit: Instant) returns (overflowed: bool)
      modifies this
      ensures overflowed <==>
        (checkId in old(checks) && completedAt + TotalNanos(Interval(old(checks)[checkId].check, unit)) > limit)
      ensures !overflowed ==> checks == CompleteIn(old(checks), checkId, completedAt, unit)
      ensures overflowed ==> checks == old(checks)[checkId := OverflowEntry(old(checks)[checkId], completedAt)]
    {
      if checkId !in checks {
        return false;
      }
      checks := checks[checkId := checks[checkId].(running := false, lastCompleted := Some(completedAt))];
      var sum := CheckedAdd(completedAt, Interval(checks[checkId].check, unit), limit);
      if sum == None {
        return true;
      }
      checks := checks[checkId := checks[checkId].(nextDue := sum.value)];
      return false;
    }
  }
}
