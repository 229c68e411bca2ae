/** What the log of one check says about its timing over a whole trace. */
module FixedDelay {
  import opened Domain
  import opened Durations
  import opened Worlds
  import opened Exclusion

  /** Neither a registration nor an overflowing completion at the positions a..b. */
  predicate Stretch(log: Log, a: nat, b: nat)
    requires a <= b <= |log|
  {
    forall k :: a <= k < b ==> !log[k].Registered? && !log[k].Overflowed?
  }

  /** How many executions start at the positions a..b. */
  function Starts(log: Log, a: nat, b: nat): nat
    requires a <= b <= |log|
    decreases b - a
  {
    if a == b then 0 else Starts(log, a, b - 1) + if log[b - 1].Started? then 1 else 0
  }

  /** How many of them fall into the time window lo..hi, both ends included. */
  function StartsWithin(log: Log, a: nat, b: nat, lo: Instant, hi: Instant): nat
    requires a <= b <= |log|
    decreases b - a
  {
    if a == b then 0
    else StartsWithin(log, a, b - 1, lo, hi) + if log[b - 1].Started? && lo <= log[b - 1].at <= hi then 1 else 0
  }

  /** The positions a..b at which an execution starts within the window. */
  function StartPositions(log: Log, a: nat, b: nat, lo: Instant, hi: Instant): set<nat>
    requires a <= b <= |log|
  {
    set k | a <= k < b && log[k].Started? && lo <= log[k].at <= hi
  }

  /** The count of starts in a window is the number of those positions. */
  lemma {:induction false} StartsWithinCounts(log: Log, a: nat, b: nat, lo: Instant, hi: Instant)
    requires a <= b <= |log|
    ensures StartsWithin(log, a, b, lo, hi) == |StartPositions(log, a, b, lo, hi)|
    decreases b - a
  {
    if a == b {
      assert StartPositions(log, a, b, lo, hi) == {};
    } else {
      StartsWithinCounts(log, a, b - 1, lo, hi);
      var last := if log[b - 1].Started? && lo <= log[b - 1].at <= hi then {b - 1} else {};
      assert StartPositions(log, a, b, lo, hi) == StartPositions(log, a, b - 1, lo, hi) + last;
    }
  }

  lemma {:induction false} DelayIsConstant(log: Log, unit: Duration, a: nat, b: nat)
    requires a <= b <= |log| && Stretch(log, a, b)
    ensures Delay(log[..b], unit) == Delay(log[..a], unit)
    decreases b - a
  {
    if a == b {
    } else {
      DelayIsConstant(log, unit, a, b - 1);
      assert log[..b][..b - 1] == log[..b - 1];
    }
  }

  /** On a stretch, a start is directly preceded by the completion of the start before it. */
  lemma StartAfterStart(log: Log, unit: Duration, i: nat, j: nat)
    requires Timeline(log, unit) && i < j < |log| && Stretch(log, i, j)
    requires log[i].Started? && log[j].Started?
    ensures i + 2 <= j && log[j - 1].Completed? && log[j - 2].Started?
    ensures log[j - 2].at <= log[j - 1].at
    ensures log[j - 1].at + Delay(log[..i], unit) <= log[j].at
  {
    assert Follows(log[j - 1], Delay(log[..j], unit), log[j]);
    assert Follows(log[j - 2], Delay(log[..j - 1], unit), log[j - 1]);
    DelayIsConstant(log, unit, i, j - 1);
  }

  /**
   Fixed delay: of two consecutive executions, the first completes no earlier
   than it started, and the second starts no earlier than that completion plus
   the interval in force.
   */
  lemma ConsecutiveStarts(log: Log, unit: Duration, i: nat, j: nat)
    requires Timeline(log, unit) && i < j < |log| && Stretch(log, i, j)
    requires log[i].Started? && log[j].Started? && Starts(log, i + 1, j) == 0
    ensures j == i + 2 && log[i + 1].Completed?
    ensures log[i].at <= log[i + 1].at && log[i + 1].at + Delay(log[..i], unit) <= log[j].at
  {
    StartAfterStart(log, unit, i, j);
  }

  lemma {:induction false} StartsSplit(log: Log, a: nat, m: nat, b: nat)
    requires a <= m <= b <= |log|
    ensures Starts(log, a, b) == Starts(log, a, m) + Starts(log, m, b)
    decreases b - m
  {
    if m == b {
    } else {
      StartsSplit(log, a, m, b - 1);
    }
  }

  /** The due time set at a completion strictly increases from one completion to any later one. */
  lemma {:induction false} DueStrictlyIncreases(log: Log, unit: Duration, i: nat, j: nat)
    requires Timeline(log, unit) && i < j < |log| && Stretch(log, i, j)
    requires log[i].Completed? && log[j].Completed? && Delay(log[..i], unit) > 0
    ensures log[i].due < log[j].due
    decreases j - i
  {
    assert Follows(log[j - 1], Delay(log[..j], unit), log[j]);
    assert Follows(log[j - 2], Delay(log[..j - 1], unit), log[j - 1]);
    DelayIsConstant(log, unit, i, j);
    if i < j - 2 {
      DueStrictlyIncreases(log, unit, i, j - 2);
    }
  }

  /** n starts later, at least n whole intervals have passed. */
  lemma {:induction false} StartsAreSpaced(log: Log, unit: Duration, i: nat, j: nat)
    requires Timeline(log, unit) && i <= j < |log| && Stretch(log, i, j)
    requires log[i].Started? && log[j].Started?
    ensures log[j].at >= log[i].at + Starts(log, i, j) * Delay(log[..i], unit)
    decreases j - i
  {
    if i == j {
    } else {
      StartAfterStart(log, unit, i, j);
      StartsAreSpaced(log, unit, i, j - 2);
      assert Starts(log, i, j) == Starts(log, i, j - 1) == Starts(log, i, j - 2) + 1;
      OneMore(Starts(log, i, j - 2), Delay(log[..i], unit));
    }
  }

  lemma OneMore(n: nat, d: nat)
    ensures (n + 1) * d == n * d + d
  {
  }

  /** The first and the last start of a window enclose all the others. */
  lemma {:induction false} WindowEnds(log: Log, a: nat, b: nat, lo: Instant, hi: Instant)
    returns (first: nat, last: nat)
    requires a <= b <= |log| && StartsWithin(log, a, b, lo, hi) > 0
    ensures a <= first <= last < b && log[first].Started? && log[last].Started?
    ensures lo <= log[first].at && log[last].at <= hi
    ensures StartsWithin(log, a, b, lo, hi) <= Starts(log, first, last) + 1
    decreases b - a
  {
    var e := log[b - 1];
    if StartsWithin(log, a, b - 1, lo, hi) == 0 {
      first, last := b - 1, b - 1;
    } else {
      first, last := WindowEnds(log, a, b - 1, lo, hi);
      if e.Started? && lo <= e.at <= hi {
        StartsSplit(log, first, last, b - 1);
        StartsSplit(log, last, last + 1, b - 1);
        assert Starts(log, last, last + 1) == Starts(log, last, last) + 1;
        last := b - 1;
      }
    }
  }

  /** All but one of the starts in a window are a whole interval after another one. */
  lemma BurstSpan(log: Log, unit: Duration, a: nat, b: nat, lo: Instant, hi: Instant)
    requires Timeline(log, unit) && a <= b <= |log| && Stretch(log, a, b)
    requires StartsWithin(log, a, b, lo, hi) > 0
    ensures (StartsWithin(log, a, b, lo, hi) - 1) * Delay(log[..a], unit) <= hi - lo
  {
    var first, last := WindowEnds(log, a, b, lo, hi);
    StartsAreSpaced(log, unit, first, last);
    DelayIsConstant(log, unit, a, first);
    MulMonotone(StartsWithin(log, a, b, lo, hi) - 1, Starts(log, first, last), Delay(log[..a], unit));
  }

  /** Every log that a disciplined trace produces is a timeline. */
  lemma LogsAreTimelines(config: Config, steps: seq<Step>, id: Uuid)
    requires Trace(Fresh(config), steps) && SafeTrace(Fresh(config), steps)
    requires LogOf(Exec(Fresh(config), steps), id) != []
    ensures Timeline(LogOf(Exec(Fresh(config), steps), id), config.unit)
  {
    TraceKeepsInv(Fresh(config), steps);
    ConfigIsConstant(Fresh(config), steps);
    assert Linked(Exec(Fresh(config), steps), id);
  }

  lemma {:induction false} ConfigIsConstant(w: World, steps: seq<Step>)
    requires Trace(w, steps)
    ensures Exec(w, steps).config == w.config
    decreases steps
  {
    if steps == [] {
    } else {
      ConfigIsConstant(Apply(w, steps[0]), steps[1..]);
    }
  }

  /**
   Fixed delay for every trace of every number of runs: of two consecutive
   executions of a check that keeps its registration, the second starts no
   earlier than the completion of the first plus the clamped interval in force.
   */
  lemma FixedDelayHolds(config: Config, steps: seq<Step>, id: Uuid, i: nat, j: nat)
    requires Trace(Fresh(config), steps) && SafeTrace(Fresh(config), steps)
    requires var log := LogOf(Exec(Fresh(config), steps), id);
             && i < j < |log| && Stretch(log, i, j)
             && log[i].Started? && log[j].Started? && Starts(log, i + 1, j) == 0
    ensures var log := LogOf(Exec(Fresh(config), steps), id);
            && log[i + 1].Completed? && log[i].at <= log[i + 1].at
            && log[i + 1].at + Delay(log[..i], config.unit) <= log[j].at
  {
    LogsAreTimelines(config, steps, id);
    ConsecutiveStarts(LogOf(Exec(Fresh(config), steps), id), config.unit, i, j);
  }

  /**
   Where the interval is representable the delay kept is the documented one: completion
   plus the configured interval.
   */
  lemma DocumentedDelayHolds(config: Config, steps: seq<Step>, id: Uuid, i: nat, j: nat)
    requires Trace(Fresh(config), steps) && SafeTrace(Fresh(config), steps)
    requires var log := LogOf(Exec(Fresh(config), steps), id);
             && i < j < |log| && Stretch(log, i, j)
             && log[i].Started? && log[j].Started? && Starts(log, i + 1, j) == 0
             && InForce(log[..i]).Some? && Representable(InForce(log[..i]).value.intervalSeconds, config.unit)
    ensures var log := LogOf(Exec(Fresh(config), steps), id);
            && log[i + 1].Completed?
            && log[i + 1].at + Documented(InForce(log[..i]).value.intervalSeconds, config.unit) <= log[j].at
  {
    FixedDelayHolds(config, steps, id, i, j);
    var log := LogOf(Exec(Fresh(config), steps), id);
    IntervalIsDocumented(InForce(log[..i]).value.intervalSeconds, config.unit);
  }

  /**
   No catch-up bursts for every trace of every number of runs: while a check keeps
   its registration, n starts within a window of length T satisfy (n - 1) * I <= T,
   that is n <= T / I + 1, however late or irregular the ticks are. I is the delay in force.
   */
  lemma NoCatchUpBursts(config: Config, steps: seq<Step>, id: Uuid, a: nat, b: nat, lo: Instant, hi: Instant)
    requires Trace(Fresh(config), steps) && SafeTrace(Fresh(config), steps)
    requires var log := LogOf(Exec(Fresh(config), steps), id);
             a <= b <= |log| && Stretch(log, a, b) && StartPositions(log, a, b, lo, hi) != {}
    ensures var log := LogOf(Exec(Fresh(config), steps), id);
            (|StartPositions(log, a, b, lo, hi)| - 1) * Delay(log[..a], config.unit) <= hi - lo
  {
    LogsAreTimelines(config, steps, id);
    StartsWithinCounts(LogOf(Exec(Fresh(config), steps), id), a, b, lo, hi);
    BurstSpan(LogOf(Exec(Fresh(config), steps), id), config.unit, a, b, lo, hi);
  }

  /**
   The due times set by a check's completions strictly increase while it keeps a
   registration with a positive delay.
   */
  lemma DueIncreases(config: Config, steps: seq<Step>, id: Uuid, i: nat, j: nat)
    requires Trace(Fresh(config), steps) && SafeTrace(Fresh(config), steps)
    requires var log := LogOf(Exec(Fresh(config), steps), id);
             && i < j < |log| && Stretch(log, i, j) && log[i].Completed? && log[j].Completed?
             && Delay(log[..i], config.unit) > 0
    ensures var log := LogOf(Exec(Fresh(config), steps), id); log[i].due < log[j].due
  {
    LogsAreTimelines(config, steps, id);
    DueStrictlyIncreases(LogOf(Exec(Fresh(config), steps), id), config.unit, i, j);
  }
}
