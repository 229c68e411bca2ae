/**
 The bounded time arithmetic of the scheduler: a duration is a pair of 64-bit
 seconds and nanoseconds below one second, and the delay between two executions
 is a configured unit times a clamped number of seconds.
 */
module Durations {
  import opened Wrappers

  const NANOS_PER_SEC: nat := 1_000_000_000
  const U32_MAX: nat := 0xFFFF_FFFF
  const U64_MAX: nat := 0xFFFF_FFFF_FFFF_FFFF

  datatype DurationParts = Duration(secs: nat, nanos: nat)

  type Duration = d: DurationParts | d.secs <= U64_MAX && d.nanos < NANOS_PER_SEC
    witness DurationParts.Duration(0, 0)

  const DURATION_MAX: Duration := DurationParts.Duration(U64_MAX, NANOS_PER_SEC - 1)
  const ONE_SECOND: Duration := DurationParts.Duration(1, 0)

  /** Instants are nanoseconds since an arbitrary anchor. */
  type Instant = nat

  function TotalNanos(d: Duration): nat {
    d.secs * NANOS_PER_SEC + d.nanos
  }

  function Min(a: nat, b: nat): nat {
    if a <= b then a else b
  }

  /** Whole seconds and remaining nanoseconds. */
  function Carry(totalNanos: nat): (r: (nat, nat))
    ensures totalNanos == r.0 * NANOS_PER_SEC + r.1 && r.1 < NANOS_PER_SEC
  {
    (totalNanos / NANOS_PER_SEC, totalNanos % NANOS_PER_SEC)
  }

  /** Multiplication with the nanosecond carry; None when the seconds leave 64 bits. */
  function CheckedMul(d: Duration, factor: nat): Option<Duration>
    requires factor <= U32_MAX
  {
    var (extraSecs, nanos) := Carry(d.nanos * factor);
    var secs: nat := d.secs * factor;
    if secs <= U64_MAX && secs + extraSecs <= U64_MAX
    then Some(DurationParts.Duration(secs + extraSecs, nanos))
    else None
  }

  function IntervalDuration(intervalSeconds: nat, intervalUnit: Duration): Duration {
    var units := if intervalSeconds <= U32_MAX then intervalSeconds else U32_MAX;
    match CheckedMul(intervalUnit, units)
    case Some(d) => d
    case None => DURATION_MAX
  }

  /** Adding a duration to an instant; None where the platform's clock type overflows, which panics. */
  function CheckedAdd(at: Instant, d: Duration, limit: Instant): Option<Instant> {
    if at + TotalNanos(d) <= limit then Some(at + TotalNanos(d)) else None
  }

  /** Seconds and nanoseconds with carry multiply like total nanoseconds, or else exceed DURATION_MAX. */
  lemma CheckedMulIsExact(d: Duration, factor: nat)
    requires factor <= U32_MAX
    ensures match CheckedMul(d, factor)
            case Some(p) => TotalNanos(p) == factor * TotalNanos(d)
            case None => factor * TotalNanos(d) > TotalNanos(DURATION_MAX)
  {
    var (extraSecs, nanos) := Carry(d.nanos * factor);
    assert factor * TotalNanos(d) == (d.secs * factor + extraSecs) * NANOS_PER_SEC + nanos by {
      assert factor * TotalNanos(d) == (d.secs * factor) * NANOS_PER_SEC + factor * d.nanos;
    }
  }

  /** The interval is the exact product of the clamped seconds and the unit, cut off at DURATION_MAX. */
  lemma IntervalIsExactOrSaturates(intervalSeconds: nat, intervalUnit: Duration)
    ensures TotalNanos(IntervalDuration(intervalSeconds, intervalUnit))
         == Min(Min(intervalSeconds, U32_MAX) * TotalNanos(intervalUnit), TotalNanos(DURATION_MAX))
  {
    var units := Min(intervalSeconds, U32_MAX);
    CheckedMulIsExact(intervalUnit, units);
    match CheckedMul(intervalUnit, units) {
      case None =>
      case Some(d) =>
        assert d.secs * NANOS_PER_SEC <= U64_MAX * NANOS_PER_SEC;
    }
  }

  lemma IntervalIsMonotone(fewer: nat, more: nat, intervalUnit: Duration)
    requires fewer <= more
    ensures TotalNanos(IntervalDuration(fewer, intervalUnit)) <= TotalNanos(IntervalDuration(more, intervalUnit))
  {
    IntervalIsExactOrSaturates(fewer, intervalUnit);
    IntervalIsExactOrSaturates(more, intervalUnit);
    MulMonotone(Min(fewer, U32_MAX), Min(more, U32_MAX), TotalNanos(intervalUnit));
  }

  /** A validated check under a positive unit has a positive delay. */
  lemma IntervalIsPositive(intervalSeconds: nat, intervalUnit: Duration)
    requires intervalSeconds > 0 && TotalNanos(intervalUnit) > 0
    ensures TotalNanos(IntervalDuration(intervalSeconds, intervalUnit)) > 0
  {
    IntervalIsExactOrSaturates(intervalSeconds, intervalUnit);
    MulMonotone(1, Min(intervalSeconds, U32_MAX), TotalNanos(intervalUnit));
  }

  /** Under the default unit the delay is the clamped number of seconds and never saturates. */
  lemma DefaultUnitIsExact(intervalSeconds: nat)
    ensures IntervalDuration(intervalSeconds, ONE_SECOND)
         == DurationParts.Duration(Min(intervalSeconds, U32_MAX), 0)
    ensures TotalNanos(IntervalDuration(intervalSeconds, ONE_SECOND)) <= U32_MAX * NANOS_PER_SEC
  {
  }

  /**
   On a clock whose range is below Duration::MAX, saturation never shows: the sum fits
   exactly when the unsaturated one does.
   */
  lemma SaturatedDelayNeverFits(at: Instant, intervalSeconds: nat, intervalUnit: Duration, limit: Instant)
    requires limit < TotalNanos(DURATION_MAX)
    ensures CheckedAdd(at, IntervalDuration(intervalSeconds, intervalUnit), limit).Some?
       <==> at + Min(intervalSeconds, U32_MAX) * TotalNanos(intervalUnit) <= limit
  {
    IntervalIsExactOrSaturates(intervalSeconds, intervalUnit);
  }

  /** A concrete saturation: a unit of 2^33 seconds and 2^31 of them, which no clock of 64-bit seconds can add. */
  lemma SaturationIsUnusable(at: Instant, limit: Instant)
    requires limit < TotalNanos(DURATION_MAX)
    ensures IntervalDuration(0x8000_0000, DurationParts.Duration(0x2_0000_0000, 0)) == DURATION_MAX
    ensures CheckedAdd(at, DURATION_MAX, limit) == None
  {
  }

  /** The delay that the documentation promises: the configured number of units, neither clamped nor cut off. */
  function Documented(intervalSeconds: nat, intervalUnit: Duration): nat {
    intervalSeconds * TotalNanos(intervalUnit)
  }

  /** The clamp to 32 bits changes nothing, and the product is a representable duration. */
  predicate Representable(intervalSeconds: nat, intervalUnit: Duration) {
    && (intervalSeconds <= U32_MAX || TotalNanos(intervalUnit) == 0)
    && Documented(intervalSeconds, intervalUnit) <= TotalNanos(DURATION_MAX)
  }

  /** The computed delay is at most the documented one, and equal to it exactly when that is representable. */
  lemma IntervalIsDocumented(intervalSeconds: nat, intervalUnit: Duration)
    ensures TotalNanos(IntervalDuration(intervalSeconds, intervalUnit)) <= Documented(intervalSeconds, intervalUnit)
    ensures TotalNanos(IntervalDuration(intervalSeconds, intervalUnit)) == Documented(intervalSeconds, intervalUnit)
       <==> Representable(intervalSeconds, intervalUnit)
  {
    var units, unit := Min(intervalSeconds, U32_MAX), TotalNanos(intervalUnit);
    IntervalIsExactOrSaturates(intervalSeconds, intervalUnit);
    MulMonotone(units, intervalSeconds, unit);
    if intervalSeconds > U32_MAX && unit > 0 {
      MulMonotone(units + 1, intervalSeconds, unit);
      assert (units + 1) * unit == units * unit + unit;
    }
  }

  lemma MulMonotone(a: nat, b: nat, c: nat)
    requires a <= b
    ensures a * c <= b * c
  {
  }

  /** In numbers: 60 seconds; the clamp; a carry from nanoseconds, one and a half seconds times three; the cut-off. */
  lemma IntervalsInNumbers()
    ensures TotalNanos(IntervalDuration(60, ONE_SECOND)) == 60_000_000_000
    ensures TotalNanos(IntervalDuration(4_294_967_296, ONE_SECOND)) == 4_294_967_295_000_000_000
    ensures TotalNanos(IntervalDuration(3, DurationParts.Duration(1, 500_000_000))) == 4_500_000_000
    ensures TotalNanos(IntervalDuration(2, DURATION_MAX)) == 18_446_744_073_709_551_615_999_999_999
  {
  }
}
