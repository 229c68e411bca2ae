/**
 Field order is time order, and the decoder finds the instant that a text denotes: by
 the calendar's own arithmetic.
 */
module Calendar {
  import opened Wrappers
  import opened Domain
  import opened Rfc3339
  import opened Text

  function DaysInYear(year: nat): nat {
    if IsLeapYear(year) then 366 else 365
  }

  function DaysBeforeYear(year: nat): nat {
    if year == 0 then 0 else DaysBeforeYear(year - 1) + DaysInYear(year - 1)
  }

  function DaysBeforeMonth(year: nat, month: nat): nat {
    if month <= 1 then 0 else DaysBeforeMonth(year, month - 1) + DaysInMonth(year, month - 1)
  }

  function DayNumber(t: Timestamp): nat {
    DaysBeforeYear(t.year) + DaysBeforeMonth(t.year, t.month) + t.day - 1
  }

  /** Minutes since the start of year 0. */
  function MinuteNumber(t: Timestamp): nat {
    1440 * DayNumber(t) + 60 * t.hour + t.minute
  }

  /** A minute has room for a leap second at its end. */
  function NanosOfMinute(t: Timestamp): nat {
    1_000_000_000 * t.second + t.nanos
  }

  /** Nanoseconds since the start of year 0, without leap seconds. */
  function ElapsedNanos(t: Timestamp): nat {
    60_000_000_000 * MinuteNumber(t) + NanosOfMinute(t)
  }

  /** Earlier on the time line: by minutes, then within the minute. */
  predicate Sooner(t: Timestamp, u: Timestamp) {
    MinuteNumber(t) < MinuteNumber(u) || (MinuteNumber(t) == MinuteNumber(u) && NanosOfMinute(t) < NanosOfMinute(u))
  }

  lemma {:induction false} MonthsAreOrdered(year: nat, m: nat, n: nat)
    requires 1 <= m < n
    ensures DaysBeforeMonth(year, m) + DaysInMonth(year, m) <= DaysBeforeMonth(year, n)
    decreases n
  {
    if m == n - 1 {
    } else {
      MonthsAreOrdered(year, m, n - 1);
    }
  }

  lemma YearIsItsMonths(year: nat)
    ensures DaysBeforeMonth(year, 13) == DaysInYear(year)
  {
    var leap := if IsLeapYear(year) then 1 else 0;
    assert DaysBeforeMonth(year, 2) == 31;
    assert DaysBeforeMonth(year, 3) == 59 + leap;
    assert DaysBeforeMonth(year, 5) == 120 + leap;
    assert DaysBeforeMonth(year, 7) == 181 + leap;
    assert DaysBeforeMonth(year, 9) == 243 + leap;
    assert DaysBeforeMonth(year, 11) == 304 + leap;
  }

  // The Gregorian calendar in closed form, with its leap rule written out.

  /** A February 29 exists every fourth year, but not in a century unless every fourth one. */
  predicate HasLeapDay(year: nat) {
    (year % 4 == 0 && year % 100 != 0) || year % 400 == 0
  }

  lemma LeapRule(year: nat)
    ensures IsLeapYear(year) <==> HasLeapDay(year)
    ensures year % 400 == 0 ==> year % 100 == 0
    ensures year % 100 == 0 ==> year % 4 == 0
  {
    assert year % 100 == (year % 400) % 100;
    assert year % 4 == (year % 100) % 4;
  }

  lemma MonthParity(month: nat)
    requires 1 <= month <= 12
    ensures (month + month / 8) % 2 == if month in {4, 6, 9, 11, 2} then 0 else 1
  {
    var months := [1, 2, 3, 4, 5, 6, 7, 8, 9, 10, 11, 12];
    assert months[month - 1] == month;
  }

  /** February aside, months of 31 and 30 days alternate, with a break after July. */
  lemma MonthLengths(year: nat, month: nat)
    requires 1 <= month <= 12
    ensures DaysInMonth(year, month) ==
            if month == 2 then (if HasLeapDay(year) then 29 else 28) else 30 + (month + month / 8) % 2
  {
    LeapRule(year);
    MonthParity(month);
  }

  /** The days of a common year before each month, counted as if February had 30. */
  function MonthOffset(month: nat): nat
    requires 1 <= month <= 12
  {
    [0, 31, 61, 92, 122, 153, 183, 214, 245, 275, 306, 336][month - 1]
  }

  lemma MonthOffsets(month: nat)
    requires 1 <= month <= 12
    ensures (367 * month - 362) / 12 == MonthOffset(month)
  {
    var months := [1, 2, 3, 4, 5, 6, 7, 8, 9, 10, 11, 12];
    assert months[month - 1] == month;
  }

  lemma {:induction false} MonthsBefore(year: nat, month: nat)
    requires 1 <= month <= 12
    ensures DaysBeforeMonth(year, month)
         == MonthOffset(month) - (if month <= 2 then 0 else if HasLeapDay(year) then 1 else 2)
  {
    if month == 1 {
    } else {
      MonthsBefore(year, month - 1);
      LeapRule(year);
    }
  }

  lemma DivideStep4(n: nat)
    ensures (n + 4) / 4 == (n + 3) / 4 + if n % 4 == 0 then 1 else 0
  {
  }

  lemma DivideStep100(n: nat)
    ensures (n + 100) / 100 == (n + 99) / 100 + if n % 100 == 0 then 1 else 0
  {
  }

  lemma DivideStep400(n: nat)
    ensures (n + 400) / 400 == (n + 399) / 400 + if n % 400 == 0 then 1 else 0
  {
  }

  /** The leap years before a year. */
  function LeapYearsBefore(year: nat): int {
    (year + 3) / 4 - (year + 99) / 100 + (year + 399) / 400
  }

  lemma LeapYearsStep(year: nat)
    ensures LeapYearsBefore(year + 1) == LeapYearsBefore(year) + if HasLeapDay(year) then 1 else 0
  {
    DivideStep4(year);
    DivideStep100(year);
    DivideStep400(year);
    LeapRule(year);
  }

  lemma {:induction false} YearsBefore(year: nat)
    ensures DaysBeforeYear(year) == 365 * year + LeapYearsBefore(year)
  {
    if year == 0 {
    } else {
      YearsBefore(year - 1);
      LeapYearsStep(year - 1);
      LeapRule(year - 1);
    }
  }

  /** The day number of every date, in closed form. */
  lemma DayNumberIsGregorian(t: Timestamp)
    ensures DayNumber(t) ==
            365 * t.year + LeapYearsBefore(t.year)
            + (367 * t.month - 362) / 12 - (if t.month <= 2 then 0 else if HasLeapDay(t.year) then 1 else 2)
            + t.day - 1
  {
    YearsBefore(t.year);
    MonthsBefore(t.year, t.month);
    MonthOffsets(t.month);
  }

  /** Which fields make a date and time. */
  lemma ValidDatesAreGregorian(t: TimestampFields)
    ensures ValidTimestamp(t) <==>
            && 0 <= t.year <= 9999 && 1 <= t.month <= 12 && 1 <= t.day
            && t.day <= (if t.month == 2 then (if HasLeapDay(t.year) then 29 else 28)
                         else 30 + (t.month + t.month / 8) % 2)
            && 0 <= t.hour <= 23 && 0 <= t.minute <= 59 && 0 <= t.second <= 60 && 0 <= t.nanos <= 999_999_999
  {
    if 1 <= t.month <= 12 {
      MonthLengths(t.year, t.month);
    }
  }

  lemma {:induction false} YearsAreOrdered(y: nat, z: nat)
    requires y < z
    ensures DaysBeforeYear(y) + DaysInYear(y) <= DaysBeforeYear(z)
    decreases z
  {
    if y == z - 1 {
    } else {
      YearsAreOrdered(y, z - 1);
    }
  }

  /** A day falls inside its month, and its month inside its year. */
  lemma DayOfYear(t: Timestamp)
    ensures DaysBeforeMonth(t.year, t.month) + t.day <= DaysInYear(t.year)
  {
    MonthsAreOrdered(t.year, t.month, 13);
    YearIsItsMonths(t.year);
  }

  predicate EarlierDay(t: Timestamp, u: Timestamp) {
    t.year < u.year || (t.year == u.year && (t.month < u.month || (t.month == u.month && t.day < u.day)))
  }

  lemma EarlierDayIsLessDay(t: Timestamp, u: Timestamp)
    requires EarlierDay(t, u)
    ensures DayNumber(t) < DayNumber(u)
  {
    if t.year < u.year {
      DayOfYear(t);
      YearsAreOrdered(t.year, u.year);
    } else if t.month < u.month {
      MonthsAreOrdered(t.year, t.month, u.month);
    }
  }

  /**
   The order on calendar fields is the order on the time line, leap seconds included;
   without them it is the order of elapsed nanoseconds.
   */
  lemma EarlierIsSooner(t: Timestamp, u: Timestamp)
    ensures Earlier(t, u) <==> Sooner(t, u)
    ensures t.second < 60 && u.second < 60 ==> (Earlier(t, u) <==> ElapsedNanos(t) < ElapsedNanos(u))
  {
    if EarlierDay(t, u) {
      EarlierDayIsLessDay(t, u);
    } else if EarlierDay(u, t) {
      EarlierDayIsLessDay(u, t);
    }
    assert t.second < 60 ==> NanosOfMinute(t) < 60_000_000_000;
    assert u.second < 60 ==> NanosOfMinute(u) < 60_000_000_000;
  }

  /** So comparing the stored texts compares points in time. */
  lemma TextOrderIsTimeOrder(t: Timestamp, u: Timestamp)
    ensures TextLess(TimestampToDb(t), TimestampToDb(u)) <==> Sooner(t, u)
    ensures t.second < 60 && u.second < 60 ==>
              (TextLess(TimestampToDb(t), TimestampToDb(u)) <==> ElapsedNanos(t) < ElapsedNanos(u))
  {
    TimestampTextKeepsOrder(t, u);
    EarlierIsSooner(t, u);
  }

  // Taking an offset away.

  lemma NextDayFollows(t: Timestamp)
    ensures match NextDay(t)
            case Some(u) => DayNumber(u) == DayNumber(t) + 1
            case None => DayNumber(t) + 1 == DaysBeforeYear(10_000)
  {
    YearIsItsMonths(t.year);
  }

  lemma PreviousDayPrecedes(t: Timestamp)
    ensures match PreviousDay(t)
            case Some(u) => DayNumber(u) + 1 == DayNumber(t)
            case None => DayNumber(t) == 0
  {
    if t.year > 0 {
      YearIsItsMonths(t.year - 1);
    }
  }

  lemma DayIsBounded(t: Timestamp)
    ensures DayNumber(t) < DaysBeforeYear(10_000)
  {
    DayOfYear(t);
    YearsAreOrdered(t.year, 10_000);
  }

  lemma MinuteOfDay(t: Timestamp, minute: nat)
    requires minute < 1440
    ensures MinuteNumber(WithMinuteOfDay(t, minute)) == 1440 * DayNumber(t) + minute
  {
    assert 60 * (minute / 60) + minute % 60 == minute;
  }

  /** Two timestamps at the same point of the time line are the same. */
  lemma MomentIsUnique(t: Timestamp, u: Timestamp)
    requires MinuteNumber(t) == MinuteNumber(u) && t.second == u.second && t.nanos == u.nanos
    ensures t == u
  {
    EarlierIsSooner(t, u);
    EarlierIsSooner(u, t);
  }

  /** The instant is kept; only an instant outside the years 0 to 9999 has no result. */
  lemma UtcKeepsInstant(local: Timestamp, offset: int)
    requires -1440 < offset < 1440
    ensures match ToUtc(local, offset)
            case Some(t) =>
              MinuteNumber(t) + offset == MinuteNumber(local) && t.second == local.second && t.nanos == local.nanos
            case None => !(0 <= MinuteNumber(local) - offset < 1440 * DaysBeforeYear(10_000))
  {
    var minute := 60 * local.hour + local.minute - offset;
    if minute < 0 {
      PreviousDayPrecedes(local);
      if PreviousDay(local).Some? {
        MinuteOfDay(PreviousDay(local).value, minute + 1440);
      }
    } else if minute < 1440 {
      MinuteOfDay(local, minute);
    } else {
      NextDayFollows(local);
      if NextDay(local).Some? {
        MinuteOfDay(NextDay(local).value, minute - 1440);
      }
    }
  }

  /** The spelling is a valid date-time, and the timestamp is the instant it denotes. */
  predicate Denotes(p: Spelling, t: Timestamp) {
    && WellFormed(p) && ValidTimestamp(LocalFields(p))
    && MinuteNumber(t) + OffsetMinutes(p.zone) == MinuteNumber(LocalFields(p))
    && t.second == p.second && t.nanos == FractionNanos(p.fraction)
  }

  lemma UtcIsDenoted(p: Spelling, t: Timestamp)
    requires WellFormed(p) && ValidTimestamp(LocalFields(p))
    ensures ToUtc(LocalFields(p), OffsetMinutes(p.zone)) == Some(t) <==> Denotes(p, t)
  {
    var local, offset := LocalFields(p), OffsetMinutes(p.zone);
    UtcKeepsInstant(local, offset);
    DayIsBounded(t);
    if Denotes(p, t) {
      MomentIsUnique(t, ToUtc(local, offset).value);
    }
  }

  /**
   A text decodes to a timestamp if and only if it spells, with whatever separator,
   fraction and offset the grammar allows, a date-time that denotes that instant.
   */
  lemma TimestampDecodesExactly(s: string, t: Timestamp)
    ensures ParseTimestamp(s) == Some(t) <==> exists p :: Spell(p) == s && Denotes(p, t)
  {
    if ParseTimestamp(s) == Some(t) {
      var p := ParseSpelling(s).value;
      SpellingRoundTrip(s, p);
      UtcIsDenoted(p, t);
      assert Spell(p) == s && Denotes(p, t);
    }
    if p :| Spell(p) == s && Denotes(p, t) {
      SpellingRoundTrip(s, p);
      UtcIsDenoted(p, t);
    }
  }
}
