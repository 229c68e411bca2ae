/**
 Timestamp text: the date-time of section 5.6 of RFC 3339. The encoder writes one
 form of it, with nine fraction digits and Z; the decoder reads every form.
 */
module Rfc3339 {
  import opened Wrappers
  import opened Domain
  import opened Text

  // Fixed-width numbers, each ended by a character.

  /** One fixed-width decimal number and the character that ends it. */
  datatype Field = Field(width: nat, end: char)

  function PrintFields(layout: seq<Field>, values: seq<nat>): string
    requires |layout| == |values|
  {
    if layout == [] then []
    else Print(values[0], Decimal, layout[0].width) + ([layout[0].end] + PrintFields(layout[1..], values[1..]))
  }

  function ParseFields(layout: seq<Field>, s: string): Option<seq<nat>> {
    if layout == [] then (if s == [] then Some([]) else None)
    else
      var width := layout[0].width;
      if |s| > width && s[width] == layout[0].end then
        match (Parse(s[..width], Decimal), ParseFields(layout[1..], s[width + 1..]))
        case (Some(value), Some(rest)) => Some([value] + rest)
        case _ => None
      else None
  }

  predicate Fits(layout: seq<Field>, values: seq<nat>) {
    |layout| == |values| && forall i :: 0 <= i < |values| ==> values[i] < Decimal.Pow(layout[i].width)
  }

  predicate ValuesLess(a: seq<nat>, b: seq<nat>)
    requires |a| == |b|
  {
    a != [] && (a[0] < b[0] || (a[0] == b[0] && ValuesLess(a[1..], b[1..])))
  }

  // The encoder.

  const TIMESTAMP_LAYOUT: seq<Field> :=
    [Field(4, '-'), Field(2, '-'), Field(2, 'T'), Field(2, ':'), Field(2, ':'), Field(2, '.'), Field(9, 'Z')]

  function Values(t: Timestamp): seq<nat> {
    [t.year, t.month, t.day, t.hour, t.minute, t.second, t.nanos]
  }

  function TimestampToDb(t: Timestamp): string {
    PrintFields(TIMESTAMP_LAYOUT, Values(t))
  }

  // The decoder.

  /** Z in either case, or a numeric offset: a sign, hours and minutes. */
  datatype Zone = Zulu(letter: char) | Numeric(sign: char, hours: nat, minutes: nat)

  /** A date-time as it is spelled; an empty fraction is an absent one. */
  datatype Spelling = Spelling(
    year: nat, month: nat, day: nat, separator: char, hour: nat, minute: nat, second: nat, fraction: string, zone: Zone)

  const MINUS_SIGN := '\U{2212}'

  predicate ValidZone(z: Zone) {
    match z
    case Zulu(letter) => letter == 'Z' || letter == 'z'
    case Numeric(sign, hours, minutes) => sign in ['+', '-', MINUS_SIGN] && hours < 24 && minutes < 60
  }

  function OffsetMinutes(z: Zone): int {
    match z
    case Zulu(_) => 0
    case Numeric(sign, hours, minutes) => if sign == '+' then 60 * hours + minutes else -(60 * hours + minutes)
  }

  predicate IsDigit(c: char) {
    '0' <= c <= '9'
  }

  predicate AllDigits(s: string) {
    forall i :: 0 <= i < |s| ==> IsDigit(s[i])
  }

  predicate WellFormed(p: Spelling) {
    && p.year < 10_000 && p.month < 100 && p.day < 100 && p.hour < 100 && p.minute < 100 && p.second < 100
    && p.separator in ['T', 't', ' '] && AllDigits(p.fraction) && ValidZone(p.zone)
  }

  function ZoneText(z: Zone): string {
    match z
    case Zulu(letter) => [letter]
    case Numeric(sign, hours, minutes) => [sign] + (Print(hours, Decimal, 2) + (":" + Print(minutes, Decimal, 2)))
  }

  function FractionText(fraction: string): string {
    if fraction == [] then [] else "." + fraction
  }

  function TailText(fraction: string, zone: Zone): string {
    FractionText(fraction) + ZoneText(zone)
  }

  /** Everything up to the seconds. */
  function HeadLayout(separator: char): seq<Field> {
    [Field(4, '-'), Field(2, '-'), Field(2, separator), Field(2, ':'), Field(2, ':')]
  }

  function HeadValues(p: Spelling): seq<nat> {
    [p.year, p.month, p.day, p.hour, p.minute]
  }

  function Spell(p: Spelling): string {
    PrintFields(HeadLayout(p.separator), HeadValues(p)) + (Print(p.second, Decimal, 2) + TailText(p.fraction, p.zone))
  }

  /** How many digits a text starts with. */
  function DigitRun(s: string): (n: nat)
    ensures n <= |s| && AllDigits(s[..n])
  {
    if s != [] && IsDigit(s[0]) then 1 + DigitRun(s[1..]) else 0
  }

  function ParseZone(s: string): (z: Option<Zone>)
    ensures z.Some? ==> ValidZone(z.value)
  {
    if s == "Z" || s == "z" then Some(Zulu(s[0]))
    else if |s| == 6 && s[0] in ['+', '-', MINUS_SIGN] && s[3] == ':' then
      match (Parse(s[1..3], Decimal), Parse(s[4..], Decimal))
      case (Some(hours), Some(minutes)) =>
        if hours < 24 && minutes < 60 then Some(Numeric(s[0], hours, minutes)) else None
      case _ => None
    else None
  }

  /** An optional fraction of at least one digit, and the text after it. */
  function ParseFraction(s: string): (parts: Option<(string, string)>)
    ensures parts.Some? ==> AllDigits(parts.value.0)
  {
    if s != [] && s[0] == '.' then
      var digits := DigitRun(s[1..]);
      if digits == 0 then None else Some((s[1..][..digits], s[1..][digits..]))
    else Some(([], s))
  }

  function ParseTail(s: string): (tail: Option<(string, Zone)>)
    ensures tail.Some? ==> AllDigits(tail.value.0) && ValidZone(tail.value.1)
  {
    match ParseFraction(s)
    case None => None
    case Some((fraction, rest)) =>
      match ParseZone(rest)
      case Some(zone) => Some((fraction, zone))
      case None => None
  }

  function ParseSpelling(s: string): (p: Option<Spelling>)
    ensures p.Some? ==> AllDigits(p.value.fraction) && ValidZone(p.value.zone)
  {
    if |s| < 19 || s[10] !in ['T', 't', ' '] then None
    else
      match (ParseFields(HeadLayout(s[10]), s[..17]), Parse(s[17..19], Decimal), ParseTail(s[19..]))
      case (Some(v), Some(second), Some(tail)) =>
        if |v| == 5 then Some(Spelling(v[0], v[1], v[2], s[10], v[3], v[4], second, tail.0, tail.1)) else None
      case _ => None
  }

  /** Nanoseconds: the first nine digits of the fraction, padded with zeros. */
  function FractionNanos(fraction: string): (nanos: nat)
    requires AllDigits(fraction)
    ensures nanos < 1_000_000_000
  {
    NineDigitsRead(ToNine(fraction));
    Parse(ToNine(fraction), Decimal).value
  }

  /** Padded with zeros, or cut off, to nine characters. */
  function ToNine(fraction: string): (s: string)
    ensures |s| == 9 && forall i :: 0 <= i < 9 ==> s[i] == if i < |fraction| then fraction[i] else '0'
  {
    seq(9, i requires 0 <= i => if i < |fraction| then fraction[i] else '0')
  }

  /** The date and time as spelled, before the offset is taken away. */
  function LocalFields(p: Spelling): TimestampFields
    requires AllDigits(p.fraction)
  {
    Timestamp(p.year, p.month, p.day, p.hour, p.minute, p.second, FractionNanos(p.fraction))
  }

  function NextDay(t: Timestamp): Option<Timestamp> {
    if t.day < DaysInMonth(t.year, t.month) then Some(t.(day := t.day + 1))
    else if t.month < 12 then Some(t.(month := t.month + 1, day := 1))
    else if t.year < 9999 then Some(t.(year := t.year + 1, month := 1, day := 1))
    else None
  }

  function PreviousDay(t: Timestamp): Option<Timestamp> {
    if t.day > 1 then Some(t.(day := t.day - 1))
    else if t.month > 1 then Some(t.(month := t.month - 1, day := DaysInMonth(t.year, t.month - 1)))
    else if t.year > 0 then Some(t.(year := t.year - 1, month := 12, day := 31))
    else None
  }

  function WithMinuteOfDay(t: Timestamp, minute: nat): Timestamp
    requires minute < 1440
  {
    t.(hour := minute / 60, minute := minute % 60)
  }

  /** Takes the offset away; None when that leaves the years 0 to 9999. */
  function ToUtc(local: Timestamp, offset: int): Option<Timestamp>
    requires -1440 < offset < 1440
  {
    var minute := 60 * local.hour + local.minute - offset;
    if minute < 0 then
      match PreviousDay(local)
      case Some(t) => Some(WithMinuteOfDay(t, minute + 1440))
      case None => None
    else if minute < 1440 then Some(WithMinuteOfDay(local, minute))
    else
      match NextDay(local)
      case Some(t) => Some(WithMinuteOfDay(t, minute - 1440))
      case None => None
  }

  function ParseTimestamp(s: string): Option<Timestamp> {
    match ParseSpelling(s)
    case Some(p) =>
      if ValidTimestamp(LocalFields(p)) then ToUtc(LocalFields(p), OffsetMinutes(p.zone)) else None
    case None => None
  }

  lemma {:induction false} FieldsKeepOrder(layout: seq<Field>, a: seq<nat>, b: seq<nat>)
    requires Fits(layout, a) && Fits(layout, b)
    ensures TextLess(PrintFields(layout, a), PrintFields(layout, b)) <==> ValuesLess(a, b)
  {
    if layout == [] {
    } else {
      var restA, restB := PrintFields(layout[1..], a[1..]), PrintFields(layout[1..], b[1..]);
      FieldsKeepOrder(layout[1..], a[1..], b[1..]);
      var end := [layout[0].end];
      NotLessThanSelf(end);
      ConcatLess(end, end, restA, restB);
      PrintKeepsOrder(a[0], b[0], Decimal, layout[0].width);
      ConcatLess(Print(a[0], Decimal, layout[0].width), Print(b[0], Decimal, layout[0].width),
                 end + restA, end + restB);
    }
  }

  lemma PrintedHeadAndTail(layout: seq<Field>, values: seq<nat>)
    requires layout != [] && |layout| == |values|
    ensures var s, width := PrintFields(layout, values), layout[0].width;
            && |s| > width && s[width] == layout[0].end
            && s[..width] == Print(values[0], Decimal, width)
            && s[width + 1..] == PrintFields(layout[1..], values[1..])
  {
  }

  lemma {:induction false} ParseAfterPrintFields(layout: seq<Field>, values: seq<nat>)
    requires Fits(layout, values)
    ensures ParseFields(layout, PrintFields(layout, values)) == Some(values)
  {
    if layout == [] {
    } else {
      PrintedHeadAndTail(layout, values);
      ParseAfterPrint(values[0], Decimal, layout[0].width);
      ParseAfterPrintFields(layout[1..], values[1..]);
      assert [values[0]] + values[1..] == values;
    }
  }

  lemma ParsedHeadAndTail(layout: seq<Field>, s: string)
    requires layout != [] && ParseFields(layout, s).Some?
    ensures var width := layout[0].width;
            && |s| > width && s[width] == layout[0].end
            && Parse(s[..width], Decimal).Some? && ParseFields(layout[1..], s[width + 1..]).Some?
            && ParseFields(layout, s).value
               == [Parse(s[..width], Decimal).value] + ParseFields(layout[1..], s[width + 1..]).value
  {
  }

  lemma {:induction false} PrintAfterParseFields(layout: seq<Field>, s: string)
    requires ParseFields(layout, s).Some?
    ensures Fits(layout, ParseFields(layout, s).value)
    ensures PrintFields(layout, ParseFields(layout, s).value) == s
  {
    if layout == [] {
    } else {
      ParsedHeadAndTail(layout, s);
      var width := layout[0].width;
      var head, tail := s[..width], s[width + 1..];
      PrintAfterParseFields(layout[1..], tail);
      FieldText(head, width);
      PrependField(layout, Parse(head, Decimal).value, ParseFields(layout[1..], tail).value);
      HeadAndTail(s, width);
    }
  }

  lemma HeadAndTail(s: string, width: nat)
    requires width < |s|
    ensures s == s[..width] + ([s[width]] + s[width + 1..])
  {
  }

  lemma FieldText(text: string, width: nat)
    requires |text| == width && Parse(text, Decimal).Some?
    ensures Parse(text, Decimal).value < Decimal.Pow(width)
    ensures Print(Parse(text, Decimal).value, Decimal, width) == text
  {
    PrintAfterParse(text, Decimal);
    DecimalTextIsLower(text);
  }

  lemma PrependField(layout: seq<Field>, first: nat, rest: seq<nat>)
    requires layout != [] && Fits(layout[1..], rest) && first < Decimal.Pow(layout[0].width)
    ensures Fits(layout, [first] + rest)
    ensures PrintFields(layout, [first] + rest)
         == Print(first, Decimal, layout[0].width) + ([layout[0].end] + PrintFields(layout[1..], rest))
  {
    assert ([first] + rest)[1..] == rest;
    forall i | 0 < i < |layout| ensures ([first] + rest)[i] < Decimal.Pow(layout[i].width) {
      assert rest[i - 1] < Decimal.Pow(layout[1..][i - 1].width);
    }
  }

  lemma TimestampFits(t: Timestamp)
    ensures Fits(TIMESTAMP_LAYOUT, Values(t))
  {
    assert Decimal.Pow(2) == 100 && Decimal.Pow(4) == 10_000;
    assert Decimal.Pow(7) == 10_000_000;
    assert Decimal.Pow(9) == 1_000_000_000;
  }

  /** Text order is time order: section 5.1 of RFC 3339. */
  lemma TimestampTextKeepsOrder(t: Timestamp, u: Timestamp)
    ensures TextLess(TimestampToDb(t), TimestampToDb(u)) <==> Earlier(t, u)
  {
    TimestampFits(t);
    TimestampFits(u);
    FieldsKeepOrder(TIMESTAMP_LAYOUT, Values(t), Values(u));
    FieldOrder(Values(t), Values(u));
  }

  lemma FieldOrder(a: seq<nat>, b: seq<nat>)
    requires |a| == |b| == 7
    ensures ValuesLess(a, b) <==>
            if a[0] != b[0] then a[0] < b[0]
            else if a[1] != b[1] then a[1] < b[1]
            else if a[2] != b[2] then a[2] < b[2]
            else if a[3] != b[3] then a[3] < b[3]
            else if a[4] != b[4] then a[4] < b[4]
            else if a[5] != b[5] then a[5] < b[5]
            else a[6] < b[6]
  {
    assert ValuesLess(a[5..], b[5..]) <==> a[5] < b[5] || (a[5] == b[5] && a[6] < b[6]) by {
      assert a[5..][1..] == a[6..] && b[5..][1..] == b[6..];
      assert ValuesLess(a[6..], b[6..]) <==> a[6] < b[6];
    }
    assert a[4..][1..] == a[5..] && b[4..][1..] == b[5..];
    assert a[3..][1..] == a[4..] && b[3..][1..] == b[4..];
    assert a[2..][1..] == a[3..] && b[2..][1..] == b[3..];
    assert a[1..][1..] == a[2..] && b[1..][1..] == b[2..];
    assert ValuesLess(a[4..], b[4..]) <==> a[4] < b[4] || (a[4] == b[4] && ValuesLess(a[5..], b[5..]));
    assert ValuesLess(a[3..], b[3..]) <==> a[3] < b[3] || (a[3] == b[3] && ValuesLess(a[4..], b[4..]));
    assert ValuesLess(a[2..], b[2..]) <==> a[2] < b[2] || (a[2] == b[2] && ValuesLess(a[3..], b[3..]));
    assert ValuesLess(a[1..], b[1..]) <==> a[1] < b[1] || (a[1] == b[1] && ValuesLess(a[2..], b[2..]));
  }

  // Reading inverts spelling.

  lemma TwoDigits(n: nat)
    requires n < 100
    ensures Parse(Print(n, Decimal, 2), Decimal) == Some(n)
  {
    assert Decimal.Pow(2) == 100;
    ParseAfterPrint(n, Decimal, 2);
  }

  lemma TwoDigitText(s: string)
    requires |s| == 2 && Parse(s, Decimal).Some?
    ensures Parse(s, Decimal).value < 100 && Print(Parse(s, Decimal).value, Decimal, 2) == s
  {
    assert Decimal.Pow(2) == 100;
    FieldText(s, 2);
  }

  lemma ZoneReads(z: Zone)
    requires ValidZone(z)
    ensures ParseZone(ZoneText(z)) == Some(z)
  {
    if z.Numeric? {
      TwoDigits(z.hours);
      TwoDigits(z.minutes);
      var s := ZoneText(z);
      assert s[1..3] == Print(z.hours, Decimal, 2) && s[4..] == Print(z.minutes, Decimal, 2);
    }
  }

  lemma ZoneSpelled(s: string)
    requires ParseZone(s).Some?
    ensures ValidZone(ParseZone(s).value) && ZoneText(ParseZone(s).value) == s
  {
    if |s| == 6 {
      TwoDigitText(s[1..3]);
      TwoDigitText(s[4..]);
      assert s == [s[0]] + (s[1..3] + (":" + s[4..]));
    }
  }

  lemma {:induction false} DigitRunOf(digits: string, rest: string)
    requires AllDigits(digits) && (rest == [] || !IsDigit(rest[0]))
    ensures DigitRun(digits + rest) == |digits|
  {
    if digits == [] {
      assert digits + rest == rest;
    } else {
      assert (digits + rest)[0] == digits[0] && (digits + rest)[1..] == digits[1..] + rest;
      DigitRunOf(digits[1..], rest);
    }
  }

  lemma ZoneStart(z: Zone)
    requires ValidZone(z)
    ensures ZoneText(z) != [] && !IsDigit(ZoneText(z)[0]) && ZoneText(z)[0] != '.'
  {
  }

  lemma FractionReads(fraction: string, rest: string)
    requires AllDigits(fraction) && rest != [] && !IsDigit(rest[0]) && rest[0] != '.'
    ensures ParseFraction(FractionText(fraction) + rest) == Some((fraction, rest))
  {
    if fraction == [] {
      assert [] + rest == rest;
    } else {
      var s := FractionText(fraction) + rest;
      assert s[0] == '.' && s[1..] == fraction + rest;
      DigitRunOf(fraction, rest);
      assert (fraction + rest)[..|fraction|] == fraction && (fraction + rest)[|fraction|..] == rest;
    }
  }

  lemma FractionSpelled(s: string)
    requires ParseFraction(s).Some?
    ensures var (fraction, rest) := ParseFraction(s).value; AllDigits(fraction) && FractionText(fraction) + rest == s
  {
    if s != [] && s[0] == '.' {
      var digits := DigitRun(s[1..]);
      assert s == "." + s[1..] && s[1..] == s[1..][..digits] + s[1..][digits..];
      assert s == ("." + s[1..][..digits]) + s[1..][digits..];
    } else {
      assert [] + s == s;
    }
  }

  lemma TailReads(fraction: string, zone: Zone)
    requires AllDigits(fraction) && ValidZone(zone)
    ensures ParseTail(TailText(fraction, zone)) == Some((fraction, zone))
  {
    ZoneReads(zone);
    ZoneStart(zone);
    FractionReads(fraction, ZoneText(zone));
  }

  lemma TailSpelled(s: string)
    requires ParseTail(s).Some?
    ensures var (fraction, zone) := ParseTail(s).value;
            AllDigits(fraction) && ValidZone(zone) && TailText(fraction, zone) == s
  {
    FractionSpelled(s);
    ZoneSpelled(ParseFraction(s).value.1);
  }

  lemma HeadFits(p: Spelling)
    requires WellFormed(p)
    ensures Fits(HeadLayout(p.separator), HeadValues(p))
  {
    assert Decimal.Pow(2) == 100 && Decimal.Pow(4) == 10_000;
  }

  function LayoutWidth(layout: seq<Field>): nat {
    if layout == [] then 0 else layout[0].width + 1 + LayoutWidth(layout[1..])
  }

  lemma {:induction false} PrintedWidth(layout: seq<Field>, values: seq<nat>)
    requires |layout| == |values|
    ensures |PrintFields(layout, values)| == LayoutWidth(layout)
  {
    if layout == [] {
    } else {
      PrintedWidth(layout[1..], values[1..]);
    }
  }

  lemma HeadWidth(separator: char)
    ensures LayoutWidth(HeadLayout(separator)) == 17
  {
    var layout := HeadLayout(separator);
    assert layout[1..] == [Field(2, '-'), Field(2, separator), Field(2, ':'), Field(2, ':')];
    assert layout[1..][1..] == [Field(2, separator), Field(2, ':'), Field(2, ':')];
    assert layout[1..][1..][1..] == [Field(2, ':'), Field(2, ':')];
    assert LayoutWidth([Field(2, ':'), Field(2, ':')]) == 6;
    assert LayoutWidth(layout[1..][1..]) == 9;
    assert LayoutWidth(layout[1..]) == 12;
  }

  /** The separator stands at a fixed place. */
  lemma SeparatorAt(separator: char, values: seq<nat>)
    requires |values| == 5
    ensures |PrintFields(HeadLayout(separator), values)| == 17
    ensures PrintFields(HeadLayout(separator), values)[10] == separator
  {
    var layout := HeadLayout(separator);
    PrintedWidth(layout, values);
    HeadWidth(separator);
    PrintedHeadAndTail(layout, values);
    PrintedHeadAndTail(layout[1..], values[1..]);
    PrintedHeadAndTail(layout[1..][1..], values[1..][1..]);
    var s := PrintFields(layout, values);
    assert s[5..][3..][2] == s[10];
  }

  lemma PartsOfText(head: string, seconds: string, tail: string)
    requires |head| == 17 && |seconds| == 2
    ensures var s := head + (seconds + tail);
            s[..17] == head && s[17..19] == seconds && s[19..] == tail && s[10] == head[10]
  {
  }

  lemma TextOfParts(s: string)
    requires |s| >= 19
    ensures s == s[..17] + (s[17..19] + s[19..])
  {
  }

  lemma ReadFromParts(s: string, p: Spelling)
    requires |s| >= 19 && s[10] == p.separator && p.separator in ['T', 't', ' '] && ValidZone(p.zone)
    requires ParseFields(HeadLayout(p.separator), s[..17]) == Some(HeadValues(p))
    requires Parse(s[17..19], Decimal) == Some(p.second) && ParseTail(s[19..]) == Some((p.fraction, p.zone))
    ensures ParseSpelling(s) == Some(p)
  {
  }

  lemma SpellingReads(p: Spelling)
    requires WellFormed(p)
    ensures ParseSpelling(Spell(p)) == Some(p)
  {
    SeparatorAt(p.separator, HeadValues(p));
    PartsOfText(PrintFields(HeadLayout(p.separator), HeadValues(p)),
                Print(p.second, Decimal, 2), TailText(p.fraction, p.zone));
    HeadFits(p);
    ParseAfterPrintFields(HeadLayout(p.separator), HeadValues(p));
    TwoDigits(p.second);
    TailReads(p.fraction, p.zone);
    ReadFromParts(Spell(p), p);
  }

  lemma SpelledHead(separator: char, head: string)
    requires ParseFields(HeadLayout(separator), head).Some?
    ensures var v := ParseFields(HeadLayout(separator), head).value;
            && |v| == 5 && v[0] < 10_000 && v[1] < 100 && v[2] < 100 && v[3] < 100 && v[4] < 100
            && PrintFields(HeadLayout(separator), v) == head
  {
    assert Decimal.Pow(2) == 100 && Decimal.Pow(4) == 10_000;
    PrintAfterParseFields(HeadLayout(separator), head);
    var v := ParseFields(HeadLayout(separator), head).value;
    assert v[1] < Decimal.Pow(HeadLayout(separator)[1].width);
  }

  /** The three parts of a text that is read. */
  lemma ReadParts(s: string)
    requires ParseSpelling(s).Some?
    ensures |s| >= 19
    ensures ParseFields(HeadLayout(s[10]), s[..17]).Some? && Parse(s[17..19], Decimal).Some? && ParseTail(s[19..]).Some?
    ensures var p, v := ParseSpelling(s).value, ParseFields(HeadLayout(s[10]), s[..17]).value;
            && |v| == 5 && HeadValues(p) == v
            && p.separator == s[10] && s[10] in ['T', 't', ' ']
            && p.second == Parse(s[17..19], Decimal).value && (p.fraction, p.zone) == ParseTail(s[19..]).value
  {
  }

  lemma SpelledFromParts(p: Spelling, head: string, seconds: string, tail: string)
    requires PrintFields(HeadLayout(p.separator), HeadValues(p)) == head
    requires Print(p.second, Decimal, 2) == seconds && TailText(p.fraction, p.zone) == tail
    ensures Spell(p) == head + (seconds + tail)
  {
  }

  lemma ReadIsSpelled(s: string)
    requires ParseSpelling(s).Some?
    ensures WellFormed(ParseSpelling(s).value) && Spell(ParseSpelling(s).value) == s
  {
    ReadParts(s);
    SpelledHead(s[10], s[..17]);
    TwoDigitText(s[17..19]);
    TailSpelled(s[19..]);
    TextOfParts(s);
    SpelledFromParts(ParseSpelling(s).value, s[..17], s[17..19], s[19..]);
  }

  /** The reader accepts exactly the date-times of the grammar, and knows each part of what it reads. */
  lemma SpellingRoundTrip(s: string, p: Spelling)
    ensures ParseSpelling(s) == Some(p) <==> WellFormed(p) && Spell(p) == s
  {
    if WellFormed(p) {
      SpellingReads(p);
    }
    if ParseSpelling(s) == Some(p) {
      ReadIsSpelled(s);
    }
  }

  /** The one spelling that the encoder writes. */
  function Canonical(t: Timestamp): Spelling {
    Spelling(t.year, t.month, t.day, 'T', t.hour, t.minute, t.second, Print(t.nanos, Decimal, 9), Zulu('Z'))
  }

  lemma Regroup(x: string, y: string, a: string, b: string)
    ensures x + (y + (a + b)) == (x + (y + a)) + b
  {
  }

  lemma PrintFirst(layout: seq<Field>, values: seq<nat>, rest: seq<Field>, restValues: seq<nat>)
    requires |layout| == |values| && layout != [] && rest == layout[1..] && restValues == values[1..]
    ensures PrintFields(layout, values)
         == Print(values[0], Decimal, layout[0].width) + ([layout[0].end] + PrintFields(rest, restValues))
  {
  }

  lemma {:induction false} PrintFieldsSplit(a: seq<Field>, u: seq<nat>, b: seq<Field>, v: seq<nat>)
    requires |a| == |u| && |b| == |v|
    ensures PrintFields(a + b, u + v) == PrintFields(a, u) + PrintFields(b, v)
  {
    if a == [] {
      assert a + b == b && u + v == v;
    } else {
      assert (a + b)[1..] == a[1..] + b && (u + v)[1..] == u[1..] + v;
      PrintFirst(a + b, u + v, a[1..] + b, u[1..] + v);
      PrintFirst(a, u, a[1..], u[1..]);
      PrintFieldsSplit(a[1..], u[1..], b, v);
      Regroup(Print(u[0], Decimal, a[0].width), [a[0].end], PrintFields(a[1..], u[1..]), PrintFields(b, v));
    }
  }

  lemma LastFields(second: nat, nanos: nat)
    ensures PrintFields([Field(2, '.'), Field(9, 'Z')], [second, nanos])
         == Print(second, Decimal, 2) + ("." + (Print(nanos, Decimal, 9) + "Z"))
  {
    var last := [Field(9, 'Z')];
    assert PrintFields(last, [nanos]) == Print(nanos, Decimal, 9) + "Z";
    assert [Field(2, '.'), Field(9, 'Z')][1..] == last && [second, nanos][1..] == [nanos];
  }

  lemma {:induction false} PrintedDigits(n: nat, width: nat)
    ensures AllDigits(Print(n, Decimal, width))
  {
    if width == 0 {
    } else {
      PrintedDigits(n / 10, width - 1);
    }
  }

  /** What the encoder writes is one of the spellings that the decoder reads. */
  lemma EncoderSpells(t: Timestamp)
    ensures WellFormed(Canonical(t)) && TimestampToDb(t) == Spell(Canonical(t))
  {
    PrintedDigits(t.nanos, 9);
    var digits := Print(t.nanos, Decimal, 9);
    assert |digits| == 9;
    PrintFieldsSplit(HeadLayout('T'), HeadValues(Canonical(t)), [Field(2, '.'), Field(9, 'Z')], [t.second, t.nanos]);
    assert TIMESTAMP_LAYOUT == HeadLayout('T') + [Field(2, '.'), Field(9, 'Z')];
    assert Values(t) == HeadValues(Canonical(t)) + [t.second, t.nanos];
    LastFields(t.second, t.nanos);
    assert "." + (digits + "Z") == ("." + digits) + "Z";
  }

  lemma NineDigits(n: nat)
    requires n < 1_000_000_000
    ensures AllDigits(Print(n, Decimal, 9)) && FractionNanos(Print(n, Decimal, 9)) == n
  {
    PrintedDigits(n, 9);
    assert Decimal.Pow(7) == 10_000_000;
    assert Decimal.Pow(9) == 1_000_000_000;
    ParseAfterPrint(n, Decimal, 9);
    assert ToNine(Print(n, Decimal, 9)) == Print(n, Decimal, 9);
  }

  lemma {:induction false} DigitsRead(s: string)
    requires AllDigits(s)
    ensures Parse(s, Decimal).Some?
  {
    if s == [] {
    } else {
      DigitsRead(s[..|s| - 1]);
      assert IsDigit(s[|s| - 1]);
    }
  }

  lemma NineDigitsRead(s: string)
    requires |s| == 9 && AllDigits(s)
    ensures Parse(s, Decimal).Some? && Parse(s, Decimal).value < 1_000_000_000
  {
    assert Decimal.Pow(7) == 10_000_000;
    assert Decimal.Pow(9) == 1_000_000_000;
    DigitsRead(s);
    FieldText(s, 9);
  }

  /** Reading an encoded timestamp gives it back. */
  lemma TimestampParsesBack(t: Timestamp)
    ensures ParseTimestamp(TimestampToDb(t)) == Some(t)
  {
    EncoderSpells(t);
    SpellingReads(Canonical(t));
    NineDigits(t.nanos);
    assert (60 * t.hour + t.minute) / 60 == t.hour && (60 * t.hour + t.minute) % 60 == t.minute;
  }

  // The texts themselves.

  /** The written form, piece by piece. */
  lemma TimestampShape(t: Timestamp)
    ensures TimestampToDb(t) ==
            Print(t.year, Decimal, 4) + ("-" + (Print(t.month, Decimal, 2) + ("-" + (Print(t.day, Decimal, 2)
            + ("T" + (Print(t.hour, Decimal, 2) + (":" + (Print(t.minute, Decimal, 2) + (":"
            + (Print(t.second, Decimal, 2) + ("." + (Print(t.nanos, Decimal, 9) + "Z"))))))))))))
  {
    var f, v := TIMESTAMP_LAYOUT, Values(t);
    PrintFirst(f, v, f[1..], v[1..]);
    PrintFirst(f[1..], v[1..], f[2..], v[2..]);
    PrintFirst(f[2..], v[2..], f[3..], v[3..]);
    PrintFirst(f[3..], v[3..], f[4..], v[4..]);
    PrintFirst(f[4..], v[4..], f[5..], v[5..]);
    assert f[5..] == [Field(2, '.'), Field(9, 'Z')] && v[5..] == [t.second, t.nanos];
    LastFields(t.second, t.nanos);
  }

  function Zeros(k: nat): (s: string)
    ensures |s| == k && forall i :: 0 <= i < k ==> s[i] == '0'
  {
    if k == 0 then [] else Zeros(k - 1) + "0"
  }

  lemma {:induction false} ZerosMultiply(digits: string, k: nat)
    requires Parse(digits, Decimal).Some?
    ensures Parse(digits + Zeros(k), Decimal) == Some(Parse(digits, Decimal).value * Decimal.Pow(k))
  {
    if k == 0 {
      assert digits + Zeros(0) == digits;
    } else {
      ZerosMultiply(digits, k - 1);
      assert digits + Zeros(k) == (digits + Zeros(k - 1)) + ['0'];
      ParseLast(digits + Zeros(k - 1), '0', Decimal);
      assert Decimal.Pow(k) == 10 * Decimal.Pow(k - 1);
      TimesTen(Parse(digits, Decimal).value, Decimal.Pow(k - 1));
    }
  }

  lemma TimesTen(a: nat, b: nat)
    ensures 10 * (a * b) == a * (10 * b)
  {
  }

  lemma PaddedShort(fraction: string)
    requires |fraction| <= 9
    ensures ToNine(fraction) == fraction + Zeros(9 - |fraction|)
  {
  }

  /** Up to nine digits the fraction is exact. */
  lemma FractionMeans(fraction: string, value: nat)
    requires AllDigits(fraction) && |fraction| <= 9 && Parse(fraction, Decimal) == Some(value)
    ensures FractionNanos(fraction) == value * Decimal.Pow(9 - |fraction|)
  {
    PaddedShort(fraction);
    ZerosMultiply(fraction, 9 - |fraction|);
  }

  /** Digits beyond the ninth are cut off. */
  lemma LongFractionIsCut(fraction: string)
    requires AllDigits(fraction) && |fraction| > 9
    ensures AllDigits(fraction[..9]) && FractionNanos(fraction) == FractionNanos(fraction[..9])
  {
    assert ToNine(fraction) == ToNine(fraction[..9]);
  }

  lemma HeadShape(p: Spelling)
    ensures PrintFields(HeadLayout(p.separator), HeadValues(p)) ==
            Print(p.year, Decimal, 4) + ("-" + (Print(p.month, Decimal, 2) + ("-" + (Print(p.day, Decimal, 2)
            + ([p.separator] + (Print(p.hour, Decimal, 2) + (":" + (Print(p.minute, Decimal, 2) + ":"))))))))
  {
    var f, v := HeadLayout(p.separator), HeadValues(p);
    PrintFirst(f, v, f[1..], v[1..]);
    PrintFirst(f[1..], v[1..], f[2..], v[2..]);
    PrintFirst(f[2..], v[2..], f[3..], v[3..]);
    PrintFirst(f[3..], v[3..], f[4..], v[4..]);
    PrintFirst(f[4..], v[4..], [], []);
  }

  /** Any date-time of the grammar, piece by piece. */
  lemma SpellingShape(p: Spelling)
    ensures Spell(p) ==
            (Print(p.year, Decimal, 4) + ("-" + (Print(p.month, Decimal, 2) + ("-" + (Print(p.day, Decimal, 2)
             + ([p.separator] + (Print(p.hour, Decimal, 2) + (":" + (Print(p.minute, Decimal, 2) + ":")))))))))
            + (Print(p.second, Decimal, 2) + ((if p.fraction == "" then "" else "." + p.fraction)
            + match p.zone
              case Zulu(letter) => [letter]
              case Numeric(sign, hours, minutes) =>
                [sign] + (Print(hours, Decimal, 2) + (":" + Print(minutes, Decimal, 2)))))
  {
    HeadShape(p);
  }

  lemma ReadAs(p: Spelling, local: Timestamp)
    requires WellFormed(p) && LocalFields(p) == local
    ensures ParseTimestamp(Spell(p)) == ToUtc(local, OffsetMinutes(p.zone))
  {
    SpellingReads(p);
  }

  lemma HalfASecond()
    ensures FractionNanos("5") == 500_000_000 && FractionNanos("") == 0
  {
    var five: string := "5";
    assert five[..0] == "" && DigitValue(five[0]) == Some(5);
    assert Parse("", Decimal) == Some(0) && Parse("5", Decimal) == Some(5);
    FractionMeans("5", 5);
    FractionMeans("", 0);
    assert Decimal.Pow(5) == 100_000 && Decimal.Pow(8) == 100_000_000;
  }

  lemma EastIsSubtracted()
    ensures ToUtc(TimestampFields.Timestamp(2025, 3, 31, 14, 0, 0, 500_000_000), 120)
         == Some(TimestampFields.Timestamp(2025, 3, 31, 12, 0, 0, 500_000_000))
  {
  }

  /** An offset east of Greenwich is taken away; half a second is half a second. */
  lemma EastExample(p: Spelling)
    requires p == Spelling(2025, 3, 31, 'T', 14, 0, 0, "5", Numeric('+', 2, 0))
    ensures ParseTimestamp(Spell(p)) == Some(TimestampFields.Timestamp(2025, 3, 31, 12, 0, 0, 500_000_000))
  {
    HalfASecond();
    ReadAs(p, TimestampFields.Timestamp(2025, 3, 31, 14, 0, 0, 500_000_000));
    EastIsSubtracted();
  }

  lemma WestIsAdded()
    ensures ToUtc(TimestampFields.Timestamp(2025, 3, 31, 22, 30, 0, 0), -180)
         == Some(TimestampFields.Timestamp(2025, 4, 1, 1, 30, 0, 0))
  {
  }

  /** One west of Greenwich is added, here into the next month; a blank separates as well as T. */
  lemma WestExample(p: Spelling)
    requires p == Spelling(2025, 3, 31, ' ', 22, 30, 0, "", Numeric('-', 3, 0))
    ensures ParseTimestamp(Spell(p)) == Some(TimestampFields.Timestamp(2025, 4, 1, 1, 30, 0, 0))
  {
    HalfASecond();
    ReadAs(p, TimestampFields.Timestamp(2025, 3, 31, 22, 30, 0, 0));
    WestIsAdded();
  }

  lemma TwoDigitsRead(s: string)
    requires |s| == 2 && AllDigits(s)
    ensures Parse(s, Decimal) == Some(10 * (s[0] as nat - '0' as nat) + (s[1] as nat - '0' as nat))
  {
    assert s[..1][..0] == [] && s[..1][0] == s[0];
    ParseLast([], s[0], Decimal);
    ParseLast(s[..1], s[1], Decimal);
    assert s == s[..1] + [s[1]] && s[..1] == [] + [s[0]];
  }

  lemma OffsetReads(s: string, hours: string, minutes: string)
    requires |s| == 6 && s[1..3] == hours && s[3] == ':' && s[4..] == minutes && AllDigits(hours) && AllDigits(minutes)
    ensures var h := 10 * (hours[0] as nat - '0' as nat) + (hours[1] as nat - '0' as nat);
            var m := 10 * (minutes[0] as nat - '0' as nat) + (minutes[1] as nat - '0' as nat);
            ParseZone(s) ==
              if s[0] as int in {0x2B, 0x2D, 0x2212} && h <= 23 && m <= 59 then Some(Numeric(s[0], h, m)) else None
  {
    TwoDigitsRead(hours);
    TwoDigitsRead(minutes);
  }

  /** UTC in both cases, and the largest offsets. */
  lemma ZonesRead()
    ensures ParseZone("Z") == Some(Zulu('Z')) && ParseZone("z") == Some(Zulu('z'))
    ensures ParseZone("+23:59") == Some(Numeric('+', 23, 59)) && ParseZone("-23:59") == Some(Numeric('-', 23, 59))
  {
    OffsetReads("+23:59", "23", "59");
    OffsetReads("-23:59", "23", "59");
  }

  /** Offsets that are too large. */
  lemma ZonesRefused()
    ensures ParseZone("+24:00") == None && ParseZone("+00:60") == None
  {
    OffsetReads("+24:00", "24", "00");
    OffsetReads("+00:60", "00", "60");
  }
}
