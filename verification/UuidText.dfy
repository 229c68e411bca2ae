/** UUID text (section 4 of RFC 9562), and every spelling of a UUID that the decoder reads. */
module UuidText {
  import opened Wrappers
  import opened Domain
  import opened Text

  function Hyphenate(hex: string): (s: string)
    requires |hex| == 32
    ensures |s| == 36
  {
    hex[..8] + ("-" + (hex[8..12] + ("-" + (hex[12..16] + ("-" + (hex[16..20] + ("-" + hex[20..])))))))
  }

  function UuidToDb(uuid: Uuid): (s: string)
    ensures |s| == 36
  {
    Hyphenate(Print(uuid, Hex, 32))
  }

  function HexDigits(s: string): string
    requires |s| == 36
  {
    s[..8] + s[9..13] + s[14..18] + s[19..23] + s[24..]
  }

  function ParseHex(hex: string): Option<Uuid> {
    match Parse(hex, Hex)
    case Some(n) => if n < UUID_LIMIT then Some(n) else None
    case None => None
  }

  function ParseHyphenated(s: string): Option<Uuid>
    requires |s| == 36
  {
    if s[8] == '-' && s[13] == '-' && s[18] == '-' && s[23] == '-' then ParseHex(HexDigits(s)) else None
  }

  const URN_PREFIX := "urn:uuid:"

  /** Plain digits, or hyphenated text, which may be in braces or carry the URN prefix. */
  function ParseUuid(s: string): Option<Uuid> {
    if |s| == 32 then ParseHex(s)
    else if |s| == 36 then ParseHyphenated(s)
    else if |s| == 38 && s[0] == '{' && s[37] == '}' then ParseHyphenated(s[1..37])
    else if |s| == 45 && s[..9] == URN_PREFIX then ParseHyphenated(s[9..])
    else None
  }

  /** The texts that mean a UUID: its digits in either case, bare, hyphenated, in braces or as a URN. */
  predicate Spells(s: string, u: Uuid) {
    || Lower(s) == Print(u, Hex, 32)
    || Lower(s) == UuidToDb(u)
    || (|s| == 38 && s[0] == '{' && s[37] == '}' && Lower(s[1..37]) == UuidToDb(u))
    || (|s| == 45 && s[..9] == URN_PREFIX && Lower(s[9..]) == UuidToDb(u))
  }

  lemma HexPowers()
    ensures Hex.Pow(32) == UUID_LIMIT
  {
    assert Hex.Pow(4) == 0x1_0000;
    assert Hex.Pow(7) == 0x1000_0000;
    assert Hex.Pow(10) == 0x100_0000_0000;
    assert Hex.Pow(13) == 0x10_0000_0000_0000;
    assert Hex.Pow(16) == 0x1_0000_0000_0000_0000;
    assert Hex.Pow(19) == 0x1000_0000_0000_0000_0000;
    assert Hex.Pow(22) == 0x100_0000_0000_0000_0000_0000;
    assert Hex.Pow(25) == 0x10_0000_0000_0000_0000_0000_0000;
    assert Hex.Pow(28) == 0x1_0000_0000_0000_0000_0000_0000_0000;
    assert Hex.Pow(31) == 0x1000_0000_0000_0000_0000_0000_0000_0000;
  }

  lemma SkipHyphen(a: string, b: string)
    ensures TextLess("-" + a, "-" + b) <==> TextLess(a, b)
  {
    ConcatLess("-", "-", a, b);
    NotLessThanSelf("-");
  }

  /** Splitting two texts of one length at the same place does not change how they compare. */
  lemma SplitLess(a: string, b: string, k: nat)
    requires |a| == |b| && k <= |a|
    ensures TextLess(a, b) <==> TextLess(a[..k], b[..k]) || (a[..k] == b[..k] && TextLess(a[k..], b[k..]))
  {
    assert a == a[..k] + a[k..] && b == b[..k] + b[k..];
    ConcatLess(a[..k], b[..k], a[k..], b[k..]);
  }

  lemma HyphenStep(a: string, b: string, k: nat, restA: string, restB: string)
    requires |a| == |b| && k <= |a|
    requires TextLess(restA, restB) <==> TextLess(a[k..], b[k..])
    ensures TextLess(a[..k] + ("-" + restA), b[..k] + ("-" + restB)) <==> TextLess(a, b)
  {
    SplitLess(a, b, k);
    SkipHyphen(restA, restB);
    ConcatLess(a[..k], b[..k], "-" + restA, "-" + restB);
  }

  lemma HyphenateKeepsOrder(a: string, b: string)
    requires |a| == |b| == 32
    ensures TextLess(Hyphenate(a), Hyphenate(b)) <==> TextLess(a, b)
  {
    var a4, b4 := a[20..], b[20..];
    var a3, b3 := a[16..20] + ("-" + a4), b[16..20] + ("-" + b4);
    assert a[16..][..4] == a[16..20] && b[16..][..4] == b[16..20] && a[16..][4..] == a4 && b[16..][4..] == b4;
    HyphenStep(a[16..], b[16..], 4, a4, b4);
    var a2, b2 := a[12..16] + ("-" + a3), b[12..16] + ("-" + b3);
    assert a[12..][..4] == a[12..16] && b[12..][..4] == b[12..16] && a[12..][4..] == a[16..] && b[12..][4..] == b[16..];
    HyphenStep(a[12..], b[12..], 4, a3, b3);
    assert a[8..][..4] == a[8..12] && b[8..][..4] == b[8..12] && a[8..][4..] == a[12..] && b[8..][4..] == b[12..];
    HyphenStep(a[8..], b[8..], 4, a2, b2);
    HyphenStep(a, b, 8, a[8..12] + ("-" + a2), b[8..12] + ("-" + b2));
  }

  /** UUID text order is 128-bit order. */
  lemma UuidTextKeepsOrder(u: Uuid, v: Uuid)
    ensures TextLess(UuidToDb(u), UuidToDb(v)) <==> u < v
  {
    HexPowers();
    PrintKeepsOrder(u, v, Hex, 32);
    HyphenateKeepsOrder(Print(u, Hex, 32), Print(v, Hex, 32));
  }

  lemma UnHyphenate(hex: string)
    requires |hex| == 32
    ensures var s := Hyphenate(hex);
            && s[8] == s[13] == s[18] == s[23] == '-'
            && HexDigits(s) == hex
  {
    var s := Hyphenate(hex);
    assert s[..8] == hex[..8] && s[9..13] == hex[8..12] && s[14..18] == hex[12..16]
        && s[19..23] == hex[16..20] && s[24..] == hex[20..];
  }

  lemma HyphenateAt(hex: string, i: nat)
    requires |hex| == 32 && i < 36
    ensures Hyphenate(hex)[i] ==
            if i < 8 then hex[i] else if i == 8 then '-' else if i < 13 then hex[i - 1] else if i == 13 then '-'
            else if i < 18 then hex[i - 2] else if i == 18 then '-' else if i < 23 then hex[i - 3]
            else if i == 23 then '-' else hex[i - 4]
  {
  }

  lemma HexDigitsAt(s: string, i: nat)
    requires |s| == 36 && i < 32
    ensures HexDigits(s)[i] ==
            if i < 8 then s[i] else if i < 12 then s[i + 1] else if i < 16 then s[i + 2]
            else if i < 20 then s[i + 3] else s[i + 4]
  {
  }

  lemma HexDigitsOfLower(s: string)
    requires |s| == 36
    ensures |Lower(s)| == 36 && HexDigits(Lower(s)) == Lower(HexDigits(s))
    ensures forall i :: 0 <= i < 36 ==> (Lower(s)[i] == '-' <==> s[i] == '-')
  {
    LowerIsPointwise(s);
    LowerIsPointwise(HexDigits(s));
    forall i | 0 <= i < 32 ensures HexDigits(Lower(s))[i] == Lower(HexDigits(s))[i] {
      HexDigitsAt(s, i);
      HexDigitsAt(Lower(s), i);
    }
  }

  lemma HexRoundTrip(hex: string, u: Uuid)
    requires |hex| == 32
    ensures ParseHex(hex) == Some(u) <==> Lower(hex) == Print(u, Hex, 32)
  {
    HexPowers();
    ParseAfterPrint(u, Hex, 32);
    ParseIgnoresCase(hex, Hex);
    if Parse(hex, Hex).Some? {
      PrintAfterParse(hex, Hex);
    }
  }

  /** Hyphenated text with these digits is the hyphenation of the digits. */
  lemma HyphenateDigits(s: string)
    requires |s| == 36 && s[8] == s[13] == s[18] == s[23] == '-'
    ensures Hyphenate(HexDigits(s)) == s
  {
    forall i | 0 <= i < 36 ensures Hyphenate(HexDigits(s))[i] == s[i] {
      HyphenateAt(HexDigits(s), i);
      if i < 8 {
        HexDigitsAt(s, i);
      } else if 8 < i < 13 {
        HexDigitsAt(s, i - 1);
      } else if 13 < i < 18 {
        HexDigitsAt(s, i - 2);
      } else if 18 < i < 23 {
        HexDigitsAt(s, i - 3);
      } else if 23 < i {
        HexDigitsAt(s, i - 4);
      }
    }
  }

  lemma HyphenatedRoundTrip(s: string, u: Uuid)
    requires |s| == 36
    ensures ParseHyphenated(s) == Some(u) <==> Lower(s) == UuidToDb(u)
  {
    var lower, hex := Lower(s), Print(u, Hex, 32);
    HexDigitsOfLower(s);
    HexRoundTrip(HexDigits(s), u);
    UnHyphenate(hex);
    if ParseHyphenated(s) == Some(u) {
      HyphenateDigits(lower);
    }
  }

  /** A text decodes to a UUID exactly when it is one of the spellings of that UUID. */
  lemma UuidDecodesExactly(s: string, u: Uuid)
    ensures ParseUuid(s) == Some(u) <==> Spells(s, u)
  {
    LowerIsPointwise(s);
    if |s| == 32 {
      HexRoundTrip(s, u);
    } else if |s| == 36 {
      HyphenatedRoundTrip(s, u);
    } else if |s| == 38 {
      HyphenatedRoundTrip(s[1..37], u);
    } else if |s| == 45 {
      HyphenatedRoundTrip(s[9..], u);
    }
  }

  /** Reading a printed UUID gives it back, so distinct UUIDs have distinct text. */
  lemma UuidRoundTrip(u: Uuid)
    ensures ParseUuid(UuidToDb(u)) == Some(u)
  {
    HexPowers();
    ParseAfterPrint(u, Hex, 32);
    UnHyphenate(Print(u, Hex, 32));
  }

  lemma UuidTextIsInjective(u: Uuid, v: Uuid)
    ensures UuidToDb(u) == UuidToDb(v) <==> u == v
  {
    UuidRoundTrip(u);
    UuidRoundTrip(v);
  }

  /** Each spelling of a UUID is read. */
  lemma SpellingsRead(u: Uuid)
    ensures ParseUuid(Print(u, Hex, 32)) == Some(u)
    ensures ParseUuid("{" + UuidToDb(u) + "}") == Some(u)
    ensures ParseUuid("urn:uuid:" + UuidToDb(u)) == Some(u)
  {
    var text := UuidToDb(u);
    UuidRoundTrip(u);
    HexPowers();
    ParseAfterPrint(u, Hex, 32);
    assert ("{" + text + "}")[1..37] == text;
    assert ("urn:uuid:" + text)[..9] == "urn:uuid:" && ("urn:uuid:" + text)[9..] == text;
  }
}
