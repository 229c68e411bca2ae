/**
 Text as the database compares it: character by character, a proper prefix
 first. Fixed-width decimal and hexadecimal numbers keep their order as text
 and can be read back.
 */
module Text {
  import opened Wrappers

  predicate TextLess(a: string, b: string) {
    b != [] && (a == [] || a[0] < b[0] || (a[0] == b[0] && TextLess(a[1..], b[1..])))
  }

  datatype Radix = Decimal | Hex {
    function Times(n: nat): nat {
      if Decimal? then 10 * n else 16 * n
    }

    function Quotient(n: nat): nat {
      if Decimal? then n / 10 else n / 16
    }

    function LastDigit(n: nat): (d: nat)
      ensures d < Times(1) <= 16
      ensures n == Times(Quotient(n)) + d
    {
      if Decimal? then n % 10 else n % 16
    }

    function Pow(width: nat): nat {
      if width == 0 then 1 else Times(Pow(width - 1))
    }
  }

  function DigitChar(d: nat): char
    requires d < 16
  {
    (if d < 10 then '0' as int + d else 'a' as int + d - 10) as char
  }

  /** Hexadecimal digits are read in either case, as section 4 of RFC 9562 asks. */
  function DigitValue(c: char): Option<nat> {
    if '0' <= c <= '9' then Some(c as nat - '0' as nat)
    else if 'a' <= c <= 'f' then Some(c as nat - 'a' as nat + 10)
    else if 'A' <= c <= 'F' then Some(c as nat - 'A' as nat + 10)
    else None
  }

  /** The last `width` digits of n, most significant first. */
  function Print(n: nat, radix: Radix, width: nat): (s: string)
    ensures |s| == width
  {
    if width == 0 then [] else Print(radix.Quotient(n), radix, width - 1) + [DigitChar(radix.LastDigit(n))]
  }

  function PushDigit(high: Option<nat>, low: Option<nat>, radix: Radix): Option<nat> {
    match (high, low)
    case (Some(h), Some(l)) => if l < radix.Times(1) then Some(radix.Times(h) + l) else None
    case _ => None
  }

  function Parse(s: string, radix: Radix): Option<nat> {
    if s == [] then Some(0) else PushDigit(Parse(s[..|s| - 1], radix), DigitValue(s[|s| - 1]), radix)
  }

  function LowerChar(c: char): char {
    if 'A' <= c <= 'F' then DigitChar(c as nat - 'A' as nat + 10) else c
  }

  function Lower(s: string): string {
    if s == [] then [] else Lower(s[..|s| - 1]) + [LowerChar(s[|s| - 1])]
  }

  lemma DigitReads(d: nat)
    requires d < 16
    ensures DigitValue(DigitChar(d)) == Some(d)
  {
  }

  lemma PushLast(n: nat, radix: Radix)
    ensures PushDigit(Some(radix.Quotient(n)), DigitValue(DigitChar(radix.LastDigit(n))), radix) == Some(n)
  {
    DigitReads(radix.LastDigit(n));
  }

  lemma {:induction false} ParseAfterPrint(n: nat, radix: Radix, width: nat)
    requires n < radix.Pow(width)
    ensures Parse(Print(n, radix, width), radix) == Some(n)
  {
    if width == 0 {
    } else {
      QuotientFits(n, radix, width);
      ParseAfterPrint(radix.Quotient(n), radix, width - 1);
      ParseLast(Print(radix.Quotient(n), radix, width - 1), DigitChar(radix.LastDigit(n)), radix);
      PushLast(n, radix);
    }
  }

  lemma PrintSnoc(high: nat, low: nat, radix: Radix, width: nat)
    requires low < radix.Times(1)
    ensures Print(radix.Times(high) + low, radix, width + 1) == Print(high, radix, width) + [DigitChar(low)]
  {
  }

  /** Whatever is read as a number is that number's printed form, up to the case of hexadecimal digits. */
  lemma {:induction false} PrintAfterParse(s: string, radix: Radix)
    requires Parse(s, radix).Some?
    ensures Parse(s, radix).value < radix.Pow(|s|)
    ensures Print(Parse(s, radix).value, radix, |s|) == Lower(s)
  {
    if s == [] {
    } else {
      var init, low := s[..|s| - 1], DigitValue(s[|s| - 1]).value;
      PrintAfterParse(init, radix);
      PrintSnoc(Parse(init, radix).value, low, radix, |init|);
      assert LowerChar(s[|s| - 1]) == DigitChar(low);
    }
  }

  /** A prefix of common length decides unless it is shared. */
  lemma {:induction false} ConcatLess(a: string, b: string, c: string, d: string)
    requires |a| == |b|
    ensures TextLess(a + c, b + d) <==> TextLess(a, b) || (a == b && TextLess(c, d))
  {
    if a == [] {
      assert a + c == c && b + d == d;
    } else {
      assert (a + c)[1..] == a[1..] + c && (b + d)[1..] == b[1..] + d;
      ConcatLess(a[1..], b[1..], c, d);
      assert a == b <==> a[0] == b[0] && a[1..] == b[1..];
    }
  }

  lemma {:induction false} NotLessThanSelf(a: string)
    ensures !TextLess(a, a)
  {
    if a == [] {
    } else {
      NotLessThanSelf(a[1..]);
    }
  }

  lemma LastCharDecides(a: string, b: string, c: char, d: char)
    requires |a| == |b|
    ensures TextLess(a + [c], b + [d]) <==> TextLess(a, b) || (a == b && c < d)
  {
    ConcatLess(a, b, [c], [d]);
    assert !TextLess([], []);
    assert TextLess([c], [d]) <==> c < d;
  }

  lemma QuotientDecides(n: nat, m: nat, radix: Radix)
    ensures n < m <==>
            || radix.Quotient(n) < radix.Quotient(m)
            || (radix.Quotient(n) == radix.Quotient(m) && radix.LastDigit(n) < radix.LastDigit(m))
  {
  }

  lemma DigitsCompare(d: nat, e: nat)
    requires d < 16 && e < 16
    ensures DigitChar(d) < DigitChar(e) <==> d < e
  {
  }

  lemma QuotientFits(n: nat, radix: Radix, width: nat)
    requires width > 0 && n < radix.Pow(width)
    ensures radix.Quotient(n) < radix.Pow(width - 1)
  {
  }

  /** Fixed-width printing preserves and reflects the order of numbers. */
  lemma {:induction false} PrintKeepsOrder(n: nat, m: nat, radix: Radix, width: nat)
    requires n < radix.Pow(width) && m < radix.Pow(width)
    ensures TextLess(Print(n, radix, width), Print(m, radix, width)) <==> n < m
    ensures Print(n, radix, width) == Print(m, radix, width) <==> n == m
  {
    PrintIsInjective(n, m, radix, width);
    if width == 0 {
    } else {
      var q, p, d, e := radix.Quotient(n), radix.Quotient(m), radix.LastDigit(n), radix.LastDigit(m);
      QuotientFits(n, radix, width);
      QuotientFits(m, radix, width);
      PrintKeepsOrder(q, p, radix, width - 1);
      LastCharDecides(Print(q, radix, width - 1), Print(p, radix, width - 1), DigitChar(d), DigitChar(e));
      DigitsCompare(d, e);
      QuotientDecides(n, m, radix);
    }
  }

  lemma PrintIsInjective(n: nat, m: nat, radix: Radix, width: nat)
    requires n < radix.Pow(width) && m < radix.Pow(width)
    ensures Print(n, radix, width) == Print(m, radix, width) <==> n == m
  {
    ParseAfterPrint(n, radix, width);
    ParseAfterPrint(m, radix, width);
  }

  lemma {:induction false} LowerIsPointwise(s: string)
    ensures |Lower(s)| == |s| && forall i :: 0 <= i < |s| ==> Lower(s)[i] == LowerChar(s[i])
  {
    if s == [] {
    } else {
      LowerIsPointwise(s[..|s| - 1]);
    }
  }

  lemma DigitIgnoresCase(c: char)
    ensures DigitValue(LowerChar(c)) == DigitValue(c)
  {
  }

  lemma ParseLast(init: string, last: char, radix: Radix)
    ensures Parse(init + [last], radix) == PushDigit(Parse(init, radix), DigitValue(last), radix)
  {
    assert (init + [last])[..|init|] == init;
  }

  /** Reading a hexadecimal number ignores case. */
  lemma {:induction false} ParseIgnoresCase(s: string, radix: Radix)
    ensures Parse(Lower(s), radix) == Parse(s, radix)
  {
    if s == [] {
    } else {
      var init, last := s[..|s| - 1], s[|s| - 1];
      ParseIgnoresCase(init, radix);
      DigitIgnoresCase(last);
      ParseLast(Lower(init), LowerChar(last), radix);
    }
  }

  lemma DecimalCharIsLower(c: char)
    requires DigitValue(c).Some? && DigitValue(c).value < 10
    ensures LowerChar(c) == c
  {
  }

  lemma {:induction false} DecimalTextIsLower(s: string)
    requires Parse(s, Decimal).Some?
    ensures Lower(s) == s
  {
    if s == [] {
    } else {
      DecimalTextIsLower(s[..|s| - 1]);
      DecimalCharIsLower(s[|s| - 1]);
    }
  }

  // What the definitions above amount to.

  /** Digits are written in lower case. */
  lemma DigitsAreLowerCase(d: nat)
    requires d < 16
    ensures DigitChar(d) == "0123456789abcdef"[d]
  {
  }

  /** Any two texts compare in exactly one way. */
  lemma {:induction false} TextOrderIsTotal(a: string, b: string)
    ensures TextLess(a, b) || a == b || TextLess(b, a)
    ensures !(TextLess(a, b) && TextLess(b, a)) && !(TextLess(a, b) && a == b)
  {
    if a == [] || b == [] {
    } else {
      TextOrderIsTotal(a[1..], b[1..]);
      assert a == [a[0]] + a[1..] && b == [b[0]] + b[1..];
    }
  }

  /** A proper prefix comes first; otherwise the first difference decides. */
  lemma TextOrderIsLexicographic(common: string, a: string, b: string)
    ensures b != [] ==> TextLess(common, common + b)
    ensures a != [] && b != [] && a[0] < b[0] ==> TextLess(common + a, common + b)
  {
    NotLessThanSelf(common);
    ConcatLess(common, common, [], b);
    ConcatLess(common, common, a, b);
    assert common + [] == common;
  }
}
