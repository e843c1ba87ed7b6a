/**
 * The text that an evidence identity is hashed from: six parts joined by bars, of which only
 * the topic may itself contain a bar.
 */
module EvidenceMaterial {
  import opened Domain
  import opened Numerals
  import Policy

  const BAR: char := '|'

  /** A fixed number of hexadecimal digits, most significant first. */
  function Hex(width: nat, value: nat): (s: string)
    ensures |s| == width
  {
    if width == 0 then "" else Hex(width - 1, value / 16) + [DigitChar(value % 16)]
  }

  function FlowIdText(id: FlowId): string {
    Hex(16, id.hi) + Hex(16, id.lo)
  }

  function Decimal(n: nat): string {
    Numeral(10, n)
  }

  function Material(e: EvidenceIdentity): string {
    e.publisher + [BAR] + (Decimal(e.boot) + [BAR] + (e.topic + [BAR] + Decimal(e.generation) + [BAR]
    + FlowIdText(e.flowId) + [BAR] + Decimal(e.flowGeneration)))
  }

  // ---- the parts ----------------------------------------------------------

  lemma DecimalInjective(m: nat, n: nat)
    requires Decimal(m) == Decimal(n)
    ensures m == n
  {
    hide Numeral;
    ValueOfNumeral(10, m);
    ValueOfNumeral(10, n);
  }

  function Sixteens(width: nat): nat {
    if width == 0 then 1 else 16 * Sixteens(width - 1)
  }

  lemma {:induction false} HexInjective(width: nat, m: nat, n: nat)
    requires m < Sixteens(width) && n < Sixteens(width) && Hex(width, m) == Hex(width, n)
    ensures m == n
  {
    hide DigitChar, CharDigit;
    if width > 0 {
      var s, t := Hex(width, m), Hex(width, n);
      assert s[..width - 1] == Hex(width - 1, m / 16) && t[..width - 1] == Hex(width - 1, n / 16);
      assert s[width - 1] == t[width - 1];
      DigitRoundTrip(m % 16);
      DigitRoundTrip(n % 16);
      HexInjective(width - 1, m / 16, n / 16);
    }
  }

  lemma {:induction false} HexIsFree(width: nat, n: nat)
    ensures Free(Hex(width, n), BAR)
  {
    hide DigitChar, CharDigit;
    if width > 0 {
      DigitRoundTrip(n % 16);
      HexIsFree(width - 1, n / 16);
    }
  }

  predicate InRange(id: FlowId) {
    id.hi < 0x1_0000_0000_0000_0000 && id.lo < 0x1_0000_0000_0000_0000
  }

  lemma SixteenDigits()
    ensures Sixteens(16) == 0x1_0000_0000_0000_0000
  {
    assert Sixteens(4) == 16 * Sixteens(3) && Sixteens(3) == 16 * Sixteens(2) && Sixteens(2) == 256;
    assert Sixteens(8) == 16 * Sixteens(7) && Sixteens(7) == 16 * Sixteens(6) && Sixteens(6) == 16 * Sixteens(5);
    assert Sixteens(5) == 16 * Sixteens(4) && Sixteens(12) == 16 * Sixteens(11) && Sixteens(11) == 16 * Sixteens(10);
    assert Sixteens(10) == 16 * Sixteens(9) && Sixteens(9) == 16 * Sixteens(8) && Sixteens(13) == 16 * Sixteens(12);
    assert Sixteens(14) == 16 * Sixteens(13) && Sixteens(15) == 16 * Sixteens(14);
  }

  lemma FlowIdTextInjective(a: FlowId, b: FlowId)
    requires InRange(a) && InRange(b) && FlowIdText(a) == FlowIdText(b)
    ensures a == b
  {
    hide Hex, Sixteens;
    SixteenDigits();
    assert FlowIdText(a)[..16] == Hex(16, a.hi) && FlowIdText(a)[16..] == Hex(16, a.lo);
    assert FlowIdText(b)[..16] == Hex(16, b.hi) && FlowIdText(b)[16..] == Hex(16, b.lo);
    HexInjective(16, a.hi, b.hi);
    HexInjective(16, a.lo, b.lo);
  }

  lemma FlowIdTextIsFree(id: FlowId)
    ensures Free(FlowIdText(id), BAR)
  {
    hide Hex;
    HexIsFree(16, id.hi);
    HexIsFree(16, id.lo);
  }

  // ---- taking the text apart ----------------------------------------------

  lemma FirstBar(a: string, b: string)
    requires Free(a, BAR)
    ensures var s := a + [BAR] + b; s[|a|] == BAR && forall i | 0 <= i < |a| :: s[i] != BAR
  {
  }

  lemma LastBar(a: string, b: string)
    requires Free(b, BAR)
    ensures var s := a + [BAR] + b; s[|a|] == BAR && forall i | |a| < i < |s| :: s[i] != BAR
  {
  }

  lemma CutAt(a: string, b: string)
    ensures var s := a + [BAR] + b; a == s[..|a|] && b == s[|a| + 1..]
  {
  }

  /** The first bar ends the same part on both sides. */
  lemma SplitFirst(a: string, b: string, c: string, d: string)
    requires Free(a, BAR) && Free(c, BAR) && a + [BAR] + b == c + [BAR] + d
    ensures a == c && b == d
  {
    FirstBar(a, b);
    FirstBar(c, d);
    CutAt(a, b);
    CutAt(c, d);
  }

  /** The last bar starts the same part on both sides. */
  lemma SplitLast(a: string, b: string, c: string, d: string)
    requires Free(b, BAR) && Free(d, BAR) && a + [BAR] + b == c + [BAR] + d
    ensures a == c && b == d
  {
    LastBar(a, b);
    LastBar(c, d);
    CutAt(a, b);
    CutAt(c, d);
  }

  lemma CanonicalIsFree(s: string)
    requires Policy.IsCanonicalIdentity(s)
    ensures Free(s, BAR)
  {
  }

  /** Two evidence identities are hashed from the same text only if they agree in every part. */
  lemma MaterialInjective(a: EvidenceIdentity, b: EvidenceIdentity)
    requires Policy.IsCanonicalIdentity(a.publisher) && Policy.IsCanonicalIdentity(b.publisher)
    requires InRange(a.flowId) && InRange(b.flowId) && Material(a) == Material(b)
    ensures a == b
  {
    hide Free, Decimal, FlowIdText, InRange, Policy.IsCanonicalIdentity;
    CanonicalIsFree(a.publisher);
    CanonicalIsFree(b.publisher);
    PartsAreFree(a);
    PartsAreFree(b);
    var a3, b3 := a.topic + [BAR] + Decimal(a.generation), b.topic + [BAR] + Decimal(b.generation);
    var a2, b2 := a3 + [BAR] + FlowIdText(a.flowId), b3 + [BAR] + FlowIdText(b.flowId);
    var a1, b1 := a2 + [BAR] + Decimal(a.flowGeneration), b2 + [BAR] + Decimal(b.flowGeneration);
    SplitFirst(a.publisher, Decimal(a.boot) + [BAR] + a1, b.publisher, Decimal(b.boot) + [BAR] + b1);
    SplitFirst(Decimal(a.boot), a1, Decimal(b.boot), b1);
    SplitLast(a2, Decimal(a.flowGeneration), b2, Decimal(b.flowGeneration));
    SplitLast(a3, FlowIdText(a.flowId), b3, FlowIdText(b.flowId));
    SplitLast(a.topic, Decimal(a.generation), b.topic, Decimal(b.generation));
    DecimalInjective(a.boot, b.boot);
    DecimalInjective(a.generation, b.generation);
    DecimalInjective(a.flowGeneration, b.flowGeneration);
    FlowIdTextInjective(a.flowId, b.flowId);
  }

  lemma PartsAreFree(e: EvidenceIdentity)
    ensures Free(Decimal(e.boot), BAR) && Free(Decimal(e.generation), BAR)
    ensures Free(Decimal(e.flowGeneration), BAR) && Free(FlowIdText(e.flowId), BAR)
  {
    hide Numeral, FlowIdText, Free;
    NumeralIsFree(10, e.boot);
    NumeralIsFree(10, e.generation);
    NumeralIsFree(10, e.flowGeneration);
    FlowIdTextIsFree(e.flowId);
  }
}
