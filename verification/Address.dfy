/**
 * Address text: dotted quads for v4-mapped addresses, otherwise groups with the leftmost
 * longest run of zero groups compressed, as section 4.2 of RFC 5952 asks.
 */
module Address {
  import opened Domain
  import opened Numerals

  predicate IsV4Mapped(a: IpAddress) {
    (forall i | 0 <= i < 10 :: a[i] == 0) && a[10] == 0xFF && a[11] == 0xFF
  }

  type Group = g: nat | g < 0x1_0000

  function GroupAt(a: IpAddress, i: nat): Group
    requires i < 8
  {
    var high: nat, low: nat := a[2 * i], a[2 * i + 1];
    256 * high + low
  }

  function GroupsOf(a: IpAddress): (g: seq<Group>)
    ensures |g| == 8
  {
    seq(8, i requires 0 <= i < 8 => GroupAt(a, i))
  }

  lemma GroupsDetermine(a: IpAddress, b: IpAddress)
    requires GroupsOf(a) == GroupsOf(b)
    ensures a == b
  {
    forall k | 0 <= k < 16
      ensures a[k] == b[k]
    {
      var i := k / 2;
      assert GroupsOf(a)[i] == GroupsOf(b)[i];
      assert k == 2 * i || k == 2 * i + 1;
    }
  }

  // ---- the run to compress ------------------------------------------------

  predicate ZeroRun(g: seq<Group>, start: nat, length: nat) {
    start + length <= |g| && forall i | start <= i < start + length :: g[i] == 0
  }

  /** The longest run so far and the run now open. */
  datatype Scan = Scan(bestStart: nat, bestLength: nat, runStart: nat, runLength: nat)

  function ScanStep(s: Scan, i: nat, value: nat): Scan {
    if value != 0 then s.(runLength := 0)
    else
      var start := if s.runLength == 0 then i else s.runStart;
      var length := s.runLength + 1;
      if length > s.bestLength then Scan(start, length, start, length) else s.(runStart := start, runLength := length)
  }

  function ScanTo(g: seq<Group>, i: nat): Scan
    requires i <= |g|
  {
    if i == 0 then Scan(8, 0, 0, 0) else ScanStep(ScanTo(g, i - 1), i - 1, g[i - 1])
  }

  /** The run that is compressed: none when the longest is shorter than two. */
  function Compressed(g: seq<Group>): (nat, nat)
    requires |g| == 8
  {
    var s := ScanTo(g, 8);
    if s.bestLength < 2 then (8, 0) else (s.bestStart, s.bestLength)
  }

  /** What a scan knows: the open run is maximal, the best run leads every run seen. */
  ghost predicate ScanKnows(g: seq<Group>, s: Scan, i: nat) {
    && i <= |g|
    && s.runLength <= i && ZeroRun(g, i - s.runLength, s.runLength)
    && (s.runLength > 0 ==> s.runStart == i - s.runLength)
    && (s.runLength < i ==> g[i - s.runLength - 1] != 0)
    && (s.bestLength > 0 ==> ZeroRun(g, s.bestStart, s.bestLength) && s.bestStart + s.bestLength <= i)
    && (forall start: nat, length: nat | length > 0 && start + length <= i && ZeroRun(g, start, length) ::
          length < s.bestLength || (length == s.bestLength && s.bestStart <= start))
  }

  lemma RunEndsHere(g: seq<Group>, s: Scan, i: nat, start: nat, length: nat)
    requires ScanKnows(g, s, i) && i < |g| && length > 0 && start + length == i + 1 && ZeroRun(g, start, length)
    ensures g[i] == 0 && length <= s.runLength + 1
  {
    assert g[start + length - 1] == 0;
  }

  lemma ScanStepKnows(g: seq<Group>, s: Scan, i: nat)
    requires ScanKnows(g, s, i) && i < |g|
    ensures ScanKnows(g, ScanStep(s, i, g[i]), i + 1)
  {
    var t := ScanStep(s, i, g[i]);
    forall start: nat, length: nat | length > 0 && start + length <= i + 1 && ZeroRun(g, start, length)
      ensures length < t.bestLength || (length == t.bestLength && t.bestStart <= start)
    {
      if start + length == i + 1 {
        RunEndsHere(g, s, i, start, length);
      }
    }
  }

  lemma {:induction false} ScanToKnows(g: seq<Group>, i: nat)
    requires i <= |g|
    ensures ScanKnows(g, ScanTo(g, i), i)
  {
    if i != 0 {
      ScanToKnows(g, i - 1);
      ScanStepKnows(g, ScanTo(g, i - 1), i - 1);
    }
  }

  /** The leftmost of the longest zero runs of at least two groups; length zero when there is none. */
  ghost predicate LeftmostLongest(g: seq<Group>, start: nat, length: nat) {
    if length == 0 then start == 8 && forall s: nat, l: nat | l >= 2 :: !ZeroRun(g, s, l)
    else
      && length >= 2 && ZeroRun(g, start, length)
      && forall s: nat, l: nat | l >= 2 && ZeroRun(g, s, l) :: l < length || (l == length && start <= s)
  }

  /** The compressed run is the leftmost longest one, and no other run is. */
  lemma CompressedIsLeftmostLongest(g: seq<Group>)
    requires |g| == 8
    ensures LeftmostLongest(g, Compressed(g).0, Compressed(g).1)
    ensures forall s: nat, l: nat | LeftmostLongest(g, s, l) :: (s, l) == Compressed(g)
  {
    hide ScanTo;
    ScanToKnows(g, 8);
  }

  // ---- the text -----------------------------------------------------------

  function Hex(g: Group): string {
    Numeral(16, g)
  }

  function HexAll(g: seq<Group>): (ts: seq<string>)
    ensures |ts| == |g|
  {
    seq(|g|, i requires 0 <= i < |g| => Hex(g[i]))
  }

  /** The groups around a compressed run, or all of them when the length is zero. */
  function GroupText(g: seq<Group>, start: nat, length: nat): string
    requires start + length <= |g|
  {
    if length == 0 then Join(':', HexAll(g)) else Join(':', HexAll(g[..start])) + "::" + Join(':', HexAll(g[start + length..]))
  }

  function Decimals(a: IpAddress): seq<string> {
    [Numeral(10, a[12]), Numeral(10, a[13]), Numeral(10, a[14]), Numeral(10, a[15])]
  }

  lemma CompressedFits(g: seq<Group>)
    requires |g| == 8
    ensures Compressed(g).0 + Compressed(g).1 <= 8
  {
    CompressedIsLeftmostLongest(g);
  }

  function Render(a: IpAddress): string {
    if IsV4Mapped(a) then
      Join('.', Decimals(a))
    else
      CompressedFits(GroupsOf(a));
      GroupText(GroupsOf(a), Compressed(GroupsOf(a)).0, Compressed(GroupsOf(a)).1)
  }

  lemma HexSolid(g: seq<Group>)
    ensures Solid(':', HexAll(g))
  {
    hide Numeral;
    forall t | t in HexAll(g)
      ensures t != "" && Free(t, ':')
    {
      var i :| 0 <= i < |g| && HexAll(g)[i] == t;
      NumeralIsFree(16, g[i]);
    }
  }

  lemma HexAllInjective(a: seq<Group>, b: seq<Group>)
    requires HexAll(a) == HexAll(b)
    ensures a == b
  {
    hide Numeral, NumeralValue;
    assert |a| == |HexAll(a)| == |b|;
    forall i | 0 <= i < |a|
      ensures a[i] == b[i]
    {
      assert HexAll(a)[i] == HexAll(b)[i];
      ValueOfNumeral(16, a[i]);
      ValueOfNumeral(16, b[i]);
    }
  }

  // ---- the double colon appears at most once ------------------------------

  lemma GroupTextDoubles(g: seq<Group>, start: nat, length: nat, i: int)
    requires start + length <= |g| && g != [] && DoubledAt(GroupText(g, start, length), ':', i)
    ensures length > 0 && i == |Join(':', HexAll(g[..start]))|
  {
    hide Join, HexAll;
    if length == 0 {
      HexSolid(g);
      HexCount(g);
      JoinedIsSolid(':', HexAll(g));
    } else {
      var left, right := Join(':', HexAll(g[..start])), Join(':', HexAll(g[start + length..]));
      SideIsSolid(g[..start]);
      SideIsSolid(g[start + length..]);
      assert i + 1 < |left| ==> DoubledAt(left, ':', i);
      assert i >= |left| + 2 ==> DoubledAt(right, ':', i - |left| - 2);
    }
  }

  lemma HexCount(g: seq<Group>)
    ensures |HexAll(g)| == |g|
  {
  }

  lemma SideIsSolid(g: seq<Group>)
    ensures var s := Join(':', HexAll(g));
            (s != "" ==> s[0] != ':' && s[|s| - 1] != ':') && forall i :: !DoubledAt(s, ':', i)
  {
    if g != [] {
      HexSolid(g);
      JoinedIsSolid(':', HexAll(g));
    }
  }

  lemma {:induction false} JoinFree(sep: char, ts: seq<string>, c: char)
    requires c != sep && forall t | t in ts :: Free(t, c)
    ensures Free(Join(sep, ts), c)
    decreases |ts|
  {
    if ts != [] {
      assert ts[|ts| - 1] in ts;
      assert forall t | t in ts[..|ts| - 1] :: t in ts;
      JoinFree(sep, ts[..|ts| - 1], c);
    }
  }

  lemma JoinOfNumerals(a: IpAddress)
    ensures Free(Join('.', Decimals(a)), ':')
  {
    hide Numeral, Join;
    NumeralIsFree(10, a[12]);
    NumeralIsFree(10, a[13]);
    NumeralIsFree(10, a[14]);
    NumeralIsFree(10, a[15]);
    JoinFree('.', Decimals(a), ':');
  }

  /** "::" stands at no more than one place in any rendered address. */
  lemma DoubleColonAtMostOnce(a: IpAddress, i: int, j: int)
    requires DoubledAt(Render(a), ':', i) && DoubledAt(Render(a), ':', j)
    ensures i == j
  {
    hide Join, GroupText, Decimals, Compressed;
    if IsV4Mapped(a) {
      JoinOfNumerals(a);
    } else {
      var g := GroupsOf(a);
      CompressedFits(g);
      GroupTextDoubles(g, Compressed(g).0, Compressed(g).1, i);
      GroupTextDoubles(g, Compressed(g).0, Compressed(g).1, j);
    }
  }

  // ---- rendering is injective ---------------------------------------------

  function OrBlank(ts: seq<string>): (r: seq<string>)
    ensures r != []
  {
    if ts == [] then [""] else ts
  }

  /** The tokens between colons: an empty one marks the compressed run. */
  function Tokens(left: seq<string>, right: seq<string>): (r: seq<string>)
    ensures |r| >= 3
  {
    OrBlank(left) + [""] + OrBlank(right)
  }

  lemma JoinOrBlank(ts: seq<string>)
    ensures Join(':', OrBlank(ts)) == Join(':', ts)
  {
  }

  lemma TokensText(left: seq<string>, right: seq<string>)
    ensures Join(':', Tokens(left, right)) == Join(':', left) + "::" + Join(':', right)
  {
    hide Join, OrBlank;
    JoinOrBlank(left);
    JoinOrBlank(right);
    JoinBlank();
    JoinConcat(':', OrBlank(left), [""]);
    JoinConcat(':', OrBlank(left) + [""], OrBlank(right));
  }

  lemma JoinBlank()
    ensures Join(':', [""]) == ""
  {
  }

  lemma TokensFree(left: seq<string>, right: seq<string>)
    requires Solid(':', left) && Solid(':', right)
    ensures forall t | t in Tokens(left, right) :: Free(t, ':')
  {
  }

  /** The first empty token after the first token ends the left part. */
  lemma HeadLength(left: seq<string>, right: seq<string>)
    requires Solid(':', left)
    ensures var n := |OrBlank(left)|;
            && 1 <= n < |Tokens(left, right)| && Tokens(left, right)[n] == ""
            && (forall k | 1 <= k < n :: Tokens(left, right)[k] != "")
            && Tokens(left, right)[..n] == OrBlank(left) && Tokens(left, right)[n + 1..] == OrBlank(right)
  {
    var n := |OrBlank(left)|;
    forall k | 1 <= k < n
      ensures Tokens(left, right)[k] != ""
    {
      assert left[k] in left;
    }
  }

  lemma HeadNotShorter(ts: seq<string>, n: nat, m: nat)
    requires 1 <= n < |ts| && ts[n] == "" && m < |ts| && forall k | 1 <= k < m :: ts[k] != ""
    ensures n >= m
  {
  }

  lemma OrBlankInjective(a: seq<string>, b: seq<string>)
    requires Solid(':', a) && Solid(':', b) && OrBlank(a) == OrBlank(b)
    ensures a == b
  {
    assert b != [] ==> b[0] in b;
    assert a != [] ==> a[0] in a;
  }

  lemma TokensDetermine(l1: seq<string>, r1: seq<string>, l2: seq<string>, r2: seq<string>)
    requires Solid(':', l1) && Solid(':', r1) && Solid(':', l2) && Solid(':', r2) && Tokens(l1, r1) == Tokens(l2, r2)
    ensures l1 == l2 && r1 == r2
  {
    hide Solid, OrBlank, Tokens;
    HeadLength(l1, r1);
    HeadLength(l2, r2);
    var ts, n1, n2 := Tokens(l1, r1), |OrBlank(l1)|, |OrBlank(l2)|;
    HeadNotShorter(ts, n1, n2);
    HeadNotShorter(ts, n2, n1);
    OrBlankInjective(l1, l2);
    OrBlankInjective(r1, r2);
  }

  /** Uncompressed text has no empty token, compressed text has one. */
  lemma CompressionShows(g: seq<Group>, left: seq<string>, right: seq<string>)
    requires g != [] && Solid(':', left) && Solid(':', right)
    ensures Join(':', HexAll(g)) != Join(':', left) + "::" + Join(':', right)
  {
    hide Join, HexAll, Tokens, OrBlank;
    HexSolid(g);
    HexCount(g);
    TokensText(left, right);
    TokensFree(left, right);
    HeadLength(left, right);
    assert Tokens(left, right)[|OrBlank(left)|] in Tokens(left, right);
    if Join(':', HexAll(g)) == Join(':', left) + "::" + Join(':', right) {
      JoinInjective(':', HexAll(g), Tokens(left, right));
    }
  }

  lemma ZeroRunIs(g: seq<Group>, start: nat, length: nat)
    requires ZeroRun(g, start, length)
    ensures g == g[..start] + seq(length, _ => 0) + g[start + length..]
  {
  }

  lemma GroupTextInjective(g: seq<Group>, s: nat, l: nat, h: seq<Group>, t: nat, m: nat)
    requires |g| == 8 && |h| == 8 && s + l <= 8 && t + m <= 8
    requires (l > 0 ==> ZeroRun(g, s, l)) && (m > 0 ==> ZeroRun(h, t, m))
    requires GroupText(g, s, l) == GroupText(h, t, m)
    ensures g == h
  {
    hide Join, HexAll, ZeroRun, Tokens;
    HexSolid(g);
    HexSolid(h);
    HexCount(g);
    HexCount(h);
    if l == 0 && m == 0 {
      JoinInjective(':', HexAll(g), HexAll(h));
      HexAllInjective(g, h);
    } else if l == 0 {
      HexSolid(h[..t]);
      HexSolid(h[t + m..]);
      CompressionShows(g, HexAll(h[..t]), HexAll(h[t + m..]));
    } else if m == 0 {
      HexSolid(g[..s]);
      HexSolid(g[s + l..]);
      CompressionShows(h, HexAll(g[..s]), HexAll(g[s + l..]));
    } else {
      SidesInjective(g[..s], g[s + l..], h[..t], h[t + m..]);
      assert s == |g[..s]| == |h[..t]| == t && 8 - s - l == |g[s + l..]| == |h[t + m..]| == 8 - t - m;
      ZeroRunIs(g, s, l);
      ZeroRunIs(h, t, m);
    }
  }

  lemma SidesInjective(a: seq<Group>, b: seq<Group>, c: seq<Group>, d: seq<Group>)
    requires Join(':', HexAll(a)) + "::" + Join(':', HexAll(b)) == Join(':', HexAll(c)) + "::" + Join(':', HexAll(d))
    ensures a == c && b == d
  {
    hide Join, HexAll, Tokens;
    HexSolid(a);
    HexSolid(b);
    HexSolid(c);
    HexSolid(d);
    TokensText(HexAll(a), HexAll(b));
    TokensText(HexAll(c), HexAll(d));
    TokensFree(HexAll(a), HexAll(b));
    TokensFree(HexAll(c), HexAll(d));
    JoinInjective(':', Tokens(HexAll(a), HexAll(b)), Tokens(HexAll(c), HexAll(d)));
    TokensDetermine(HexAll(a), HexAll(b), HexAll(c), HexAll(d));
    HexAllInjective(a, c);
    HexAllInjective(b, d);
  }

  lemma V4Injective(a: IpAddress, b: IpAddress)
    requires IsV4Mapped(a) && IsV4Mapped(b) && Join('.', Decimals(a)) == Join('.', Decimals(b))
    ensures a == b
  {
    hide Join, Numeral, NumeralValue;
    var x, y := Decimals(a), Decimals(b);
    forall t | t in x || t in y
      ensures Free(t, '.')
    {
      DecimalFree(a, t);
      DecimalFree(b, t);
    }
    JoinInjective('.', x, y);
    assert x[0] == y[0] && x[1] == y[1] && x[2] == y[2] && x[3] == y[3];
    ValueOfNumeral(10, a[12]);
    ValueOfNumeral(10, b[12]);
    ValueOfNumeral(10, a[13]);
    ValueOfNumeral(10, b[13]);
    ValueOfNumeral(10, a[14]);
    ValueOfNumeral(10, b[14]);
    ValueOfNumeral(10, a[15]);
    ValueOfNumeral(10, b[15]);
  }

  lemma DecimalFree(a: IpAddress, t: string)
    ensures t in Decimals(a) ==> Free(t, '.')
  {
    hide Numeral;
    NumeralIsFree(10, a[12]);
    NumeralIsFree(10, a[13]);
    NumeralIsFree(10, a[14]);
    NumeralIsFree(10, a[15]);
  }

  lemma GroupTextHasColon(g: seq<Group>, start: nat, length: nat)
    requires |g| == 8 && start + length <= 8
    ensures !Free(GroupText(g, start, length), ':')
  {
    hide HexAll;
    var text := GroupText(g, start, length);
    HexCount(g);
    if length == 0 {
      var ts := HexAll(g);
      var p := Join(':', ts[..7]);
      assert text[|p|] == ':';
    } else {
      assert text[|Join(':', HexAll(g[..start]))|] == ':';
    }
  }

  /** Distinct addresses never render alike. */
  lemma RenderInjective(a: IpAddress, b: IpAddress)
    requires Render(a) == Render(b)
    ensures a == b
  {
    hide Join, GroupText, Decimals, Compressed, IsV4Mapped, GroupsOf;
    JoinOfNumerals(a);
    JoinOfNumerals(b);
    var g, h := GroupsOf(a), GroupsOf(b);
    CompressedFits(g);
    CompressedFits(h);
    if IsV4Mapped(a) && IsV4Mapped(b) {
      V4Injective(a, b);
    } else if IsV4Mapped(a) {
      GroupTextHasColon(h, Compressed(h).0, Compressed(h).1);
    } else if IsV4Mapped(b) {
      GroupTextHasColon(g, Compressed(g).0, Compressed(g).1);
    } else {
      CompressedIsLeftmostLongest(g);
      CompressedIsLeftmostLongest(h);
      GroupTextInjective(g, Compressed(g).0, Compressed(g).1, h, Compressed(h).0, Compressed(h).1);
      GroupsDetermine(a, b);
    }
  }

  // ---- rendering as it runs -----------------------------------------------

  function Reversed(s: string): string {
    if s == "" then "" else [s[|s| - 1]] + Reversed(s[..|s| - 1])
  }

  /** The digits still to be produced, then those produced, read backwards. */
  function Assembled(rest: nat, digits: string): string {
    (if rest == 0 then "" else Numeral(16, rest)) + Reversed(digits)
  }

  lemma AssembledStep(rest: nat, digits: string)
    requires rest > 0
    ensures Assembled(rest / 16, digits + [DigitChar(rest % 16)]) == Assembled(rest, digits)
  {
    hide DigitChar;
    var d := DigitChar(rest % 16);
    assert (digits + [d])[..|digits + [d]| - 1] == digits;
    assert Reversed(digits + [d]) == [d] + Reversed(digits);
  }

  method HexText(value: Group) returns (text: string)
    ensures text == Hex(value)
  {
    hide Numeral, DigitChar;
    var rest: nat := value;
    var digits := [DigitChar(rest % 16)];
    FirstDigit(rest);
    rest := rest / 16;
    ghost var room := 0x1000;
    while rest != 0 && |digits| < 4
      invariant 1 <= |digits| <= 4
      invariant Assembled(rest, digits) == Hex(value)
      invariant room == (if |digits| == 1 then 0x1000 else if |digits| == 2 then 0x100 else if |digits| == 3 then 0x10 else 1)
      invariant rest < room
      decreases rest
    {
      AssembledStep(rest, digits);
      digits := digits + [DigitChar(rest % 16)];
      rest := rest / 16;
      room := room / 16;
    }
    text := "";
    var index := |digits|;
    ghost var whole := Reversed(digits);
    assert digits[..index] == digits;
    while index > 0
      invariant 0 <= index <= |digits|
      invariant text + Reversed(digits[..index]) == whole
    {
      assert digits[..index][..index - 1] == digits[..index - 1];
      index := index - 1;
      text := text + [digits[index]];
    }
    assert text + "" == text;
  }

  lemma FirstDigit(value: nat)
    ensures Assembled(value / 16, [DigitChar(value % 16)]) == Numeral(16, value)
  {
    hide DigitChar;
    var d := DigitChar(value % 16);
    assert Reversed([d]) == [d] + Reversed([d][..0]);
  }

  method LongestZeroRun(g: seq<Group>) returns (start: nat, length: nat)
    requires |g| == 8
    ensures (start, length) == Compressed(g)
  {
    hide ScanStep;
    var bestStart, bestLength, runStart, runLength := 8, 0, 0, 0;
    for i := 0 to 8
      invariant Scan(bestStart, bestLength, runStart, runLength) == ScanTo(g, i)
    {
      ScanStepIs(ScanTo(g, i), i, g[i]);
      if g[i] == 0 {
        if runLength == 0 {
          runStart := i;
        }
        runLength := runLength + 1;
        if runLength > bestLength {
          bestLength := runLength;
          bestStart := runStart;
        }
      } else {
        runLength := 0;
      }
    }
    if bestLength < 2 {
      return 8, 0;
    }
    return bestStart, bestLength;
  }

  lemma ScanStepIs(s: Scan, i: nat, value: nat)
    ensures value != 0 ==> ScanStep(s, i, value) == s.(runLength := 0)
    ensures value == 0 ==>
              var start := if s.runLength == 0 then i else s.runStart;
              ScanStep(s, i, value)
              == if s.runLength + 1 > s.bestLength then Scan(start, s.runLength + 1, start, s.runLength + 1)
                 else s.(runStart := start, runLength := s.runLength + 1)
  {
  }

  /** The text once the first `i` groups are written, `i` not inside the run. */
  function PartialText(g: seq<Group>, start: nat, length: nat, i: nat): string
    requires start + length <= |g| && i <= |g| && (length == 0 || i <= start || start + length <= i)
  {
    if length == 0 || i <= start then Join(':', HexAll(g[..i]))
    else Join(':', HexAll(g[..start])) + "::" + Join(':', HexAll(g[start + length..i]))
  }

  lemma HexAllAppend(g: seq<Group>, v: Group)
    ensures HexAll(g + [v]) == HexAll(g) + [Hex(v)]
  {
  }

  lemma JoinAppend(ts: seq<string>, t: string)
    ensures Join(':', ts + [t]) == if ts == [] then t else Join(':', ts) + ":" + t
  {
    assert (ts + [t])[..|ts + [t]| - 1] == ts;
  }

  /** Appending a group puts a colon before it exactly when text that does not end in one precedes. */
  lemma AppendGroup(before: string, g: seq<Group>, v: Group)
    requires before == "" || before[|before| - 1] == ':'
    ensures var out := before + Join(':', HexAll(g));
            (if out != "" && out[|out| - 1] != ':' then out + ":" else out) + Hex(v) == before + Join(':', HexAll(g + [v]))
  {
    hide Numeral;
    HexAllAppend(g, v);
    JoinAppend(HexAll(g), Hex(v));
    SideIsSolid(g);
    SideIsEmpty(g);
  }

  lemma SideIsEmpty(g: seq<Group>)
    ensures Join(':', HexAll(g)) == "" <==> g == []
  {
    if g != [] {
      HexSolid(g);
      JoinedIsSolid(':', HexAll(g));
    }
  }

  lemma PartialStep(g: seq<Group>, start: nat, length: nat, i: nat)
    requires start + length <= |g| && i < |g| && (length == 0 || i < start || start + length <= i)
    ensures var out := PartialText(g, start, length, i);
            (if out != "" && out[|out| - 1] != ':' then out + ":" else out) + Hex(g[i]) == PartialText(g, start, length, i + 1)
  {
    hide Join, HexAll, Hex;
    assert g[..i + 1] == g[..i] + [g[i]];
    if length == 0 || i < start {
      AppendGroup("", g[..i], g[i]);
      assert "" + Join(':', HexAll(g[..i])) == Join(':', HexAll(g[..i]));
      assert "" + Join(':', HexAll(g[..i + 1])) == Join(':', HexAll(g[..i + 1]));
    } else {
      var before := Join(':', HexAll(g[..start])) + "::";
      assert g[start + length..i + 1] == g[start + length..i] + [g[i]];
      AppendGroup(before, g[start + length..i], g[i]);
    }
  }

  lemma PartialRun(g: seq<Group>, start: nat, length: nat)
    requires start + length <= |g| && length > 0
    ensures PartialText(g, start, length, start) + "::" == PartialText(g, start, length, start + length)
    ensures PartialText(g, start, length, |g|) == GroupText(g, start, length)
  {
    assert g[start + length..start + length] == [] && g[..|g|] == g && g[start + length..|g|] == g[start + length..];
    assert HexAll([]) == [];
  }

  lemma PartialWhole(g: seq<Group>)
    ensures PartialText(g, |g|, 0, |g|) == GroupText(g, |g|, 0)
  {
    assert g[..|g|] == g;
  }

  method GroupsText(g: seq<Group>, start: nat, length: nat) returns (out: string)
    requires |g| == 8 && start + length <= 8 && (length == 0 ==> start == 8)
    ensures out == GroupText(g, start, length)
  {
    hide PartialText, Hex, GroupText;
    out := "";
    PartialNothing(g, start, length);
    var i := 0;
    while i < 8
      invariant 0 <= i <= 8 && (length == 0 || i <= start || start + length <= i)
      invariant out == PartialText(g, start, length, i)
    {
      if length != 0 && i == start {
        PartialRun(g, start, length);
        out := out + "::";
        i := i + length;
      } else {
        PartialStep(g, start, length, i);
        if out != "" && out[|out| - 1] != ':' {
          out := out + ":";
        }
        var digits := HexText(g[i]);
        out := out + digits;
        i := i + 1;
      }
    }
    if length == 0 {
      PartialWhole(g);
    } else {
      PartialRun(g, start, length);
    }
  }

  lemma PartialNothing(g: seq<Group>, start: nat, length: nat)
    requires start + length <= |g|
    ensures PartialText(g, start, length, 0) == ""
  {
    assert g[..0] == [] && HexAll([]) == [];
  }

  method ToText(a: IpAddress) returns (out: string)
    ensures out == Render(a)
  {
    hide Numeral, GroupText, Compressed;
    if IsV4Mapped(a) {
      out := "";
      for i := 12 to 16
        invariant out == Join('.', Decimals(a)[..i - 12])
      {
        assert Decimals(a)[..i - 12 + 1][..i - 12] == Decimals(a)[..i - 12];
        if i != 12 {
          out := out + ".";
        }
        out := out + Numeral(10, a[i]);
      }
      assert Decimals(a)[..4] == Decimals(a);
      return;
    }
    var g := GroupsOf(a);
    CompressedFits(g);
    CompressedIsLeftmostLongest(g);
    var start, length := LongestZeroRun(g);
    out := GroupsText(g, start, length);
  }
}
