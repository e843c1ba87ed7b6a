/** Numerals in a small base, and lists of tokens joined by a separator. */
module Numerals {

  const DIGITS: string := "0123456789abcdef"

  function DigitChar(d: nat): char
    requires d < 16
  {
    DIGITS[d]
  }

  function CharDigit(c: char): nat {
    if '0' <= c <= '9' then (c - '0') as int
    else if 'a' <= c <= 'f' then 10 + (c - 'a') as int
    else 0
  }

  lemma DigitRoundTrip(d: nat)
    requires d < 16
    ensures CharDigit(DigitChar(d)) == d && DigitChar(d) != ':' && DigitChar(d) != '.' && DigitChar(d) != '|'
  {
    assert DIGITS[0] == '0' && DIGITS[1] == '1' && DIGITS[2] == '2' && DIGITS[3] == '3' && DIGITS[4] == '4' && DIGITS[5] == '5';
    assert DIGITS[6] == '6' && DIGITS[7] == '7' && DIGITS[8] == '8' && DIGITS[9] == '9' && DIGITS[10] == 'a'
           && DIGITS[11] == 'b';
    assert DIGITS[12] == 'c' && DIGITS[13] == 'd' && DIGITS[14] == 'e' && DIGITS[15] == 'f';
  }

  /** Most significant digit first, no leading zero. */
  function Numeral(base: nat, value: nat): (s: string)
    requires 2 <= base <= 16
    ensures s != ""
    decreases value
  {
    if value < base then [DigitChar(value)] else Numeral(base, value / base) + [DigitChar(value % base)]
  }

  function NumeralValue(base: nat, s: string): nat {
    if s == "" then 0 else NumeralValue(base, s[..|s| - 1]) * base + CharDigit(s[|s| - 1])
  }

  lemma DivisionStep(value: nat, base: nat)
    requires base > 0
    ensures value == (value / base) * base + value % base
  {
  }

  lemma ValueStep(base: nat, s: string, d: nat)
    requires d < 16
    ensures NumeralValue(base, s + [DigitChar(d)]) == NumeralValue(base, s) * base + d
  {
    hide DigitChar, CharDigit;
    DigitRoundTrip(d);
    assert (s + [DigitChar(d)])[..|s|] == s;
  }

  lemma ValueOfDigit(base: nat, d: nat)
    requires d < 16
    ensures NumeralValue(base, [DigitChar(d)]) == d
  {
    hide DigitChar, CharDigit;
    DigitRoundTrip(d);
    assert [DigitChar(d)][..0] == "";
  }

  lemma {:induction false} ValueOfNumeral(base: nat, value: nat)
    requires 2 <= base <= 16
    ensures NumeralValue(base, Numeral(base, value)) == value
    decreases value
  {
    hide DigitChar, NumeralValue;
    if value < base {
      ValueOfDigit(base, value);
    } else {
      ValueOfNumeral(base, value / base);
      ValueStep(base, Numeral(base, value / base), value % base);
      DivisionStep(value, base);
    }
  }

  predicate Free(s: string, sep: char) {
    forall i | 0 <= i < |s| :: s[i] != sep
  }

  lemma {:induction false} NumeralIsFree(base: nat, value: nat)
    requires 2 <= base <= 16
    ensures Free(Numeral(base, value), ':') && Free(Numeral(base, value), '.') && Free(Numeral(base, value), '|')
    decreases value
  {
    hide DigitChar, CharDigit;
    if value < base {
      DigitRoundTrip(value);
    } else {
      NumeralIsFree(base, value / base);
      DigitRoundTrip(value % base);
    }
  }

  // ---- joining and splitting ----------------------------------------------

  function Join(sep: char, ts: seq<string>): string {
    if ts == [] then ""
    else if |ts| == 1 then ts[0]
    else Join(sep, ts[..|ts| - 1]) + [sep] + ts[|ts| - 1]
  }

  function Split(sep: char, s: string): (r: seq<string>)
    ensures |r| >= 1
  {
    if s == "" then [""]
    else
      var r := Split(sep, s[..|s| - 1]);
      if s[|s| - 1] == sep then r + [""] else r[..|r| - 1] + [r[|r| - 1] + [s[|s| - 1]]]
  }

  /** The last token grown by `t`. */
  function GrowLast(r: seq<string>, t: string): (g: seq<string>)
    requires |r| >= 1
    ensures |g| == |r|
  {
    r[..|r| - 1] + [r[|r| - 1] + t]
  }

  lemma GrowLastTwice(r: seq<string>, t: string, u: string)
    requires |r| >= 1
    ensures GrowLast(GrowLast(r, t), u) == GrowLast(r, t + u)
  {
    assert r[|r| - 1] + t + u == r[|r| - 1] + (t + u);
  }

  lemma GrowNothing(r: seq<string>)
    requires |r| >= 1
    ensures GrowLast(r, "") == r
  {
    assert r[|r| - 1] + "" == r[|r| - 1];
  }

  lemma GrowEmptyLast(init: seq<string>, t: string)
    ensures GrowLast(init + [""], t) == init + [t]
  {
    var r := init + [""];
    assert r[..|r| - 1] == init && "" + t == t;
  }

  lemma SplitSeparator(sep: char, s: string)
    ensures Split(sep, s + [sep]) == Split(sep, s) + [""]
  {
    assert (s + [sep])[..|s + [sep]| - 1] == s;
  }

  lemma SplitLetter(sep: char, s: string, c: char)
    requires c != sep
    ensures Split(sep, s + [c]) == GrowLast(Split(sep, s), [c])
  {
    assert (s + [c])[..|s + [c]| - 1] == s;
  }

  lemma {:induction false} SplitText(sep: char, s: string, t: string)
    requires Free(t, sep)
    ensures Split(sep, s + t) == GrowLast(Split(sep, s), t)
    decreases |t|
  {
    hide Split, GrowLast;
    var r := Split(sep, s);
    if t == "" {
      assert s + t == s;
      GrowNothing(r);
    } else {
      var u, c := t[..|t| - 1], t[|t| - 1];
      SplitText(sep, s, u);
      SplitLetter(sep, s + u, c);
      assert s + t == (s + u) + [c] && t == u + [c];
      GrowLastTwice(r, u, [c]);
    }
  }

  lemma SplitNothing(sep: char)
    ensures Split(sep, "") == [] + [""]
  {
  }

  /** Splitting undoes joining, for tokens that do not contain the separator. */
  lemma {:induction false} SplitJoined(sep: char, ts: seq<string>)
    requires ts != [] && forall t | t in ts :: Free(t, sep)
    ensures Split(sep, Join(sep, ts)) == ts
    decreases |ts|
  {
    hide Split, GrowLast, Free;
    var init, last := ts[..|ts| - 1], ts[|ts| - 1];
    assert last in ts && ts == init + [last];
    GrowEmptyLast(init, last);
    if |ts| == 1 {
      SplitNothing(sep);
      SplitText(sep, "", last);
      assert "" + last == last && init == [];
    } else {
      SplitJoined(sep, init);
      SplitSeparator(sep, Join(sep, init));
      SplitText(sep, Join(sep, init) + [sep], last);
      assert Join(sep, ts) == (Join(sep, init) + [sep]) + last;
    }
  }

  /** Lists of separator-free tokens are told apart by their joined text. */
  lemma JoinInjective(sep: char, a: seq<string>, b: seq<string>)
    requires a != [] && b != [] && Join(sep, a) == Join(sep, b)
    requires forall t | t in a :: Free(t, sep)
    requires forall t | t in b :: Free(t, sep)
    ensures a == b
  {
    SplitJoined(sep, a);
    SplitJoined(sep, b);
  }

  lemma {:induction false} JoinConcat(sep: char, a: seq<string>, b: seq<string>)
    requires a != [] && b != []
    ensures Join(sep, a + b) == Join(sep, a) + [sep] + Join(sep, b)
    decreases |b|
  {
    var last, all := b[|b| - 1], a + b;
    if |b| == 1 {
      assert all[..|all| - 1] == a;
    } else {
      var init := b[..|b| - 1];
      JoinConcat(sep, a, init);
      assert all[..|all| - 1] == a + init;
      assert Join(sep, a) + [sep] + (Join(sep, init) + [sep] + last) == (Join(sep, a) + [sep] + Join(sep, init)) + [sep] + last;
    }
  }

  // ---- where separators can stand -----------------------------------------

  /** Some token, each neither empty nor containing the separator. */
  ghost predicate Solid(sep: char, ts: seq<string>) {
    forall t | t in ts :: t != "" && Free(t, sep)
  }

  predicate DoubledAt(s: string, sep: char, i: int) {
    0 <= i && i + 1 < |s| && s[i] == sep && s[i + 1] == sep
  }

  /** Joined solid tokens neither start nor end with the separator, nor double it. */
  lemma {:induction false} JoinedIsSolid(sep: char, ts: seq<string>)
    requires ts != [] && Solid(sep, ts)
    ensures var s := Join(sep, ts);
            s != "" && s[0] != sep && s[|s| - 1] != sep && forall i :: !DoubledAt(s, sep, i)
    decreases |ts|
  {
    var last := ts[|ts| - 1];
    assert last in ts;
    if |ts| > 1 {
      var init := ts[..|ts| - 1];
      assert Solid(sep, init) by {
        assert forall t | t in init :: t in ts;
      }
      JoinedIsSolid(sep, init);
      var p, s := Join(sep, init), Join(sep, ts);
      forall i
        ensures !DoubledAt(s, sep, i)
      {
        if 0 <= i && i + 1 < |p| {
          assert !DoubledAt(p, sep, i);
        }
      }
    }
  }
}
