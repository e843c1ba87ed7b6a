/**
 * CRC-32 of IEEE 802.3 in its reflected form: the table-driven update refines the bit-serial
 * one, and each byte's update loses nothing of either the state or the byte.
 *
 * The word operations are named so that the algebra above them can be done without looking
 * at bits.
 */
module Crc32 {
  import opened Domain
  import Words

  const POLYNOMIAL: bv32 := 0xEDB8_8320
  const START: bv32 := 0xFFFF_FFFF

  function Xor(a: bv32, b: bv32): bv32 {
    a ^ b
  }

  function Half(a: bv32): bv32 {
    a >> 1
  }

  predicate Odd(a: bv32) {
    a & 1 != 0
  }

  /** All but the low byte, moved down. */
  function Upper(a: bv32): bv32 {
    a >> 8
  }

  function LowByte(a: bv32): bv8 {
    (a & 0xFF) as bv8
  }

  function Wide(b: bv8): bv32 {
    b as bv32
  }

  function AsBits(b: byte): bv8 {
    b as bv8
  }

  // ---- the bit-serial reference -------------------------------------------

  /** The next message bit, least significant bit first. */
  function BitAt(b: bv8, k: nat): bv32
    requires k < 8
  {
    ((b >> k) & 1) as bv32
  }

  function BitStep(c: bv32, bit: bv32): bv32 {
    if Odd(Xor(c, bit)) then Xor(Half(c), POLYNOMIAL) else Half(c)
  }

  /** The first `k` bits of a byte. */
  function SerialBits(c: bv32, b: bv8, k: nat): bv32
    requires k <= 8
  {
    if k == 0 then c else BitStep(SerialBits(c, b, k - 1), BitAt(b, k - 1))
  }

  /** The register after the bits of every byte, from a given register. */
  function Serial(c: bv32, data: seq<byte>): bv32 {
    if data == [] then c else SerialBits(Serial(c, data[..|data| - 1]), AsBits(data[|data| - 1]), 8)
  }

  /** The checksum of a message. */
  function Checksum(data: seq<byte>): bv32 {
    Xor(Serial(START, data), 0xFFFF_FFFF)
  }

  // ---- the table form -----------------------------------------------------

  function Shift(c: bv32): bv32 {
    if Odd(c) then Xor(POLYNOMIAL, Half(c)) else Half(c)
  }

  function Shifts(c: bv32, k: nat): bv32 {
    if k == 0 then c else Shift(Shifts(c, k - 1))
  }

  function TableEntry(i: bv8): bv32 {
    Shifts(Wide(i), 8)
  }

  function TableStep(c: bv32, b: bv8): bv32 {
    Xor(TableEntry(LowByte(Xor(c, Wide(b)))), Upper(c))
  }

  // ---- words --------------------------------------------------------------

  lemma XorCommutes(a: bv32, b: bv32)
    ensures Xor(a, b) == Xor(b, a)
  {
  }

  lemma XorAssociates(a: bv32, b: bv32, c: bv32)
    ensures Xor(Xor(a, b), c) == Xor(a, Xor(b, c))
  {
  }

  lemma XorUnits(a: bv32)
    ensures Xor(a, a) == 0 && Xor(0, a) == a && Xor(a, 0) == a
  {
  }

  lemma XorPairs(p: bv32, a: bv32, b: bv32)
    ensures Xor(Xor(p, a), Xor(p, b)) == Xor(a, b)
  {
    hide Xor;
    XorCommutes(p, a);
    XorAssociates(a, p, Xor(p, b));
    XorAssociates(p, p, b);
    XorUnits(p);
    XorUnits(b);
  }

  lemma XorAlgebra(p: bv32, a: bv32, b: bv32)
    ensures Xor(Xor(p, a), Xor(p, b)) == Xor(a, b)
    ensures Xor(Xor(p, a), b) == Xor(p, Xor(a, b))
    ensures Xor(a, Xor(p, b)) == Xor(p, Xor(a, b))
    ensures Xor(a, p) == Xor(p, a)
  {
    hide Xor;
    XorPairs(p, a, b);
    XorAssociates(p, a, b);
    XorAssociates(a, p, b);
    XorCommutes(a, p);
  }

  lemma XorCancels(a: bv32, b: bv32, x: bv32)
    ensures Xor(a, x) == Xor(b, x) ==> a == b
    ensures Xor(x, a) == Xor(x, b) ==> a == b
    ensures Xor(a, 0) == a
  {
    assert (a ^ x) ^ x == a && (b ^ x) ^ x == b;
    assert x ^ (x ^ a) == a && x ^ (x ^ b) == b;
  }

  lemma HalfLinear(a: bv32, b: bv32)
    ensures Half(Xor(a, b)) == Xor(Half(a), Half(b))
    ensures Odd(Xor(a, b)) <==> Odd(a) != Odd(b)
  {
  }

  lemma HalfAndOddDetermine(a: bv32, b: bv32)
    requires Half(a) == Half(b) && Odd(a) == Odd(b)
    ensures a == b
  {
  }

  /** The polynomial has the one bit that halving always clears. */
  lemma PolynomialShows(a: bv32, b: bv32)
    ensures Xor(POLYNOMIAL, Half(a)) != Half(b)
  {
    assert (POLYNOMIAL ^ (a >> 1)) & 0x8000_0000 != (b >> 1) & 0x8000_0000;
  }

  lemma WideInjective(a: bv8, b: bv8)
    requires Wide(a) == Wide(b)
    ensures a == b
  {
  }

  // ---- shifting is linear and loses nothing -------------------------------

  lemma ShiftLinear(x: bv32, y: bv32)
    ensures Shift(Xor(x, y)) == Xor(Shift(x), Shift(y))
  {
    hide Xor, Half, Odd;
    HalfLinear(x, y);
    XorAlgebra(POLYNOMIAL, Half(x), Half(y));
  }

  lemma ShiftInjective(x: bv32, y: bv32)
    requires Shift(x) == Shift(y)
    ensures x == y
  {
    hide Xor, Half, Odd;
    PolynomialShows(x, y);
    PolynomialShows(y, x);
    XorCancels(Half(x), Half(y), POLYNOMIAL);
    if Odd(x) == Odd(y) {
      HalfAndOddDetermine(x, y);
    }
  }

  lemma {:induction false} ShiftsLinear(x: bv32, y: bv32, k: nat)
    ensures Shifts(Xor(x, y), k) == Xor(Shifts(x, k), Shifts(y, k))
  {
    hide Xor, Shift;
    if k != 0 {
      ShiftsLinear(x, y, k - 1);
      ShiftLinear(Shifts(x, k - 1), Shifts(y, k - 1));
    }
  }

  lemma {:induction false} ShiftsInjective(x: bv32, y: bv32, k: nat)
    requires Shifts(x, k) == Shifts(y, k)
    ensures x == y
  {
    hide Shift;
    if k != 0 {
      ShiftInjective(Shifts(x, k - 1), Shifts(y, k - 1));
      ShiftsInjective(x, y, k - 1);
    }
  }


  lemma ShiftsOfHigh(c: bv32)
    requires c & 0xFF == 0
    ensures Shifts(c, 8) == Upper(c)
  {
    assert Shifts(c, 1) == c >> 1;
    assert Shifts(c, 2) == c >> 2;
    assert Shifts(c, 3) == c >> 3;
    assert Shifts(c, 4) == c >> 4;
    assert Shifts(c, 5) == c >> 5;
    assert Shifts(c, 6) == c >> 6;
    assert Shifts(c, 7) == c >> 7;
  }

  function High(c: bv32): bv32 {
    c & 0xFFFF_FF00
  }

  lemma SplitLow(c: bv32, b: bv8)
    ensures var x := Xor(c, Wide(b));
            x == Xor(Wide(LowByte(x)), High(x)) && High(x) & 0xFF == 0 && Upper(High(x)) == Upper(c)
  {
  }

  lemma TableStepShifts(c: bv32, b: bv8)
    ensures TableStep(c, b) == Shifts(Xor(c, Wide(b)), 8)
  {
    hide Shifts, LowByte, Xor, Wide, Upper, High;
    var x := Xor(c, Wide(b));
    SplitLow(c, b);
    ShiftsLinear(Wide(LowByte(x)), High(x), 8);
    ShiftsOfHigh(High(x));
  }

  // ---- bits against the whole byte ----------------------------------------

  /** The bits of a byte not yet consumed, in place. */
  function Pending(b: bv8, k: nat): bv32
    requires k <= 8
  {
    (b >> k) as bv32
  }

  lemma PendingParts(b: bv8, k: nat)
    requires k < 8
    ensures Half(Pending(b, k)) == Pending(b, k + 1)
    ensures Odd(Pending(b, k)) == Odd(BitAt(b, k))
  {
    if k == 0 {
    } else if k == 1 {
    } else if k == 2 {
    } else if k == 3 {
    } else if k == 4 {
    } else if k == 5 {
    } else if k == 6 {
    } else {
      assert k == 7;
    }
  }

  lemma PendingEnds(b: bv8)
    ensures Pending(b, 0) == Wide(b)
    ensures Pending(b, 8) == 0
  {
  }

  lemma BitStepShift(c: bv32, b: bv8, k: nat)
    requires k < 8
    ensures Xor(BitStep(c, BitAt(b, k)), Pending(b, k + 1)) == Shift(Xor(c, Pending(b, k)))
  {
    hide Xor, Half, Odd, Pending, BitAt;
    PendingParts(b, k);
    HalfLinear(c, Pending(b, k));
    HalfLinear(c, BitAt(b, k));
    XorAlgebra(POLYNOMIAL, Half(c), Pending(b, k + 1));
  }

  lemma {:induction false} SerialBitsShift(c: bv32, b: bv8, k: nat)
    requires k <= 8
    ensures Xor(SerialBits(c, b, k), Pending(b, k)) == Shifts(Xor(c, Wide(b)), k)
  {
    hide BitStep, Shift, Pending, BitAt, Xor, Wide;
    PendingEnds(b);
    if k != 0 {
      SerialBitsShift(c, b, k - 1);
      BitStepShift(SerialBits(c, b, k - 1), b, k - 1);
    }
  }

  /** Eight bits at once. */
  lemma SerialByteShifts(c: bv32, b: bv8)
    ensures SerialBits(c, b, 8) == Shifts(Xor(c, Wide(b)), 8)
  {
    hide SerialBits, Shifts, Pending, Xor, Wide;
    SerialBitsShift(c, b, 8);
    PendingEnds(b);
    XorCancels(SerialBits(c, b, 8), 0, 0);
  }

  /** One table look-up does the work of eight bits. */
  lemma TableStepIsSerial(c: bv32, b: bv8)
    ensures TableStep(c, b) == SerialBits(c, b, 8)
  {
    hide TableStep, SerialBits, Shifts, Xor, Wide;
    TableStepShifts(c, b);
    SerialByteShifts(c, b);
  }

  // ---- nothing is lost ----------------------------------------------------

  lemma SerialInjectiveInState(c: bv32, d: bv32, b: bv8)
    requires SerialBits(c, b, 8) == SerialBits(d, b, 8)
    ensures c == d
  {
    hide SerialBits, Shifts, Xor, Wide;
    SerialByteShifts(c, b);
    SerialByteShifts(d, b);
    ShiftsInjective(Xor(c, Wide(b)), Xor(d, Wide(b)), 8);
    XorCancels(c, d, Wide(b));
  }

  lemma SerialInjectiveInByte(c: bv32, a: bv8, b: bv8)
    requires SerialBits(c, a, 8) == SerialBits(c, b, 8)
    ensures a == b
  {
    hide SerialBits, Shifts, Xor, Wide;
    SerialByteShifts(c, a);
    SerialByteShifts(c, b);
    ShiftsInjective(Xor(c, Wide(a)), Xor(c, Wide(b)), 8);
    XorCancels(Wide(a), Wide(b), c);
    WideInjective(a, b);
  }

  lemma {:induction false} SerialConcat(c: bv32, a: seq<byte>, b: seq<byte>)
    ensures Serial(c, a + b) == Serial(Serial(c, a), b)
  {
    hide SerialBits, AsBits;
    if b == [] {
      assert a + b == a;
    } else {
      SerialConcat(c, a, b[..|b| - 1]);
      assert (a + b)[..|a + b| - 1] == a + b[..|b| - 1];
    }
  }

  /** Different registers stay different over any common continuation. */
  lemma {:induction false} SerialKeepsApart(c: bv32, d: bv32, data: seq<byte>)
    requires Serial(c, data) == Serial(d, data)
    ensures c == d
  {
    hide SerialBits, AsBits;
    if data != [] {
      var init := data[..|data| - 1];
      SerialInjectiveInState(Serial(c, init), Serial(d, init), AsBits(data[|data| - 1]));
      SerialKeepsApart(c, d, init);
    }
  }

  lemma SerialAppend(c: bv32, data: seq<byte>, b: byte)
    ensures Serial(c, data + [b]) == SerialBits(Serial(c, data), AsBits(b), 8)
  {
    hide SerialBits, AsBits;
    assert (data + [b])[..|data + [b]| - 1] == data;
  }

  /** A message of any length with one byte changed has another checksum. */
  lemma OneByteChangesChecksum(data: seq<byte>, i: nat, b: byte)
    requires i < |data| && data[i] != b
    ensures Checksum(data[i := b]) != Checksum(data)
  {
    hide SerialBits, Xor, Serial;
    var pre, post := data[..i], data[i + 1..];
    var x, y := pre + [data[i]], pre + [b];
    assert data == x + post && data[i := b] == y + post;
    SerialConcat(START, x, post);
    SerialConcat(START, y, post);
    SerialAppend(START, pre, data[i]);
    SerialAppend(START, pre, b);
    if Checksum(data[i := b]) == Checksum(data) {
      XorCancels(Serial(START, y + post), Serial(START, x + post), 0xFFFF_FFFF);
      SerialKeepsApart(Serial(START, y), Serial(START, x), post);
      SerialInjectiveInByte(Serial(START, pre), AsBits(b), AsBits(data[i]));
      Words.BitsInjective(b, data[i]);
    }
  }

  // ---- as it runs ---------------------------------------------------------

  method BuildTable() returns (table: array<bv32>)
    ensures fresh(table) && table.Length == 256
    ensures forall i | 0 <= i < 256 :: table[i] == TableEntry(i as bv8)
  {
    hide Shift, Wide;
    table := new bv32[256];
    for i := 0 to 256
      invariant forall j | 0 <= j < i :: table[j] == TableEntry(j as bv8)
    {
      var start := Wide(i as bv8);
      var c := start;
      for k := 0 to 8
        invariant c == Shifts(start, k)
      {
        c := Shift(c);
      }
      table[i] := c;
    }
  }

  class Hasher {
    const table: array<bv32>
    var value: bv32

    ghost predicate Valid()
      reads this, table
    {
      table.Length == 256 && forall i | 0 <= i < 256 :: table[i] == TableEntry(i as bv8)
    }

    constructor ()
      ensures Valid() && fresh(table) && value == START
    {
      var built := BuildTable();
      table := built;
      value := START;
    }

    method Update(data: seq<byte>)
      requires Valid()
      modifies this
      ensures Valid() && value == Serial(old(value), data)
    {
      hide SerialBits, LowByte, TableEntry, Xor, Upper, Wide, AsBits;
      var v := value;
      for i := 0 to |data|
        invariant v == Serial(old(value), data[..i])
      {
        assert data[..i + 1] == data[..i] + [data[i]];
        SerialAppend(old(value), data[..i], data[i]);
        var b := AsBits(data[i]);
        var index := LowByte(Xor(v, Wide(b)));
        Words.BitsRoundTrip(index);
        TableStepIsSerial(v, b);
        v := Xor(table[index as int], Upper(v));
      }
      assert data[..|data|] == data;
      value := v;
    }

    method Value() returns (checksum: bv32)
      ensures checksum == Xor(value, 0xFFFF_FFFF)
    {
      checksum := Xor(value, 0xFFFF_FFFF);
    }
  }

  method ComputeChecksum(data: seq<byte>) returns (checksum: bv32)
    ensures checksum == Checksum(data)
  {
    hide Serial, Xor;
    var hasher := new Hasher();
    hasher.Update(data);
    checksum := hasher.Value();
  }
}
