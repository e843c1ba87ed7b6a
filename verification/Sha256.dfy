/**
 * SHA-256 of FIPS 180-4, and the incremental hasher that computes it over any split of the
 * message.
 */
module Sha256 {
  import opened Domain
  import opened Buffers

  const BLOCK_BYTES: nat := 64

  // ---- words, section 4.1.2 of FIPS 180-4 ---------------------------------

  function RotateRight(x: bv32, n: bv6): bv32
    requires 0 < n < 32
  {
    (x >> n) | (x << (32 - n))
  }

  function Choose(x: bv32, y: bv32, z: bv32): bv32 {
    (x & y) ^ (!x & z)
  }

  function Majority(x: bv32, y: bv32, z: bv32): bv32 {
    (x & y) ^ (x & z) ^ (y & z)
  }

  function Parity(x: bv32, y: bv32, z: bv32): bv32 {
    x ^ y ^ z
  }

  function BigSigma0(x: bv32): bv32 {
    Parity(RotateRight(x, 2), RotateRight(x, 13), RotateRight(x, 22))
  }

  function BigSigma1(x: bv32): bv32 {
    Parity(RotateRight(x, 6), RotateRight(x, 11), RotateRight(x, 25))
  }

  function SmallSigma0(x: bv32): bv32 {
    Parity(RotateRight(x, 7), RotateRight(x, 18), x >> 3)
  }

  function SmallSigma1(x: bv32): bv32 {
    Parity(RotateRight(x, 17), RotateRight(x, 19), x >> 10)
  }

  /** The constants of section 4.2.2 of FIPS 180-4. */
  const ROUND_CONSTANTS: seq<bv32> :=
    [0x428a2f98, 0x71374491, 0xb5c0fbcf, 0xe9b5dba5, 0x3956c25b, 0x59f111f1, 0x923f82a4, 0xab1c5ed5]
    + [0xd807aa98, 0x12835b01, 0x243185be, 0x550c7dc3, 0x72be5d74, 0x80deb1fe, 0x9bdc06a7, 0xc19bf174]
    + [0xe49b69c1, 0xefbe4786, 0x0fc19dc6, 0x240ca1cc, 0x2de92c6f, 0x4a7484aa, 0x5cb0a9dc, 0x76f988da]
    + [0x983e5152, 0xa831c66d, 0xb00327c8, 0xbf597fc7, 0xc6e00bf3, 0xd5a79147, 0x06ca6351, 0x14292967]
    + [0x27b70a85, 0x2e1b2138, 0x4d2c6dfc, 0x53380d13, 0x650a7354, 0x766a0abb, 0x81c2c92e, 0x92722c85]
    + [0xa2bfe8a1, 0xa81a664b, 0xc24b8b70, 0xc76c51a3, 0xd192e819, 0xd6990624, 0xf40e3585, 0x106aa070]
    + [0x19a4c116, 0x1e376c08, 0x2748774c, 0x34b0bcb5, 0x391c0cb3, 0x4ed8aa4a, 0x5b9cca4f, 0x682e6ff3]
    + [0x748f82ee, 0x78a5636f, 0x84c87814, 0x8cc70208, 0x90befffa, 0xa4506ceb, 0xbef9a3f7, 0xc67178f2]

  /** The initial hash value of section 5.3.3 of FIPS 180-4. */
  const INITIAL: seq<bv32> := [
    0x6a09e667, 0xbb67ae85, 0x3c6ef372, 0xa54ff53a, 0x510e527f, 0x9b05688c, 0x1f83d9ab, 0x5be0cd19]

  function InitialHash(): (h: seq<bv32>)
    ensures |h| == 8
  {
    INITIAL
  }

  function RoundConstant(t: nat): bv32
    requires t < 64
  {
    ROUND_CONSTANTS[t]
  }

  function BigEndianWord(b: seq<byte>): bv32
    requires |b| == 4
  {
    (((b[0] as bv8) as bv32) << 24) | (((b[1] as bv8) as bv32) << 16) | (((b[2] as bv8) as bv32) << 8) | ((b[3] as bv8) as bv32)
  }

  function WordBytes(w: bv32): (s: seq<byte>)
    ensures |s| == 4
  {
    [((w >> 24) & 0xFF) as bv8 as int, ((w >> 16) & 0xFF) as bv8 as int, ((w >> 8) & 0xFF) as bv8 as int,
     (w & 0xFF) as bv8 as int]
  }

  // ---- the compression function, section 6.2.2 of FIPS 180-4 --------------

  function Sum4(a: bv32, b: bv32, c: bv32, d: bv32): bv32 {
    a + b + c + d
  }

  function Schedule(block: seq<byte>, t: nat): bv32
    requires |block| == BLOCK_BYTES && t < 64
  {
    if t < 16 then BigEndianWord(block[4 * t..4 * t + 4])
    else Sum4(SmallSigma1(Schedule(block, t - 2)), Schedule(block, t - 7), SmallSigma0(Schedule(block, t - 15)),
              Schedule(block, t - 16))
  }

  datatype Working = Working(a: bv32, b: bv32, c: bv32, d: bv32, e: bv32, f: bv32, g: bv32, h: bv32)

  function FirstTemporary(s: Working, k: bv32, w: bv32): bv32 {
    s.h + BigSigma1(s.e) + Choose(s.e, s.f, s.g) + k + w
  }

  function SecondTemporary(s: Working): bv32 {
    BigSigma0(s.a) + Majority(s.a, s.b, s.c)
  }

  function Turn(s: Working, t1: bv32, t2: bv32): Working {
    Working(t1 + t2, s.a, s.b, s.c, s.d + t1, s.e, s.f, s.g)
  }

  function Round(s: Working, k: bv32, w: bv32): Working {
    Turn(s, FirstTemporary(s, k, w), SecondTemporary(s))
  }

  /** The working variables after the first `t` rounds. */
  function Rounds(s: Working, block: seq<byte>, t: nat): Working
    requires |block| == BLOCK_BYTES && t <= 64
  {
    if t == 0 then s else Round(Rounds(s, block, t - 1), RoundConstant(t - 1), Schedule(block, t - 1))
  }

  function Start(hash: seq<bv32>): Working
    requires |hash| == 8
  {
    Working(hash[0], hash[1], hash[2], hash[3], hash[4], hash[5], hash[6], hash[7])
  }

  function Added(hash: seq<bv32>, s: Working): (r: seq<bv32>)
    requires |hash| == 8
    ensures |r| == 8
  {
    [hash[0] + s.a, hash[1] + s.b, hash[2] + s.c, hash[3] + s.d, hash[4] + s.e, hash[5] + s.f, hash[6] + s.g, hash[7] + s.h]
  }

  function Compress(hash: seq<bv32>, block: seq<byte>): (r: seq<bv32>)
    requires |hash| == 8 && |block| == BLOCK_BYTES
    ensures |r| == 8
  {
    Added(hash, Rounds(Start(hash), block, 64))
  }

  // ---- the hash, sections 5.1.1 and 6.2.2 of FIPS 180-4 -------------------

  /** The compression folded over whole blocks. */
  function Fold(hash: seq<bv32>, data: seq<byte>): (r: seq<bv32>)
    requires |hash| == 8 && |data| % BLOCK_BYTES == 0
    ensures |r| == 8
  {
    if data == [] then hash
    else Compress(Fold(hash, data[..|data| - BLOCK_BYTES]), data[|data| - BLOCK_BYTES..])
  }

  function Zeros(n: nat): (s: seq<byte>)
    ensures |s| == n
  {
    seq(n, _ => 0)
  }

  /** How many zero bytes bring a message and its marker to 56 bytes past a block. */
  function ZeroCount(n: nat): (k: nat)
    ensures k < BLOCK_BYTES && (n + 1 + k) % BLOCK_BYTES == 56
  {
    if n % 64 <= 55 then 55 - n % 64 else 119 - n % 64
  }

  function BigEndian(width: nat, value: nat): (s: seq<byte>)
    ensures |s| == width
  {
    if width == 0 then [] else BigEndian(width - 1, value / 256) + [value % 256]
  }

  function Padding(n: nat): (s: seq<byte>)
    ensures (n + |s|) % BLOCK_BYTES == 0
  {
    [0x80] + Zeros(ZeroCount(n)) + BigEndian(8, 8 * n)
  }

  function DigestBytes(hash: seq<bv32>): (d: seq<byte>)
    requires |hash| == 8
    ensures |d| == 32
  {
    WordBytes(hash[0]) + WordBytes(hash[1]) + WordBytes(hash[2]) + WordBytes(hash[3])
    + WordBytes(hash[4]) + WordBytes(hash[5]) + WordBytes(hash[6]) + WordBytes(hash[7])
  }

  function Hash(message: seq<byte>): (d: seq<byte>)
    ensures |d| == 32
  {
    DigestBytes(Fold(InitialHash(), message + Padding(|message|)))
  }

  // ---- folding in pieces --------------------------------------------------

  lemma {:induction false} FoldBlock(hash: seq<bv32>, data: seq<byte>, block: seq<byte>)
    requires |hash| == 8 && |data| % BLOCK_BYTES == 0 && |block| == BLOCK_BYTES
    ensures Fold(hash, data + block) == Compress(Fold(hash, data), block)
  {
    hide Compress;
    var all := data + block;
    assert all[..|all| - BLOCK_BYTES] == data && all[|all| - BLOCK_BYTES..] == block;
  }

  // ---- the hasher as it runs ----------------------------------------------

  method ExpandSchedule(block: seq<byte>) returns (w: array<bv32>)
    requires |block| == BLOCK_BYTES
    ensures fresh(w) && w.Length == 64 && forall t | 0 <= t < 64 :: w[t] == Schedule(block, t)
  {
    hide BigEndianWord, SmallSigma0, SmallSigma1, Sum4;
    w := new bv32[64];
    for i := 0 to 16
      invariant forall t | 0 <= t < i :: w[t] == Schedule(block, t)
    {
      w[i] := BigEndianWord(block[4 * i..4 * i + 4]);
    }
    for i := 16 to 64
      invariant forall t | 0 <= t < i :: w[t] == Schedule(block, t)
    {
      var s0 := SmallSigma0(w[i - 15]);
      var s1 := SmallSigma1(w[i - 2]);
      Sum4Reorders(w[i - 16], s0, w[i - 7], s1);
      w[i] := Sum4(w[i - 16], s0, w[i - 7], s1);
    }
  }

  lemma Sum4Reorders(a: bv32, b: bv32, c: bv32, d: bv32)
    ensures Sum4(a, b, c, d) == Sum4(d, c, b, a)
  {
  }

  method RunRounds(start: Working, block: seq<byte>, w: array<bv32>) returns (s: Working)
    requires |block| == BLOCK_BYTES && w.Length == 64 && forall t | 0 <= t < 64 :: w[t] == Schedule(block, t)
    ensures s == Rounds(start, block, 64)
  {
    hide Schedule, RoundConstant, FirstTemporary, SecondTemporary, Turn;
    s := start;
    for i := 0 to 64
      invariant s == Rounds(start, block, i)
    {
      var t1 := FirstTemporary(s, RoundConstant(i), w[i]);
      var t2 := SecondTemporary(s);
      s := Turn(s, t1, t2);
    }
  }

  class Hasher {
    const state: array<bv32>
    const buffer: array<byte>
    var total: nat
    var buffered: nat
    /** Every byte absorbed since the hasher was reset. */
    ghost var message: seq<byte>

    /** Whole blocks are in the state, the rest is waiting in the buffer. */
    ghost predicate Aligned()
      reads this`buffered, this`message, state, buffer
    {
      && state.Length == 8 && buffer.Length == BLOCK_BYTES
      && buffered < BLOCK_BYTES && buffered <= |message|
      && (|message| - buffered) % BLOCK_BYTES == 0
      && buffer[..buffered] == message[|message| - buffered..]
      && state[..] == Fold(InitialHash(), message[..|message| - buffered])
    }

    ghost predicate Valid()
      reads this, state, buffer
    {
      Aligned() && total == Counted(|message|)
    }

    constructor ()
      ensures Valid() && fresh(state) && fresh(buffer) && message == []
    {
      state := new bv32[8](i requires 0 <= i < 8 => InitialHash()[i]);
      buffer := new byte[BLOCK_BYTES](_ => 0);
      total, buffered := 0, 0;
      message := [];
      new;
      assert state[..] == InitialHash();
    }

    method CompressBlock(block: seq<byte>)
      requires state.Length == 8 && |block| == BLOCK_BYTES
      modifies state
      ensures state[..] == Compress(old(state[..]), block)
    {
      hide Rounds;
      var w := ExpandSchedule(block);
      var s := RunRounds(Start(state[..]), block, w);
      var next := Added(state[..], s);
      for i := 0 to 8
        invariant state[..i] == next[..i]
      {
        state[i] := next[i];
      }
    }

    /** Absorbs at most the rest of one block. */
    method Absorb(piece: seq<byte>)
      requires Aligned() && 0 < |piece| <= BLOCK_BYTES - buffered
      modifies this`buffered, this`message, state, buffer
      ensures Aligned() && message == old(message) + piece
      ensures buffered == PastBlock(old(buffered) + |piece|)
    {
      hide Compress, Fold;
      PutAt(buffer, buffered, piece);
      ghost var whole := message[..|message| - buffered];
      ghost var waiting := message[|message| - buffered..];
      assert message == whole + waiting;
      message := message + piece;
      assert message == whole + (waiting + piece);
      buffered := buffered + |piece|;
      assert buffer[..buffered] == waiting + piece;
      if buffered == BLOCK_BYTES {
        assert buffer[..] == buffer[..buffered];
        FoldBlock(InitialHash(), whole, waiting + piece);
        CompressBlock(buffer[..]);
        buffered := 0;
        assert message[..|message| - buffered] == message;
      } else {
        assert message[..|message| - buffered] == whole;
      }
    }

    method Update(data: seq<byte>)
      requires Valid()
      modifies this, state, buffer
      ensures Valid() && message == old(message) + data
      ensures buffered == PastBlock(old(buffered) + |data|)
    {
      hide Fold, Counted, PastBlock, Aligned;
      BufferedBelow(this);
      if |data| == 0 {
        assert old(message) + data == old(message);
        return;
      }
      AddModulo(|message|, |data|);
      total := Counted(total + |data|);
      var offset := 0;
      while offset < |data|
        invariant 0 <= offset <= |data| && Aligned()
        invariant message == old(message) + data[..offset]
        invariant buffered == PastBlock(old(buffered) + offset)
        invariant total == Counted(old(|message|) + |data|)
      {
        var take := if BLOCK_BYTES - buffered < |data| - offset then BLOCK_BYTES - buffered else |data| - offset;
        AddBlocks(old(buffered) + offset, take);
        Absorb(data[offset..offset + take]);
        assert data[..offset] + data[offset..offset + take] == data[..offset + take];
        offset := offset + take;
      }
      assert data[..offset] == data;
    }

    /** Absorbs zero bytes, a block at a time. */
    method PadZeros(fill: nat)
      requires Valid()
      modifies this, state, buffer
      ensures Valid() && message == old(message) + Zeros(fill)
      ensures buffered == PastBlock(old(buffered) + fill)
    {
      hide Fold, Counted, PastBlock, Aligned;
      BufferedBelow(this);
      ghost var start := message;
      var remaining := fill;
      assert start + Zeros(0) == start;
      while remaining > 0
        invariant 0 <= remaining <= fill && Valid()
        invariant message == start + Zeros(fill - remaining)
        invariant buffered == PastBlock(old(buffered) + (fill - remaining))
        decreases remaining
      {
        var chunk := if remaining < BLOCK_BYTES then remaining else BLOCK_BYTES;
        AddBlocks(old(buffered) + (fill - remaining), chunk);
        Update(Zeros(chunk));
        assert Zeros(fill - remaining) + Zeros(chunk) == Zeros(fill - remaining + chunk);
        remaining := remaining - chunk;
      }
    }

    /** The digest; afterwards the padding counts as absorbed and no byte is waiting. */
    method Finish() returns (out: seq<byte>)
      requires Valid() && |message| < 0x2000_0000_0000_0000
      modifies this, state, buffer
      ensures Valid() && buffered == 0
      ensures out == Hash(old(message))
      ensures message == old(message) + Padding(|old(message)|)
    {
      hide Fold, BigEndian, WordBytes, Padding, Zeros, Counted, PastBlock, ZeroCount;
      ghost var n := |message|;
      var bitLength := Counted(total * 8);
      LengthInBits(n);
      WaitingCount(n, buffered);
      Update([0x80]);
      var fill := if buffered <= 56 then 56 - buffered else 64 - buffered + 56;
      FillsToLength(n, buffered, fill);
      PadZeros(fill);
      Update(BigEndian(8, bitLength));
      PaddingParts(n);
      assert message == old(message) + Padding(n);
      assert message[..|message| - buffered] == message;
      out := DigestBytes(state[..]);
    }
  }

  /** With nothing absorbed the count of waiting bytes stays. */
  lemma BufferedBelow(h: Hasher)
    requires h.Aligned()
    ensures h.buffered < BLOCK_BYTES && h.buffered == PastBlock(h.buffered + 0)
  {
  }

  const TWO_64: nat := 0x1_0000_0000_0000_0000

  /** A byte count as its 64-bit field holds it. */
  function Counted(n: nat): nat {
    n % TWO_64
  }

  /** How many of `n` bytes are past the last whole block. */
  function PastBlock(n: nat): (k: nat)
    ensures k < BLOCK_BYTES
  {
    n % BLOCK_BYTES
  }

  lemma AddModulo(n: nat, d: nat)
    ensures Counted(Counted(n) + d) == Counted(n + d)
  {
    var q := n / TWO_64;
    assert n == q * TWO_64 + n % TWO_64;
    MultiplesVanish(q, n % TWO_64 + d);
  }

  lemma MultiplesVanish(q: nat, r: nat)
    ensures (q * TWO_64 + r) % TWO_64 == r % TWO_64
  {
  }

  lemma AddBlocks(n: nat, d: nat)
    ensures PastBlock(PastBlock(n) + d) == PastBlock(n + d)
  {
  }

  lemma LengthInBits(n: nat)
    requires n < 0x2000_0000_0000_0000
    ensures Counted(Counted(n) * 8) == 8 * n
  {
  }

  lemma WaitingCount(n: nat, buffered: nat)
    requires buffered < BLOCK_BYTES && buffered <= n && (n - buffered) % BLOCK_BYTES == 0
    ensures buffered == PastBlock(n)
  {
  }

  /** The zero bytes counted from the buffer are those section 5.1.1 asks for, and end at 56. */
  lemma FillsToLength(n: nat, buffered: nat, fill: nat)
    requires buffered == PastBlock(PastBlock(n) + 1)
    requires fill == if buffered <= 56 then 56 - buffered else 64 - buffered + 56
    ensures fill == ZeroCount(n) && PastBlock(buffered + fill) == 56 && PastBlock(56 + 8) == 0
  {
  }

  lemma PaddingParts(n: nat)
    ensures Padding(n) == [0x80] + Zeros(ZeroCount(n)) + BigEndian(8, 8 * n)
  {
  }

  function Flatten(chunks: seq<seq<byte>>): seq<byte> {
    if chunks == [] then [] else Flatten(chunks[..|chunks| - 1]) + chunks[|chunks| - 1]
  }

  /** Any split of the message into updates gives the hash of the whole message. */
  method HashInPieces(chunks: seq<seq<byte>>) returns (digest: seq<byte>)
    requires |Flatten(chunks)| < 0x2000_0000_0000_0000
    ensures digest == Hash(Flatten(chunks))
  {
    hide Hash;
    var hasher := new Hasher();
    for i := 0 to |chunks|
      invariant hasher.Valid() && fresh(hasher) && fresh(hasher.state) && fresh(hasher.buffer)
      invariant hasher.message == Flatten(chunks[..i])
    {
      assert chunks[..i + 1][..i] == chunks[..i];
      hasher.Update(chunks[i]);
    }
    assert chunks[..|chunks|] == chunks;
    digest := hasher.Finish();
  }
}
