/**
 * What the parts of SHA-256 compute, said apart from how, and the digest that FIPS 180-4
 * publishes for the message "abc".
 */
module Sha256Meaning {
  import opened Domain
  import opened Sha256

  // ---- the functions of section 4.1.2 -------------------------------------

  /** On the ones of `x` the bits of `y`, on its zeros the bits of `z`. */
  lemma ChooseSelects(x: bv32, y: bv32, z: bv32)
    ensures Choose(x, y, z) & x == y & x
    ensures Choose(x, y, z) & !x == z & !x
  {
  }

  /** The bits that at least two of the three have. */
  lemma MajorityOfTwo(x: bv32, y: bv32, z: bv32)
    ensures Majority(x, y, z) == (x & y) | (x & z) | (y & z)
  {
  }

  /** Every bit one place down, the lowest to the top. */
  function Roll(x: bv32): bv32 {
    (x >> 1) | (x << 31)
  }

  /** The word rolled `i` places. */
  function Rolled(x: bv32, i: nat): bv32
    decreases i
  {
    if i == 0 then x else Rolled(Roll(x), i - 1)
  }

  /** The bit at place `i`, counted from the lowest and starting again after the thirty-second. */
  predicate Bit(x: bv32, i: nat) {
    Odd(Rolled(x, i))
  }

  predicate Odd(x: bv32) {
    x & 1 == 1
  }


  lemma {:induction false} RolledAdds(x: bv32, i: nat, j: nat)
    ensures Rolled(Rolled(x, i), j) == Rolled(x, i + j)
    decreases i
  {
    if i > 0 {
      RolledAdds(Roll(x), i - 1, j);
    }
  }

  lemma RollOfParity(x: bv32, y: bv32, z: bv32)
    ensures Roll(Parity(x, y, z)) == Parity(Roll(x), Roll(y), Roll(z))
  {
  }

  lemma OddParity(x: bv32, y: bv32, z: bv32)
    ensures Odd(Parity(x, y, z)) == ((Odd(x) != Odd(y)) != Odd(z))
  {
  }

  lemma {:induction false} BitOfParity(x: bv32, y: bv32, z: bv32, i: nat)
    ensures Bit(Parity(x, y, z), i) == ((Bit(x, i) != Bit(y, i)) != Bit(z, i))
    decreases i
  {
    hide Roll, Odd, Parity;
    if i == 0 {
      OddParity(x, y, z);
    } else {
      RollOfParity(x, y, z);
      BitOfParity(Roll(x), Roll(y), Roll(z), i - 1);
    }
  }

  lemma RolledOnce(x: bv32)
    ensures Rolled(x, 1) == RotateRight(x, 1)
  {
  }

  lemma RolledTwice(x: bv32)
    ensures Rolled(x, 2) == RotateRight(x, 2)
  {
    assert RotateRight(RotateRight(x, 1), 1) == RotateRight(x, 2);
    RolledOnce(x);
    RolledOnce(RotateRight(x, 1));
    RolledAdds(x, 1, 1);
  }

  lemma RolledBy4(x: bv32)
    ensures Rolled(x, 4) == RotateRight(x, 4)
  {
    assert RotateRight(RotateRight(x, 2), 2) == RotateRight(x, 4);
    RolledTwice(x);
    RolledTwice(RotateRight(x, 2));
    RolledAdds(x, 2, 2);
  }

  lemma RolledBy6(x: bv32)
    ensures Rolled(x, 6) == RotateRight(x, 6)
  {
    assert RotateRight(RotateRight(x, 4), 2) == RotateRight(x, 6);
    RolledBy4(x);
    RolledTwice(RotateRight(x, 4));
    RolledAdds(x, 4, 2);
  }

  lemma RolledBy7(x: bv32)
    ensures Rolled(x, 7) == RotateRight(x, 7)
  {
    assert RotateRight(RotateRight(x, 6), 1) == RotateRight(x, 7);
    RolledBy6(x);
    RolledOnce(RotateRight(x, 6));
    RolledAdds(x, 6, 1);
  }

  lemma RolledBy11(x: bv32)
    ensures Rolled(x, 11) == RotateRight(x, 11)
  {
    assert RotateRight(RotateRight(x, 7), 4) == RotateRight(x, 11);
    RolledBy7(x);
    RolledBy4(RotateRight(x, 7));
    RolledAdds(x, 7, 4);
  }

  lemma RolledBy13(x: bv32)
    ensures Rolled(x, 13) == RotateRight(x, 13)
  {
    assert RotateRight(RotateRight(x, 11), 2) == RotateRight(x, 13);
    RolledBy11(x);
    RolledTwice(RotateRight(x, 11));
    RolledAdds(x, 11, 2);
  }

  lemma RolledBy17(x: bv32)
    ensures Rolled(x, 17) == RotateRight(x, 17)
  {
    assert RotateRight(RotateRight(x, 13), 4) == RotateRight(x, 17);
    RolledBy13(x);
    RolledBy4(RotateRight(x, 13));
    RolledAdds(x, 13, 4);
  }

  lemma RolledBy18(x: bv32)
    ensures Rolled(x, 18) == RotateRight(x, 18)
  {
    assert RotateRight(RotateRight(x, 17), 1) == RotateRight(x, 18);
    RolledBy17(x);
    RolledOnce(RotateRight(x, 17));
    RolledAdds(x, 17, 1);
  }

  lemma RolledBy19(x: bv32)
    ensures Rolled(x, 19) == RotateRight(x, 19)
  {
    assert RotateRight(RotateRight(x, 17), 2) == RotateRight(x, 19);
    RolledBy17(x);
    RolledTwice(RotateRight(x, 17));
    RolledAdds(x, 17, 2);
  }

  lemma RolledBy22(x: bv32)
    ensures Rolled(x, 22) == RotateRight(x, 22)
  {
    assert RotateRight(RotateRight(x, 18), 4) == RotateRight(x, 22);
    RolledBy18(x);
    RolledBy4(RotateRight(x, 18));
    RolledAdds(x, 18, 4);
  }

  lemma RolledBy25(x: bv32)
    ensures Rolled(x, 25) == RotateRight(x, 25)
  {
    assert RotateRight(RotateRight(x, 19), 6) == RotateRight(x, 25);
    RolledBy19(x);
    RolledBy6(RotateRight(x, 19));
    RolledAdds(x, 19, 6);
  }

  lemma BitOfRotated(x: bv32, n: bv6, m: nat, i: nat)
    requires 0 < n < 32 && RotateRight(x, n) == Rolled(x, m)
    ensures Bit(RotateRight(x, n), i) == Bit(x, i + m)
  {
    hide RotateRight;
    RolledAdds(x, m, i);
  }

  /** Bit i is the exclusive-or of the bits 2, 13 and 22 places above it. */
  lemma BigSigma0Bits(x: bv32, i: nat)
    ensures Bit(BigSigma0(x), i) == ((Bit(x, i + 2) != Bit(x, i + 13)) != Bit(x, i + 22))
  {
    hide RotateRight, Rolled, Bit, Parity;
    RolledTwice(x);
    BitOfRotated(x, 2, 2, i);
    RolledBy13(x);
    BitOfRotated(x, 13, 13, i);
    RolledBy22(x);
    BitOfRotated(x, 22, 22, i);
    BitOfParity(RotateRight(x, 2), RotateRight(x, 13), RotateRight(x, 22), i);
  }

  /** Bit i is the exclusive-or of the bits 6, 11 and 25 places above it. */
  lemma BigSigma1Bits(x: bv32, i: nat)
    ensures Bit(BigSigma1(x), i) == ((Bit(x, i + 6) != Bit(x, i + 11)) != Bit(x, i + 25))
  {
    hide RotateRight, Rolled, Bit, Parity;
    RolledBy6(x);
    BitOfRotated(x, 6, 6, i);
    RolledBy11(x);
    BitOfRotated(x, 11, 11, i);
    RolledBy25(x);
    BitOfRotated(x, 25, 25, i);
    BitOfParity(RotateRight(x, 6), RotateRight(x, 11), RotateRight(x, 25), i);
  }

  /** Bit i is the exclusive-or of the bits 7 and 18 places above it and of bit i of the word shifted down by 3. */
  lemma SmallSigma0Bits(x: bv32, i: nat)
    ensures Bit(SmallSigma0(x), i) == ((Bit(x, i + 7) != Bit(x, i + 18)) != Bit(x >> 3, i))
  {
    hide RotateRight, Rolled, Bit, Parity;
    RolledBy7(x);
    BitOfRotated(x, 7, 7, i);
    RolledBy18(x);
    BitOfRotated(x, 18, 18, i);
    BitOfParity(RotateRight(x, 7), RotateRight(x, 18), x >> 3, i);
  }

  /** Bit i is the exclusive-or of the bits 17 and 19 places above it and of bit i of the word shifted down by 10. */
  lemma SmallSigma1Bits(x: bv32, i: nat)
    ensures Bit(SmallSigma1(x), i) == ((Bit(x, i + 17) != Bit(x, i + 19)) != Bit(x >> 10, i))
  {
    hide RotateRight, Rolled, Bit, Parity;
    RolledBy17(x);
    BitOfRotated(x, 17, 17, i);
    RolledBy19(x);
    BitOfRotated(x, 19, 19, i);
    BitOfParity(RotateRight(x, 17), RotateRight(x, 19), x >> 10, i);
  }

  // ---- the constants of sections 4.2.2 and 5.3.3 ------------------------------

  /** `k` is the first thirty-two bits of the fraction of the cube root of `p`, whose whole part is `c`. */
  predicate CubeRoot(p: nat, c: nat, k: nat) {
    var r := c * 0x1_0000_0000 + k;
    r * r * r <= p * 0x1_0000_0000 * 0x1_0000_0000 * 0x1_0000_0000 < (r + 1) * (r + 1) * (r + 1)
  }

  predicate SquareRoot(p: nat, c: nat, k: nat) {
    var r := c * 0x1_0000_0000 + k;
    r * r <= p * 0x1_0000_0000 * 0x1_0000_0000 < (r + 1) * (r + 1)
  }

  lemma ConstantsFrom0()
    ensures RoundConstant(0) == 0x428a2f98 && CubeRoot(2, 1, 0x428a2f98)
    ensures RoundConstant(1) == 0x71374491 && CubeRoot(3, 1, 0x71374491)
    ensures RoundConstant(2) == 0xb5c0fbcf && CubeRoot(5, 1, 0xb5c0fbcf)
    ensures RoundConstant(3) == 0xe9b5dba5 && CubeRoot(7, 1, 0xe9b5dba5)
  {
  }

  lemma ConstantsFrom4()
    ensures RoundConstant(4) == 0x3956c25b && CubeRoot(11, 2, 0x3956c25b)
    ensures RoundConstant(5) == 0x59f111f1 && CubeRoot(13, 2, 0x59f111f1)
    ensures RoundConstant(6) == 0x923f82a4 && CubeRoot(17, 2, 0x923f82a4)
    ensures RoundConstant(7) == 0xab1c5ed5 && CubeRoot(19, 2, 0xab1c5ed5)
  {
  }

  lemma ConstantsFrom8()
    ensures RoundConstant(8) == 0xd807aa98 && CubeRoot(23, 2, 0xd807aa98)
    ensures RoundConstant(9) == 0x12835b01 && CubeRoot(29, 3, 0x12835b01)
    ensures RoundConstant(10) == 0x243185be && CubeRoot(31, 3, 0x243185be)
    ensures RoundConstant(11) == 0x550c7dc3 && CubeRoot(37, 3, 0x550c7dc3)
  {
  }

  lemma ConstantsFrom12()
    ensures RoundConstant(12) == 0x72be5d74 && CubeRoot(41, 3, 0x72be5d74)
    ensures RoundConstant(13) == 0x80deb1fe && CubeRoot(43, 3, 0x80deb1fe)
    ensures RoundConstant(14) == 0x9bdc06a7 && CubeRoot(47, 3, 0x9bdc06a7)
    ensures RoundConstant(15) == 0xc19bf174 && CubeRoot(53, 3, 0xc19bf174)
  {
  }

  lemma ConstantsFrom16()
    ensures RoundConstant(16) == 0xe49b69c1 && CubeRoot(59, 3, 0xe49b69c1)
    ensures RoundConstant(17) == 0xefbe4786 && CubeRoot(61, 3, 0xefbe4786)
    ensures RoundConstant(18) == 0x0fc19dc6 && CubeRoot(67, 4, 0x0fc19dc6)
    ensures RoundConstant(19) == 0x240ca1cc && CubeRoot(71, 4, 0x240ca1cc)
  {
  }

  lemma ConstantsFrom20()
    ensures RoundConstant(20) == 0x2de92c6f && CubeRoot(73, 4, 0x2de92c6f)
    ensures RoundConstant(21) == 0x4a7484aa && CubeRoot(79, 4, 0x4a7484aa)
    ensures RoundConstant(22) == 0x5cb0a9dc && CubeRoot(83, 4, 0x5cb0a9dc)
    ensures RoundConstant(23) == 0x76f988da && CubeRoot(89, 4, 0x76f988da)
  {
  }

  lemma ConstantsFrom24()
    ensures RoundConstant(24) == 0x983e5152 && CubeRoot(97, 4, 0x983e5152)
    ensures RoundConstant(25) == 0xa831c66d && CubeRoot(101, 4, 0xa831c66d)
    ensures RoundConstant(26) == 0xb00327c8 && CubeRoot(103, 4, 0xb00327c8)
    ensures RoundConstant(27) == 0xbf597fc7 && CubeRoot(107, 4, 0xbf597fc7)
  {
  }

  lemma ConstantsFrom28()
    ensures RoundConstant(28) == 0xc6e00bf3 && CubeRoot(109, 4, 0xc6e00bf3)
    ensures RoundConstant(29) == 0xd5a79147 && CubeRoot(113, 4, 0xd5a79147)
    ensures RoundConstant(30) == 0x06ca6351 && CubeRoot(127, 5, 0x06ca6351)
    ensures RoundConstant(31) == 0x14292967 && CubeRoot(131, 5, 0x14292967)
  {
  }

  lemma ConstantsFrom32()
    ensures RoundConstant(32) == 0x27b70a85 && CubeRoot(137, 5, 0x27b70a85)
    ensures RoundConstant(33) == 0x2e1b2138 && CubeRoot(139, 5, 0x2e1b2138)
    ensures RoundConstant(34) == 0x4d2c6dfc && CubeRoot(149, 5, 0x4d2c6dfc)
    ensures RoundConstant(35) == 0x53380d13 && CubeRoot(151, 5, 0x53380d13)
  {
  }

  lemma ConstantsFrom36()
    ensures RoundConstant(36) == 0x650a7354 && CubeRoot(157, 5, 0x650a7354)
    ensures RoundConstant(37) == 0x766a0abb && CubeRoot(163, 5, 0x766a0abb)
    ensures RoundConstant(38) == 0x81c2c92e && CubeRoot(167, 5, 0x81c2c92e)
    ensures RoundConstant(39) == 0x92722c85 && CubeRoot(173, 5, 0x92722c85)
  {
  }

  lemma ConstantsFrom40()
    ensures RoundConstant(40) == 0xa2bfe8a1 && CubeRoot(179, 5, 0xa2bfe8a1)
    ensures RoundConstant(41) == 0xa81a664b && CubeRoot(181, 5, 0xa81a664b)
    ensures RoundConstant(42) == 0xc24b8b70 && CubeRoot(191, 5, 0xc24b8b70)
    ensures RoundConstant(43) == 0xc76c51a3 && CubeRoot(193, 5, 0xc76c51a3)
  {
  }

  lemma ConstantsFrom44()
    ensures RoundConstant(44) == 0xd192e819 && CubeRoot(197, 5, 0xd192e819)
    ensures RoundConstant(45) == 0xd6990624 && CubeRoot(199, 5, 0xd6990624)
    ensures RoundConstant(46) == 0xf40e3585 && CubeRoot(211, 5, 0xf40e3585)
    ensures RoundConstant(47) == 0x106aa070 && CubeRoot(223, 6, 0x106aa070)
  {
  }

  lemma ConstantsFrom48()
    ensures RoundConstant(48) == 0x19a4c116 && CubeRoot(227, 6, 0x19a4c116)
    ensures RoundConstant(49) == 0x1e376c08 && CubeRoot(229, 6, 0x1e376c08)
    ensures RoundConstant(50) == 0x2748774c && CubeRoot(233, 6, 0x2748774c)
    ensures RoundConstant(51) == 0x34b0bcb5 && CubeRoot(239, 6, 0x34b0bcb5)
  {
  }

  lemma ConstantsFrom52()
    ensures RoundConstant(52) == 0x391c0cb3 && CubeRoot(241, 6, 0x391c0cb3)
    ensures RoundConstant(53) == 0x4ed8aa4a && CubeRoot(251, 6, 0x4ed8aa4a)
    ensures RoundConstant(54) == 0x5b9cca4f && CubeRoot(257, 6, 0x5b9cca4f)
    ensures RoundConstant(55) == 0x682e6ff3 && CubeRoot(263, 6, 0x682e6ff3)
  {
  }

  lemma ConstantsFrom56()
    ensures RoundConstant(56) == 0x748f82ee && CubeRoot(269, 6, 0x748f82ee)
    ensures RoundConstant(57) == 0x78a5636f && CubeRoot(271, 6, 0x78a5636f)
    ensures RoundConstant(58) == 0x84c87814 && CubeRoot(277, 6, 0x84c87814)
    ensures RoundConstant(59) == 0x8cc70208 && CubeRoot(281, 6, 0x8cc70208)
  {
  }

  lemma ConstantsFrom60()
    ensures RoundConstant(60) == 0x90befffa && CubeRoot(283, 6, 0x90befffa)
    ensures RoundConstant(61) == 0xa4506ceb && CubeRoot(293, 6, 0xa4506ceb)
    ensures RoundConstant(62) == 0xbef9a3f7 && CubeRoot(307, 6, 0xbef9a3f7)
    ensures RoundConstant(63) == 0xc67178f2 && CubeRoot(311, 6, 0xc67178f2)
  {
  }

  lemma InitialWords()
    ensures InitialHash()[0] == 0x6a09e667 && SquareRoot(2, 1, 0x6a09e667)
    ensures InitialHash()[1] == 0xbb67ae85 && SquareRoot(3, 1, 0xbb67ae85)
    ensures InitialHash()[2] == 0x3c6ef372 && SquareRoot(5, 2, 0x3c6ef372)
    ensures InitialHash()[3] == 0xa54ff53a && SquareRoot(7, 2, 0xa54ff53a)
    ensures InitialHash()[4] == 0x510e527f && SquareRoot(11, 3, 0x510e527f)
    ensures InitialHash()[5] == 0x9b05688c && SquareRoot(13, 3, 0x9b05688c)
    ensures InitialHash()[6] == 0x1f83d9ab && SquareRoot(17, 4, 0x1f83d9ab)
    ensures InitialHash()[7] == 0x5be0cd19 && SquareRoot(19, 4, 0x5be0cd19)
  {
  }

  // ---- the message "abc" ----------------------------------------------------

  const ABC: seq<byte> := [0x61, 0x62, 0x63]

  /** The one block that "abc" is padded to. */
  predicate Padded(block: seq<byte>) {
    |block| == BLOCK_BYTES && block == ABC + Padding(3)
  }

  lemma PaddedBytes(block: seq<byte>)
    requires Padded(block)
    ensures block[..4] == [0x61, 0x62, 0x63, 0x80]
    ensures forall i | 4 <= i < 63 :: block[i] == 0
    ensures block[63] == 24
  {
    LengthOfAbc();
  }

  lemma LengthOfAbc()
    ensures BigEndian(8, 24) == [0, 0, 0, 0, 0, 0, 0, 24]
  {
    assert BigEndian(7, 0) == [0, 0, 0, 0, 0, 0, 0] by {
      assert BigEndian(4, 0) == [0, 0, 0, 0];
    }
  }

  lemma PaddedWords()
    ensures BigEndianWord([0x61, 0x62, 0x63, 0x80]) == 0x61626380
    ensures BigEndianWord([0, 0, 0, 0]) == 0
    ensures BigEndianWord([0, 0, 0, 24]) == 24
  {
  }

  lemma AbcBlockWords(block: seq<byte>)
    requires Padded(block)
    ensures Schedule(block, 0) == 0x61626380
    ensures forall t | 1 <= t < 15 :: Schedule(block, t) == 0
    ensures Schedule(block, 15) == 24
  {
    hide BigEndianWord, Padding;
    PaddedBytes(block);
    PaddedWords();
    assert block[0..4] == block[..4];
    forall t | 1 <= t < 15
      ensures Schedule(block, t) == 0
    {
      assert block[4 * t..4 * t + 4] == [0, 0, 0, 0];
    }
    assert block[60..64] == [0, 0, 0, 24];
  }

  lemma AbcWordsFrom0(block: seq<byte>)
    requires Padded(block)
    ensures Schedule(block, 0) == 0x61626380
    ensures Schedule(block, 1) == 0x00000000
    ensures Schedule(block, 2) == 0x00000000
    ensures Schedule(block, 3) == 0x00000000
    ensures Schedule(block, 4) == 0x00000000
    ensures Schedule(block, 5) == 0x00000000
    ensures Schedule(block, 6) == 0x00000000
    ensures Schedule(block, 7) == 0x00000000
  {
    hide Schedule;
    AbcBlockWords(block);
  }

  lemma AbcWordsFrom8(block: seq<byte>)
    requires Padded(block)
    ensures Schedule(block, 8) == 0x00000000
    ensures Schedule(block, 9) == 0x00000000
    ensures Schedule(block, 10) == 0x00000000
    ensures Schedule(block, 11) == 0x00000000
    ensures Schedule(block, 12) == 0x00000000
    ensures Schedule(block, 13) == 0x00000000
    ensures Schedule(block, 14) == 0x00000000
    ensures Schedule(block, 15) == 0x00000018
  {
    hide Schedule;
    AbcBlockWords(block);
  }

  /** The next word of the schedule, from the words two, seven, fifteen and sixteen back. */
  function NextWord(w2: bv32, w7: bv32, w15: bv32, w16: bv32): bv32 {
    Sum4(SmallSigma1(w2), w7, SmallSigma0(w15), w16)
  }

  lemma ScheduleStep(block: seq<byte>, t: nat)
    requires |block| == BLOCK_BYTES && 16 <= t < 64
    ensures Schedule(block, t) == NextWord(Schedule(block, t - 2), Schedule(block, t - 7),
                                           Schedule(block, t - 15), Schedule(block, t - 16))
  {
    hide Sum4, SmallSigma0, SmallSigma1, BigEndianWord;
  }

  lemma AbcWordsFrom16(block: seq<byte>)
    requires Padded(block)
    ensures Schedule(block, 16) == 0x61626380
    ensures Schedule(block, 17) == 0x000f0000
    ensures Schedule(block, 18) == 0x7da86405
    ensures Schedule(block, 19) == 0x600003c6
    ensures Schedule(block, 20) == 0x3e9d7b78
    ensures Schedule(block, 21) == 0x0183fc00
    ensures Schedule(block, 22) == 0x12dcbfdb
    ensures Schedule(block, 23) == 0xe2e2c38e
  {
    hide Schedule, Padding;
    AbcWordsFrom0(block);
    AbcWordsFrom8(block);
    ScheduleStep(block, 16);
    assert NextWord(0x00000000, 0x00000000, 0x00000000, 0x61626380) == 0x61626380;
    ScheduleStep(block, 17);
    assert NextWord(0x00000018, 0x00000000, 0x00000000, 0x00000000) == 0x000f0000;
    ScheduleStep(block, 18);
    assert NextWord(0x61626380, 0x00000000, 0x00000000, 0x00000000) == 0x7da86405;
    ScheduleStep(block, 19);
    assert NextWord(0x000f0000, 0x00000000, 0x00000000, 0x00000000) == 0x600003c6;
    ScheduleStep(block, 20);
    assert NextWord(0x7da86405, 0x00000000, 0x00000000, 0x00000000) == 0x3e9d7b78;
    ScheduleStep(block, 21);
    assert NextWord(0x600003c6, 0x00000000, 0x00000000, 0x00000000) == 0x0183fc00;
    ScheduleStep(block, 22);
    assert NextWord(0x3e9d7b78, 0x00000018, 0x00000000, 0x00000000) == 0x12dcbfdb;
    ScheduleStep(block, 23);
    assert NextWord(0x0183fc00, 0x61626380, 0x00000000, 0x00000000) == 0xe2e2c38e;
  }

  lemma AbcWordsFrom24(block: seq<byte>)
    requires Padded(block)
    ensures Schedule(block, 24) == 0xc8215c1a
    ensures Schedule(block, 25) == 0xb73679a2
    ensures Schedule(block, 26) == 0xe5bc3909
    ensures Schedule(block, 27) == 0x32663c5b
    ensures Schedule(block, 28) == 0x9d209d67
    ensures Schedule(block, 29) == 0xec8726cb
    ensures Schedule(block, 30) == 0x702138a4
    ensures Schedule(block, 31) == 0xd3b7973b
  {
    hide Schedule, Padding;
    AbcWordsFrom8(block);
    AbcWordsFrom16(block);
    ScheduleStep(block, 24);
    assert NextWord(0x12dcbfdb, 0x000f0000, 0x00000000, 0x00000000) == 0xc8215c1a;
    ScheduleStep(block, 25);
    assert NextWord(0xe2e2c38e, 0x7da86405, 0x00000000, 0x00000000) == 0xb73679a2;
    ScheduleStep(block, 26);
    assert NextWord(0xc8215c1a, 0x600003c6, 0x00000000, 0x00000000) == 0xe5bc3909;
    ScheduleStep(block, 27);
    assert NextWord(0xb73679a2, 0x3e9d7b78, 0x00000000, 0x00000000) == 0x32663c5b;
    ScheduleStep(block, 28);
    assert NextWord(0xe5bc3909, 0x0183fc00, 0x00000000, 0x00000000) == 0x9d209d67;
    ScheduleStep(block, 29);
    assert NextWord(0x32663c5b, 0x12dcbfdb, 0x00000000, 0x00000000) == 0xec8726cb;
    ScheduleStep(block, 30);
    assert NextWord(0x9d209d67, 0xe2e2c38e, 0x00000018, 0x00000000) == 0x702138a4;
    ScheduleStep(block, 31);
    assert NextWord(0xec8726cb, 0xc8215c1a, 0x61626380, 0x00000018) == 0xd3b7973b;
  }

  lemma AbcWordsFrom32(block: seq<byte>)
    requires Padded(block)
    ensures Schedule(block, 32) == 0x93f5997f
    ensures Schedule(block, 33) == 0x3b68ba73
    ensures Schedule(block, 34) == 0xaff4ffc1
    ensures Schedule(block, 35) == 0xf10a5c62
    ensures Schedule(block, 36) == 0x0a8b3996
    ensures Schedule(block, 37) == 0x72af830a
    ensures Schedule(block, 38) == 0x9409e33e
    ensures Schedule(block, 39) == 0x24641522
  {
    hide Schedule, Padding;
    AbcWordsFrom16(block);
    AbcWordsFrom24(block);
    ScheduleStep(block, 32);
    assert NextWord(0x702138a4, 0xb73679a2, 0x000f0000, 0x61626380) == 0x93f5997f;
    ScheduleStep(block, 33);
    assert NextWord(0xd3b7973b, 0xe5bc3909, 0x7da86405, 0x000f0000) == 0x3b68ba73;
    ScheduleStep(block, 34);
    assert NextWord(0x93f5997f, 0x32663c5b, 0x600003c6, 0x7da86405) == 0xaff4ffc1;
    ScheduleStep(block, 35);
    assert NextWord(0x3b68ba73, 0x9d209d67, 0x3e9d7b78, 0x600003c6) == 0xf10a5c62;
    ScheduleStep(block, 36);
    assert NextWord(0xaff4ffc1, 0xec8726cb, 0x0183fc00, 0x3e9d7b78) == 0x0a8b3996;
    ScheduleStep(block, 37);
    assert NextWord(0xf10a5c62, 0x702138a4, 0x12dcbfdb, 0x0183fc00) == 0x72af830a;
    ScheduleStep(block, 38);
    assert NextWord(0x0a8b3996, 0xd3b7973b, 0xe2e2c38e, 0x12dcbfdb) == 0x9409e33e;
    ScheduleStep(block, 39);
    assert NextWord(0x72af830a, 0x93f5997f, 0xc8215c1a, 0xe2e2c38e) == 0x24641522;
  }

  lemma AbcWordsFrom40(block: seq<byte>)
    requires Padded(block)
    ensures Schedule(block, 40) == 0x9f47bf94
    ensures Schedule(block, 41) == 0xf0a64f5a
    ensures Schedule(block, 42) == 0x3e246a79
    ensures Schedule(block, 43) == 0x27333ba3
    ensures Schedule(block, 44) == 0x0c4763f2
    ensures Schedule(block, 45) == 0x840abf27
    ensures Schedule(block, 46) == 0x7a290d5d
    ensures Schedule(block, 47) == 0x065c43da
  {
    hide Schedule, Padding;
    AbcWordsFrom24(block);
    AbcWordsFrom32(block);
    ScheduleStep(block, 40);
    assert NextWord(0x9409e33e, 0x3b68ba73, 0xb73679a2, 0xc8215c1a) == 0x9f47bf94;
    ScheduleStep(block, 41);
    assert NextWord(0x24641522, 0xaff4ffc1, 0xe5bc3909, 0xb73679a2) == 0xf0a64f5a;
    ScheduleStep(block, 42);
    assert NextWord(0x9f47bf94, 0xf10a5c62, 0x32663c5b, 0xe5bc3909) == 0x3e246a79;
    ScheduleStep(block, 43);
    assert NextWord(0xf0a64f5a, 0x0a8b3996, 0x9d209d67, 0x32663c5b) == 0x27333ba3;
    ScheduleStep(block, 44);
    assert NextWord(0x3e246a79, 0x72af830a, 0xec8726cb, 0x9d209d67) == 0x0c4763f2;
    ScheduleStep(block, 45);
    assert NextWord(0x27333ba3, 0x9409e33e, 0x702138a4, 0xec8726cb) == 0x840abf27;
    ScheduleStep(block, 46);
    assert NextWord(0x0c4763f2, 0x24641522, 0xd3b7973b, 0x702138a4) == 0x7a290d5d;
    ScheduleStep(block, 47);
    assert NextWord(0x840abf27, 0x9f47bf94, 0x93f5997f, 0xd3b7973b) == 0x065c43da;
  }

  lemma AbcWordsFrom48(block: seq<byte>)
    requires Padded(block)
    ensures Schedule(block, 48) == 0xfb3e89cb
    ensures Schedule(block, 49) == 0xcc7617db
    ensures Schedule(block, 50) == 0xb9e66c34
    ensures Schedule(block, 51) == 0xa9993667
    ensures Schedule(block, 52) == 0x84badedd
    ensures Schedule(block, 53) == 0xc21462bc
    ensures Schedule(block, 54) == 0x1487472c
    ensures Schedule(block, 55) == 0xb20f7a99
  {
    hide Schedule, Padding;
    AbcWordsFrom32(block);
    AbcWordsFrom40(block);
    ScheduleStep(block, 48);
    assert NextWord(0x7a290d5d, 0xf0a64f5a, 0x3b68ba73, 0x93f5997f) == 0xfb3e89cb;
    ScheduleStep(block, 49);
    assert NextWord(0x065c43da, 0x3e246a79, 0xaff4ffc1, 0x3b68ba73) == 0xcc7617db;
    ScheduleStep(block, 50);
    assert NextWord(0xfb3e89cb, 0x27333ba3, 0xf10a5c62, 0xaff4ffc1) == 0xb9e66c34;
    ScheduleStep(block, 51);
    assert NextWord(0xcc7617db, 0x0c4763f2, 0x0a8b3996, 0xf10a5c62) == 0xa9993667;
    ScheduleStep(block, 52);
    assert NextWord(0xb9e66c34, 0x840abf27, 0x72af830a, 0x0a8b3996) == 0x84badedd;
    ScheduleStep(block, 53);
    assert NextWord(0xa9993667, 0x7a290d5d, 0x9409e33e, 0x72af830a) == 0xc21462bc;
    ScheduleStep(block, 54);
    assert NextWord(0x84badedd, 0x065c43da, 0x24641522, 0x9409e33e) == 0x1487472c;
    ScheduleStep(block, 55);
    assert NextWord(0xc21462bc, 0xfb3e89cb, 0x9f47bf94, 0x24641522) == 0xb20f7a99;
  }

  lemma AbcWordsFrom56(block: seq<byte>)
    requires Padded(block)
    ensures Schedule(block, 56) == 0xef57b9cd
    ensures Schedule(block, 57) == 0xebe6b238
    ensures Schedule(block, 58) == 0x9fe3095e
    ensures Schedule(block, 59) == 0x78bc8d4b
    ensures Schedule(block, 60) == 0xa43fcf15
    ensures Schedule(block, 61) == 0x668b2ff8
    ensures Schedule(block, 62) == 0xeeaba2cc
    ensures Schedule(block, 63) == 0x12b1edeb
  {
    hide Schedule, Padding;
    AbcWordsFrom40(block);
    AbcWordsFrom48(block);
    ScheduleStep(block, 56);
    assert NextWord(0x1487472c, 0xcc7617db, 0xf0a64f5a, 0x9f47bf94) == 0xef57b9cd;
    ScheduleStep(block, 57);
    assert NextWord(0xb20f7a99, 0xb9e66c34, 0x3e246a79, 0xf0a64f5a) == 0xebe6b238;
    ScheduleStep(block, 58);
    assert NextWord(0xef57b9cd, 0xa9993667, 0x27333ba3, 0x3e246a79) == 0x9fe3095e;
    ScheduleStep(block, 59);
    assert NextWord(0xebe6b238, 0x84badedd, 0x0c4763f2, 0x27333ba3) == 0x78bc8d4b;
    ScheduleStep(block, 60);
    assert NextWord(0x9fe3095e, 0xc21462bc, 0x840abf27, 0x0c4763f2) == 0xa43fcf15;
    ScheduleStep(block, 61);
    assert NextWord(0x78bc8d4b, 0x1487472c, 0x7a290d5d, 0x840abf27) == 0x668b2ff8;
    ScheduleStep(block, 62);
    assert NextWord(0xa43fcf15, 0xb20f7a99, 0x065c43da, 0x7a290d5d) == 0xeeaba2cc;
    ScheduleStep(block, 63);
    assert NextWord(0x668b2ff8, 0xef57b9cd, 0xfb3e89cb, 0x065c43da) == 0x12b1edeb;
  }

  /** The working variables after `t` rounds from the initial hash value. */
  function FromStart(block: seq<byte>, t: nat): Working
    requires |block| == BLOCK_BYTES && t <= 64
  {
    Rounds(Start(InitialHash()), block, t)
  }

  lemma AbcRoundsTo8(block: seq<byte>)
    requires Padded(block)
    ensures FromStart(block, 8) == Working(0x85a07b5f, 0xe5030380, 0x2b4209f5, 0x04409a6a,
                                           0x0c657a79, 0x9b27a401, 0x714260ad, 0x43ada245)
  {
    hide Schedule, RoundConstant, Padding;
    AbcWordsFrom0(block);
    ConstantsFrom0();
    ConstantsFrom4();
    assert FromStart(block, 0) == Working(0x6a09e667, 0xbb67ae85, 0x3c6ef372, 0xa54ff53a,
                                          0x510e527f, 0x9b05688c, 0x1f83d9ab, 0x5be0cd19);
    assert FromStart(block, 1) == Working(0x5d6aebcd, 0x6a09e667, 0xbb67ae85, 0x3c6ef372,
                                          0xfa2a4622, 0x510e527f, 0x9b05688c, 0x1f83d9ab);
    assert FromStart(block, 2) == Working(0x5a6ad9ad, 0x5d6aebcd, 0x6a09e667, 0xbb67ae85,
                                          0x78ce7989, 0xfa2a4622, 0x510e527f, 0x9b05688c);
    assert FromStart(block, 3) == Working(0xc8c347a7, 0x5a6ad9ad, 0x5d6aebcd, 0x6a09e667,
                                          0xf92939eb, 0x78ce7989, 0xfa2a4622, 0x510e527f);
    assert FromStart(block, 4) == Working(0xd550f666, 0xc8c347a7, 0x5a6ad9ad, 0x5d6aebcd,
                                          0x24e00850, 0xf92939eb, 0x78ce7989, 0xfa2a4622);
    assert FromStart(block, 5) == Working(0x04409a6a, 0xd550f666, 0xc8c347a7, 0x5a6ad9ad,
                                          0x43ada245, 0x24e00850, 0xf92939eb, 0x78ce7989);
    assert FromStart(block, 6) == Working(0x2b4209f5, 0x04409a6a, 0xd550f666, 0xc8c347a7,
                                          0x714260ad, 0x43ada245, 0x24e00850, 0xf92939eb);
    assert FromStart(block, 7) == Working(0xe5030380, 0x2b4209f5, 0x04409a6a, 0xd550f666,
                                          0x9b27a401, 0x714260ad, 0x43ada245, 0x24e00850);
  }

  lemma AbcRoundsTo16(block: seq<byte>)
    requires Padded(block)
    ensures FromStart(block, 16) == Working(0xb0fa238e, 0xc0645fde, 0xd932eb16, 0x87912990,
                                            0x07590dcd, 0x0b92f20c, 0x745a48de, 0x1e578218)
  {
    hide Schedule, RoundConstant, Padding, InitialHash;
    AbcWordsFrom8(block);
    ConstantsFrom8();
    ConstantsFrom12();
    AbcRoundsTo8(block);
    assert FromStart(block, 9) == Working(0x8e04ecb9, 0x85a07b5f, 0xe5030380, 0x2b4209f5,
                                          0x32ca2d8c, 0x0c657a79, 0x9b27a401, 0x714260ad);
    assert FromStart(block, 10) == Working(0x8c87346b, 0x8e04ecb9, 0x85a07b5f, 0xe5030380,
                                           0x1cc92596, 0x32ca2d8c, 0x0c657a79, 0x9b27a401);
    assert FromStart(block, 11) == Working(0x4798a3f4, 0x8c87346b, 0x8e04ecb9, 0x85a07b5f,
                                           0x436b23e8, 0x1cc92596, 0x32ca2d8c, 0x0c657a79);
    assert FromStart(block, 12) == Working(0xf71fc5a9, 0x4798a3f4, 0x8c87346b, 0x8e04ecb9,
                                           0x816fd6e9, 0x436b23e8, 0x1cc92596, 0x32ca2d8c);
    assert FromStart(block, 13) == Working(0x87912990, 0xf71fc5a9, 0x4798a3f4, 0x8c87346b,
                                           0x1e578218, 0x816fd6e9, 0x436b23e8, 0x1cc92596);
    assert FromStart(block, 14) == Working(0xd932eb16, 0x87912990, 0xf71fc5a9, 0x4798a3f4,
                                           0x745a48de, 0x1e578218, 0x816fd6e9, 0x436b23e8);
    assert FromStart(block, 15) == Working(0xc0645fde, 0xd932eb16, 0x87912990, 0xf71fc5a9,
                                           0x0b92f20c, 0x745a48de, 0x1e578218, 0x816fd6e9);
  }

  lemma AbcRoundsTo24(block: seq<byte>)
    requires Padded(block)
    ensures FromStart(block, 24) == Working(0xc5d53d8d, 0xa7a3623f, 0xc2606d6d, 0x9dc68b63,
                                            0xaa47c347, 0x49f5114a, 0xe1257970, 0x8ada8930)
  {
    hide Schedule, RoundConstant, Padding, InitialHash;
    AbcWordsFrom16(block);
    ConstantsFrom16();
    ConstantsFrom20();
    AbcRoundsTo16(block);
    assert FromStart(block, 17) == Working(0x21da9a9b, 0xb0fa238e, 0xc0645fde, 0xd932eb16,
                                           0x8034229c, 0x07590dcd, 0x0b92f20c, 0x745a48de);
    assert FromStart(block, 18) == Working(0xc2fbd9d1, 0x21da9a9b, 0xb0fa238e, 0xc0645fde,
                                           0x846ee454, 0x8034229c, 0x07590dcd, 0x0b92f20c);
    assert FromStart(block, 19) == Working(0xfe777bbf, 0xc2fbd9d1, 0x21da9a9b, 0xb0fa238e,
                                           0xcc899961, 0x846ee454, 0x8034229c, 0x07590dcd);
    assert FromStart(block, 20) == Working(0xe1f20c33, 0xfe777bbf, 0xc2fbd9d1, 0x21da9a9b,
                                           0xb0638179, 0xcc899961, 0x846ee454, 0x8034229c);
    assert FromStart(block, 21) == Working(0x9dc68b63, 0xe1f20c33, 0xfe777bbf, 0xc2fbd9d1,
                                           0x8ada8930, 0xb0638179, 0xcc899961, 0x846ee454);
    assert FromStart(block, 22) == Working(0xc2606d6d, 0x9dc68b63, 0xe1f20c33, 0xfe777bbf,
                                           0xe1257970, 0x8ada8930, 0xb0638179, 0xcc899961);
    assert FromStart(block, 23) == Working(0xa7a3623f, 0xc2606d6d, 0x9dc68b63, 0xe1f20c33,
                                           0x49f5114a, 0xe1257970, 0x8ada8930, 0xb0638179);
  }

  lemma AbcRoundsTo32(block: seq<byte>)
    requires Padded(block)
    ensures FromStart(block, 32) == Working(0x73b33bf5, 0xea992a22, 0xa0060b30, 0x363482c9,
                                            0xba591112, 0x0109ab3a, 0xade79437, 0x6112a3b7)
  {
    hide Schedule, RoundConstant, Padding, InitialHash;
    AbcWordsFrom24(block);
    ConstantsFrom24();
    ConstantsFrom28();
    AbcRoundsTo24(block);
    assert FromStart(block, 25) == Working(0x1c2c2838, 0xc5d53d8d, 0xa7a3623f, 0xc2606d6d,
                                           0x2823ef91, 0xaa47c347, 0x49f5114a, 0xe1257970);
    assert FromStart(block, 26) == Working(0xcde8037d, 0x1c2c2838, 0xc5d53d8d, 0xa7a3623f,
                                           0x14383d8e, 0x2823ef91, 0xaa47c347, 0x49f5114a);
    assert FromStart(block, 27) == Working(0xb62ec4bc, 0xcde8037d, 0x1c2c2838, 0xc5d53d8d,
                                           0xc74c6516, 0x14383d8e, 0x2823ef91, 0xaa47c347);
    assert FromStart(block, 28) == Working(0x77d37528, 0xb62ec4bc, 0xcde8037d, 0x1c2c2838,
                                           0xedffbff8, 0xc74c6516, 0x14383d8e, 0x2823ef91);
    assert FromStart(block, 29) == Working(0x363482c9, 0x77d37528, 0xb62ec4bc, 0xcde8037d,
                                           0x6112a3b7, 0xedffbff8, 0xc74c6516, 0x14383d8e);
    assert FromStart(block, 30) == Working(0xa0060b30, 0x363482c9, 0x77d37528, 0xb62ec4bc,
                                           0xade79437, 0x6112a3b7, 0xedffbff8, 0xc74c6516);
    assert FromStart(block, 31) == Working(0xea992a22, 0xa0060b30, 0x363482c9, 0x77d37528,
                                           0x0109ab3a, 0xade79437, 0x6112a3b7, 0xedffbff8);
  }

  lemma AbcRoundsTo40(block: seq<byte>)
    requires Padded(block)
    ensures FromStart(block, 40) == Working(0x79ea687a, 0x6dc57a8a, 0x34df1604, 0x41a65cb1,
                                            0x1efbc0a0, 0xf0781bc8, 0xa507a53d, 0x0772a26b)
  {
    hide Schedule, RoundConstant, Padding, InitialHash;
    AbcWordsFrom32(block);
    ConstantsFrom32();
    ConstantsFrom36();
    AbcRoundsTo32(block);
    assert FromStart(block, 33) == Working(0x98e12507, 0x73b33bf5, 0xea992a22, 0xa0060b30,
                                           0x9cd9f5f6, 0xba591112, 0x0109ab3a, 0xade79437);
    assert FromStart(block, 34) == Working(0xfe604df5, 0x98e12507, 0x73b33bf5, 0xea992a22,
                                           0x59249dd3, 0x9cd9f5f6, 0xba591112, 0x0109ab3a);
    assert FromStart(block, 35) == Working(0xa9a7738c, 0xfe604df5, 0x98e12507, 0x73b33bf5,
                                           0x085f3833, 0x59249dd3, 0x9cd9f5f6, 0xba591112);
    assert FromStart(block, 36) == Working(0x65a0cfe4, 0xa9a7738c, 0xfe604df5, 0x98e12507,
                                           0xf4b002d6, 0x085f3833, 0x59249dd3, 0x9cd9f5f6);
    assert FromStart(block, 37) == Working(0x41a65cb1, 0x65a0cfe4, 0xa9a7738c, 0xfe604df5,
                                           0x0772a26b, 0xf4b002d6, 0x085f3833, 0x59249dd3);
    assert FromStart(block, 38) == Working(0x34df1604, 0x41a65cb1, 0x65a0cfe4, 0xa9a7738c,
                                           0xa507a53d, 0x0772a26b, 0xf4b002d6, 0x085f3833);
    assert FromStart(block, 39) == Working(0x6dc57a8a, 0x34df1604, 0x41a65cb1, 0x65a0cfe4,
                                           0xf0781bc8, 0xa507a53d, 0x0772a26b, 0xf4b002d6);
  }

  lemma AbcRoundsTo48(block: seq<byte>)
    requires Padded(block)
    ensures FromStart(block, 48) == Working(0x4172328d, 0xa14c14b0, 0x72ab4b91, 0x26628815,
                                            0xfecf0bc6, 0xd57b94a9, 0xb7755da1, 0xa80f11f0)
  {
    hide Schedule, RoundConstant, Padding, InitialHash;
    AbcWordsFrom40(block);
    ConstantsFrom40();
    ConstantsFrom44();
    AbcRoundsTo40(block);
    assert FromStart(block, 41) == Working(0xd6670766, 0x79ea687a, 0x6dc57a8a, 0x34df1604,
                                           0x26352d63, 0x1efbc0a0, 0xf0781bc8, 0xa507a53d);
    assert FromStart(block, 42) == Working(0xdf46652f, 0xd6670766, 0x79ea687a, 0x6dc57a8a,
                                           0x838b2711, 0x26352d63, 0x1efbc0a0, 0xf0781bc8);
    assert FromStart(block, 43) == Working(0x17aa0dfe, 0xdf46652f, 0xd6670766, 0x79ea687a,
                                           0xdecd4715, 0x838b2711, 0x26352d63, 0x1efbc0a0);
    assert FromStart(block, 44) == Working(0x9d4baf93, 0x17aa0dfe, 0xdf46652f, 0xd6670766,
                                           0xfda24c2e, 0xdecd4715, 0x838b2711, 0x26352d63);
    assert FromStart(block, 45) == Working(0x26628815, 0x9d4baf93, 0x17aa0dfe, 0xdf46652f,
                                           0xa80f11f0, 0xfda24c2e, 0xdecd4715, 0x838b2711);
    assert FromStart(block, 46) == Working(0x72ab4b91, 0x26628815, 0x9d4baf93, 0x17aa0dfe,
                                           0xb7755da1, 0xa80f11f0, 0xfda24c2e, 0xdecd4715);
    assert FromStart(block, 47) == Working(0xa14c14b0, 0x72ab4b91, 0x26628815, 0x9d4baf93,
                                           0xd57b94a9, 0xb7755da1, 0xa80f11f0, 0xfda24c2e);
  }

  lemma AbcRoundsTo56(block: seq<byte>)
    requires Padded(block)
    ensures FromStart(block, 56) == Working(0x38cc9913, 0x3ec45cdb, 0xf5702fdb, 0x101fd28f,
                                            0x54cb266b, 0xe50e1b4f, 0x9f4787c3, 0x529e7d00)
  {
    hide Schedule, RoundConstant, Padding, InitialHash;
    AbcWordsFrom48(block);
    ConstantsFrom48();
    ConstantsFrom52();
    AbcRoundsTo48(block);
    assert FromStart(block, 49) == Working(0x05757ceb, 0x4172328d, 0xa14c14b0, 0x72ab4b91,
                                           0xbd714038, 0xfecf0bc6, 0xd57b94a9, 0xb7755da1);
    assert FromStart(block, 50) == Working(0xf11bfaa8, 0x05757ceb, 0x4172328d, 0xa14c14b0,
                                           0x6e5c390c, 0xbd714038, 0xfecf0bc6, 0xd57b94a9);
    assert FromStart(block, 51) == Working(0x7a0508a1, 0xf11bfaa8, 0x05757ceb, 0x4172328d,
                                           0x52f1ccf7, 0x6e5c390c, 0xbd714038, 0xfecf0bc6);
    assert FromStart(block, 52) == Working(0x886e7a22, 0x7a0508a1, 0xf11bfaa8, 0x05757ceb,
                                           0x49231c1e, 0x52f1ccf7, 0x6e5c390c, 0xbd714038);
    assert FromStart(block, 53) == Working(0x101fd28f, 0x886e7a22, 0x7a0508a1, 0xf11bfaa8,
                                           0x529e7d00, 0x49231c1e, 0x52f1ccf7, 0x6e5c390c);
    assert FromStart(block, 54) == Working(0xf5702fdb, 0x101fd28f, 0x886e7a22, 0x7a0508a1,
                                           0x9f4787c3, 0x529e7d00, 0x49231c1e, 0x52f1ccf7);
    assert FromStart(block, 55) == Working(0x3ec45cdb, 0xf5702fdb, 0x101fd28f, 0x886e7a22,
                                           0xe50e1b4f, 0x9f4787c3, 0x529e7d00, 0x49231c1e);
  }

  lemma AbcRoundsTo64(block: seq<byte>)
    requires Padded(block)
    ensures FromStart(block, 64) == Working(0x506e3058, 0xd39a2165, 0x04d24d6c, 0xb85e2ce9,
                                            0x5ef50f24, 0xfb121210, 0x948d25b6, 0x961f4894)
  {
    hide Schedule, RoundConstant, Padding, InitialHash;
    AbcWordsFrom56(block);
    ConstantsFrom56();
    ConstantsFrom60();
    AbcRoundsTo56(block);
    assert FromStart(block, 57) == Working(0xfcd1887b, 0x38cc9913, 0x3ec45cdb, 0xf5702fdb,
                                           0x9b5e906c, 0x54cb266b, 0xe50e1b4f, 0x9f4787c3);
    assert FromStart(block, 58) == Working(0xc062d46f, 0xfcd1887b, 0x38cc9913, 0x3ec45cdb,
                                           0x7e44008e, 0x9b5e906c, 0x54cb266b, 0xe50e1b4f);
    assert FromStart(block, 59) == Working(0xffb70472, 0xc062d46f, 0xfcd1887b, 0x38cc9913,
                                           0x6d83bfc6, 0x7e44008e, 0x9b5e906c, 0x54cb266b);
    assert FromStart(block, 60) == Working(0xb6ae8fff, 0xffb70472, 0xc062d46f, 0xfcd1887b,
                                           0xb21bad3d, 0x6d83bfc6, 0x7e44008e, 0x9b5e906c);
    assert FromStart(block, 61) == Working(0xb85e2ce9, 0xb6ae8fff, 0xffb70472, 0xc062d46f,
                                           0x961f4894, 0xb21bad3d, 0x6d83bfc6, 0x7e44008e);
    assert FromStart(block, 62) == Working(0x04d24d6c, 0xb85e2ce9, 0xb6ae8fff, 0xffb70472,
                                           0x948d25b6, 0x961f4894, 0xb21bad3d, 0x6d83bfc6);
    assert FromStart(block, 63) == Working(0xd39a2165, 0x04d24d6c, 0xb85e2ce9, 0xb6ae8fff,
                                           0xfb121210, 0x948d25b6, 0x961f4894, 0xb21bad3d);
  }

  lemma AbcWords(block: seq<byte>)
    requires Padded(block)
    ensures Compress(InitialHash(), block) == [
              0xba7816bf, 0x8f01cfea, 0x414140de, 0x5dae2223,
              0xb00361a3, 0x96177a9c, 0xb410ff61, 0xf20015ad]
  {
    hide Rounds, Padding;
    AbcRoundsTo64(block);
  }

  lemma AbcFirstBytes()
    ensures WordBytes(0xba7816bf) == [0xba, 0x78, 0x16, 0xbf]
    ensures WordBytes(0x8f01cfea) == [0x8f, 0x01, 0xcf, 0xea]
    ensures WordBytes(0x414140de) == [0x41, 0x41, 0x40, 0xde]
    ensures WordBytes(0x5dae2223) == [0x5d, 0xae, 0x22, 0x23]
  {
  }

  lemma AbcLastBytes()
    ensures WordBytes(0xb00361a3) == [0xb0, 0x03, 0x61, 0xa3]
    ensures WordBytes(0x96177a9c) == [0x96, 0x17, 0x7a, 0x9c]
    ensures WordBytes(0xb410ff61) == [0xb4, 0x10, 0xff, 0x61]
    ensures WordBytes(0xf20015ad) == [0xf2, 0x00, 0x15, 0xad]
  {
  }

  lemma AbcDigest(words: seq<bv32>)
    requires words == [
                       0xba7816bf, 0x8f01cfea, 0x414140de, 0x5dae2223,
                       0xb00361a3, 0x96177a9c, 0xb410ff61, 0xf20015ad]
    ensures DigestBytes(words) == [
              0xba, 0x78, 0x16, 0xbf, 0x8f, 0x01, 0xcf, 0xea, 0x41, 0x41, 0x40, 0xde, 0x5d, 0xae, 0x22, 0x23,
              0xb0, 0x03, 0x61, 0xa3, 0x96, 0x17, 0x7a, 0x9c, 0xb4, 0x10, 0xff, 0x61, 0xf2, 0x00, 0x15, 0xad]
  {
    hide WordBytes;
    AbcFirstBytes();
    AbcLastBytes();
  }

  lemma AbcIsPadded()
    ensures Padded(ABC + Padding(3))
  {
    hide BigEndian;
  }

  /** The digest that the standard gives for "abc". */
  lemma HashOfAbc()
    ensures Hash(ABC) == [
              0xba, 0x78, 0x16, 0xbf, 0x8f, 0x01, 0xcf, 0xea, 0x41, 0x41, 0x40, 0xde, 0x5d, 0xae, 0x22, 0x23,
              0xb0, 0x03, 0x61, 0xa3, 0x96, 0x17, 0x7a, 0x9c, 0xb4, 0x10, 0xff, 0x61, 0xf2, 0x00, 0x15, 0xad]
  {
    hide Padding, Fold, Compress, InitialHash, DigestBytes;
    var block := ABC + Padding(|ABC|);
    AbcIsPadded();
    AbcWords(block);
    FoldOne(block);
    AbcDigest(Compress(InitialHash(), block));
  }

  lemma FoldOne(block: seq<byte>)
    requires |block| == BLOCK_BYTES
    ensures Fold(InitialHash(), block) == Compress(InitialHash(), block)
  {
    hide Compress, InitialHash;
    assert [] + block == block;
    FoldBlock(InitialHash(), [], block);
  }

}
