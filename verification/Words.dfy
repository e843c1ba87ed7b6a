/** Bytes as numbers and as bits. */
module Words {
  lemma ByteRoundTrip(a: int)
    requires 0 <= a < 256
    ensures (a as bv8) as int == a
  {
  }

  lemma BitsRoundTrip(x: bv8)
    ensures 0 <= x as int < 256 && (x as int) as bv8 == x
  {
  }

  lemma BitsInjective(a: int, b: int)
    requires 0 <= a < 256 && 0 <= b < 256 && a as bv8 == b as bv8
    ensures a == b
  {
    ByteRoundTrip(a);
    ByteRoundTrip(b);
  }
}
