/** Little-endian words of any width, as the wire and the durable image hold them. */
module LittleEndian {
  import opened Domain

  function Power(width: nat): nat {
    if width == 0 then 1 else 256 * Power(width - 1)
  }

  /** The low `width` bytes of a value, least significant first. */
  function StoreLe(width: nat, value: nat): (s: seq<byte>)
    ensures |s| == width
  {
    if width == 0 then [] else [value % 256] + StoreLe(width - 1, value / 256)
  }

  function LoadLe(s: seq<byte>): nat {
    if s == [] then 0 else s[0] + 256 * LoadLe(s[1..])
  }

  lemma {:induction false} LoadBounded(s: seq<byte>)
    ensures LoadLe(s) < Power(|s|)
  {
    if s != [] {
      LoadBounded(s[1..]);
    }
  }

  lemma {:induction false} LoadStored(width: nat, value: nat)
    requires value < Power(width)
    ensures LoadLe(StoreLe(width, value)) == value
  {
    if width != 0 {
      LoadStored(width - 1, value / 256);
      assert StoreLe(width, value)[1..] == StoreLe(width - 1, value / 256);
    }
  }

  lemma {:induction false} StoreLoaded(s: seq<byte>)
    ensures StoreLe(|s|, LoadLe(s)) == s
  {
    if s != [] {
      StoreLoaded(s[1..]);
      var rest := LoadLe(s[1..]);
      assert (s[0] + 256 * rest) % 256 == s[0] && (s[0] + 256 * rest) / 256 == rest;
      assert s == [s[0]] + s[1..];
    }
  }

  lemma Powers()
    ensures Power(1) == 0x100 && Power(2) == 0x1_0000 && Power(4) == 0x1_0000_0000
    ensures Power(8) == 0x1_0000_0000_0000_0000
  {
    assert Power(3) == 256 * Power(2) && Power(5) == 256 * Power(4) && Power(6) == 256 * Power(5) && Power(7) == 256 * Power(6);
  }
}
