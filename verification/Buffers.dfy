/** Copying bytes into fixed buffers. */
module Buffers {
  import opened Domain

  method CopyInto(target: array<byte>, offset: nat, data: seq<byte>)
    requires offset + |data| <= target.Length
    modifies target
    ensures target[..] == old(target[..offset]) + data + old(target[offset + |data|..])
  {
    for i := 0 to |data|
      invariant target[..offset] == old(target[..offset])
      invariant target[offset..offset + i] == data[..i]
      invariant target[offset + i..] == old(target[offset + i..])
    {
      target[offset + i] := data[i];
      assert target[offset..offset + i + 1] == target[offset..offset + i] + [data[i]];
      assert data[..i + 1] == data[..i] + [data[i]];
    }
    assert target[..] == target[..offset] + target[offset..offset + |data|] + target[offset + |data|..];
    assert data[..|data|] == data;
  }

  /** Copies a field into place: what precedes it and what follows it stay. */
  method PutAt(target: array<byte>, offset: nat, data: seq<byte>)
    requires offset + |data| <= target.Length
    modifies target
    ensures target[..offset] == old(target[..offset])
    ensures target[..offset + |data|] == old(target[..offset]) + data
    ensures target[offset + |data|..] == old(target[offset + |data|..])
  {
    CopyInto(target, offset, data);
    assert target[..offset + |data|] == target[..][..offset + |data|];
    assert target[offset + |data|..] == target[..][offset + |data|..];
    assert target[..offset] == target[..][..offset];
  }
}
