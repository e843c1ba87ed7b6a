/**
 * The bounded writer and the reader that the codecs drive: the writer appends exactly the
 * encoding of a value or refuses it, the reader advances over exactly one encoding.
 */
module BufferIo {
  import opened Domain
  import opened LittleEndian
  import opened Wire

  // ---- the writer ---------------------------------------------------------

  /**
   * What a step of a writer did when `whole` is the encoding it had to write followed by
   * `rest`: the encoding was appended, or it does not fit the bound.
   */
  ghost predicate Wrote(before: Bytes, after: Bytes, whole: Bytes, rest: Bytes, bound: nat, r: Result<()>) {
    match r
    case Ok(_) => after + rest == before + whole
    case Err(e) => e == CapacityExceeded && |before| + |whole| > bound + |rest|
  }

  class Writer {
    const maxBytes: nat
    var bytes: Bytes

    ghost predicate Valid()
      reads this
    {
      |bytes| <= maxBytes
    }

    constructor (maxBytes: nat)
      ensures Valid() && bytes == [] && this.maxBytes == maxBytes
    {
      this.maxBytes := maxBytes;
      bytes := [];
    }

    method Ensure(extra: nat) returns (r: Result<()>)
      requires Valid()
      ensures r == if |bytes| + extra <= maxBytes then Ok(()) else Err(CapacityExceeded)
    {
      if extra > maxBytes || |bytes| > maxBytes - extra {
        return Err(CapacityExceeded);
      }
      r := Ok(());
    }

    /** Appends within the bound; a refusal changes nothing. */
    method PutRaw(data: Bytes) returns (r: Result<()>)
      requires Valid()
      modifies this
      ensures Valid()
      ensures if |old(bytes)| + |data| <= maxBytes then r == Ok(()) && bytes == old(bytes) + data
              else r == Err(CapacityExceeded) && bytes == old(bytes)
    {
      var _ :- Ensure(|data|);
      bytes := bytes + data;
      r := Ok(());
    }

    method PutWord(width: nat, value: nat, ghost rest: Bytes) returns (r: Result<()>)
      requires Valid()
      modifies this
      ensures Valid() && (r.Err? ==> bytes == old(bytes))
      ensures Wrote(old(bytes), bytes, Wire.PutWord(width, value, rest), rest, maxBytes, r)
    {
      hide StoreLe;
      r := PutRaw(StoreLe(width, value));
    }

    method PutU8(value: nat, ghost rest: Bytes) returns (r: Result<()>)
      requires Valid()
      modifies this
      ensures Valid() && Wrote(old(bytes), bytes, Wire.PutU8(value, rest), rest, maxBytes, r)
    {
      hide Wire.PutWord;
      r := PutWord(1, value, rest);
    }

    method PutU16(value: nat, ghost rest: Bytes) returns (r: Result<()>)
      requires Valid()
      modifies this
      ensures Valid() && Wrote(old(bytes), bytes, Wire.PutU16(value, rest), rest, maxBytes, r)
    {
      hide Wire.PutWord;
      r := PutWord(2, value, rest);
    }

    method PutU32(value: nat, ghost rest: Bytes) returns (r: Result<()>)
      requires Valid()
      modifies this
      ensures Valid() && Wrote(old(bytes), bytes, Wire.PutU32(value, rest), rest, maxBytes, r)
    {
      hide Wire.PutWord;
      r := PutWord(4, value, rest);
    }

    method PutU64(value: nat, ghost rest: Bytes) returns (r: Result<()>)
      requires Valid()
      modifies this
      ensures Valid() && Wrote(old(bytes), bytes, Wire.PutU64(value, rest), rest, maxBytes, r)
    {
      hide Wire.PutWord;
      r := PutWord(8, value, rest);
    }

    method PutFlag(value: bool, ghost rest: Bytes) returns (r: Result<()>)
      requires Valid()
      modifies this
      ensures Valid() && Wrote(old(bytes), bytes, Wire.PutFlag(value, rest), rest, maxBytes, r)
    {
      hide Wire.PutU8;
      r := PutU8(if value then 1 else 0, rest);
    }

    /** Room for length and bytes together is checked before either is written. */
    method PutBlob(blob: Bytes, ghost rest: Bytes) returns (r: Result<()>)
      requires Valid()
      modifies this
      ensures Valid() && (r.Err? ==> bytes == old(bytes))
      ensures Wrote(old(bytes), bytes, Wire.PutBlob(blob, rest), rest, maxBytes, r)
    {
      hide Wire.PutU32;
      var _ :- Ensure(4 + |blob|);
      r := PutU32(|blob|, blob + rest);
      if r.Ok? {
        assert bytes + (blob + rest) == (bytes + blob) + rest;
        bytes := bytes + blob;
      }
    }

    method PutText(text: string, ghost rest: Bytes) returns (r: Result<()>)
      requires Valid()
      modifies this
      ensures Valid() && Wrote(old(bytes), bytes, Wire.PutText(text, rest), rest, maxBytes, r)
    {
      hide Wire.PutBlob, TextBytes;
      r := PutBlob(if IsByteText(text) then TextBytes(text) else [], rest);
    }

    method PutFlowId(id: FlowId, ghost rest: Bytes) returns (r: Result<()>)
      requires Valid()
      modifies this
      ensures Valid() && Wrote(old(bytes), bytes, Wire.PutFlowId(id, rest), rest, maxBytes, r)
    {
      hide Wire.PutU64;
      var _ :- PutU64(id.hi, Wire.PutU64(id.lo, rest));
      r := PutU64(id.lo, rest);
    }
  }

  // ---- the reader ---------------------------------------------------------

  /** What a step of a reader returned, and where it left the reader. */
  ghost predicate Reads<T>(spec: Parsed<T>, r: Result<T>, left: Bytes) {
    match spec
    case Err(e) => r == Err(e)
    case Ok((x, rest)) => r == Ok(x) && left == rest
  }

  class Reader {
    const maxString: nat
    /** The bytes from the cursor to the end. */
    var left: Bytes

    constructor (data: Bytes, maxString: nat)
      ensures left == data && this.maxString == maxString
    {
      left, this.maxString := data, maxString;
    }

    method Require(count: nat) returns (r: Result<()>)
      ensures r == if count <= |left| then Ok(()) else Err(MalformedRecord)
    {
      r := if count > |left| then Err(MalformedRecord) else Ok(());
    }

    method GetWord(width: nat) returns (r: Result<nat>)
      modifies this
      ensures Reads(Wire.GetWord(width, old(left)), r, left)
      ensures r.Err? ==> left == old(left)
    {
      hide LoadLe;
      var _ :- Require(width);
      r := Ok(LoadLe(left[..width]));
      left := left[width..];
    }

    method GetFlag() returns (r: Result<bool>)
      modifies this
      ensures Reads(Wire.GetFlag(old(left)), r, left)
    {
      hide Wire.GetWord;
      var raw :- GetWord(1);
      if raw > 1 {
        return Err(MalformedRecord);
      }
      r := Ok(raw == 1);
    }

    /** The declared length is checked against the bound and against the bytes that remain. */
    method GetBlob(bound: nat) returns (r: Result<Bytes>)
      modifies this
      ensures Reads(Wire.GetBlob(bound, old(left)), r, left)
    {
      hide Wire.GetWord;
      var length :- GetWord(4);
      if length > bound {
        return Err(CapacityExceeded);
      }
      var _ :- Require(length);
      r := Ok(left[..length]);
      left := left[length..];
    }

    method GetText() returns (r: Result<string>)
      modifies this
      ensures Reads(Wire.GetText(maxString, old(left)), r, left)
    {
      hide Wire.GetBlob, BytesText;
      var raw :- GetBlob(maxString);
      r := Ok(BytesText(raw));
    }

    method GetCount(bound: nat) returns (r: Result<nat>)
      modifies this
      ensures Reads(CountWithin(bound, old(left)), r, left)
    {
      hide Wire.GetWord;
      var count :- GetWord(4);
      if count > bound {
        return Err(CapacityExceeded);
      }
      r := Ok(count);
    }

    method Finish() returns (r: Result<()>)
      ensures r == if left != [] then Err(TrailingGarbage) else Ok(())
    {
      r := if left != [] then Err(TrailingGarbage) else Ok(());
    }
  }

  function CountWithin(bound: nat, s: Bytes): Parsed<nat> {
    var (count, s) :- GetU32(s);
    if count > bound then Err(CapacityExceeded) else Ok((count, s))
  }
}
