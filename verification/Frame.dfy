/**
 * Wire frames: a 44-byte header with an integrity tag, then the payload.
 */
module Frame {
  import opened Domain
  import opened LittleEndian
  import Crc32
  import Words

  const HEADER_BYTES: nat := 44
  const MAGIC: seq<byte> := [0x41, 0x49, 0x46, 0x43]
  const VERSION_OFFSET: nat := 4
  const KIND_OFFSET: nat := 6
  const FLAGS_OFFSET: nat := 8
  const SEQUENCE_OFFSET: nat := 12
  const EPOCH_OFFSET: nat := 20
  const BOOT_OFFSET: nat := 28
  const LENGTH_OFFSET: nat := 36
  const CHECKSUM_OFFSET: nat := 40
  const PROTOCOL_VERSION: nat := 2
  const MAX_MESSAGE_KIND: nat := 22
  const NO_TAG: seq<byte> := [0, 0, 0, 0]

  datatype FrameHeader = FrameHeader(
    version: nat,
    kind: nat,
    flags: nat,
    sequence: nat,
    epoch: nat,
    boot: nat,
    payloadLength: nat,
    checksum: nat)

  datatype Frame = Frame(header: FrameHeader, payload: seq<byte>)

  predicate KnownKind(kind: nat) {
    1 <= kind <= MAX_MESSAGE_KIND
  }

  /** The fields fit the widths they are declared at. */
  predicate InRange(h: FrameHeader) {
    && h.version < 0x1_0000
    && h.kind < 0x1_0000
    && h.flags < 0x1_0000_0000
    && h.sequence < 0x1_0000_0000_0000_0000
    && h.epoch < 0x1_0000_0000_0000_0000
    && h.boot < 0x1_0000_0000_0000_0000
  }

  // ---- the integrity tag --------------------------------------------------

  function TagOf(c: bv32): (t: seq<byte>)
    ensures |t| == 4
  {
    var b1, b2, b3 := Crc32.Upper(c), Crc32.Upper(Crc32.Upper(c)), Crc32.Upper(Crc32.Upper(Crc32.Upper(c)));
    [Crc32.LowByte(c) as int, Crc32.LowByte(b1) as int, Crc32.LowByte(b2) as int, Crc32.LowByte(b3) as int]
  }

  lemma BytesDetermineWord(c: bv32, d: bv32)
    requires Crc32.LowByte(c) == Crc32.LowByte(d) && Crc32.LowByte(Crc32.Upper(c)) == Crc32.LowByte(Crc32.Upper(d))
    requires Crc32.LowByte(Crc32.Upper(Crc32.Upper(c))) == Crc32.LowByte(Crc32.Upper(Crc32.Upper(d)))
    requires Crc32.LowByte(Crc32.Upper(Crc32.Upper(Crc32.Upper(c)))) == Crc32.LowByte(Crc32.Upper(Crc32.Upper(Crc32.Upper(d))))
    ensures c == d
  {
  }

  lemma SameNumberSameBits(x: bv8, y: bv8)
    requires x as int == y as int
    ensures x == y
  {
    Words.BitsRoundTrip(x);
    Words.BitsRoundTrip(y);
  }

  lemma TagInjective(c: bv32, d: bv32)
    requires TagOf(c) == TagOf(d)
    ensures c == d
  {
    hide Crc32.LowByte, Crc32.Upper;
    var s, t := TagOf(c), TagOf(d);
    assert s[0] == t[0] && s[1] == t[1] && s[2] == t[2] && s[3] == t[3];
    SameNumberSameBits(Crc32.LowByte(c), Crc32.LowByte(d));
    SameNumberSameBits(Crc32.LowByte(Crc32.Upper(c)), Crc32.LowByte(Crc32.Upper(d)));
    SameNumberSameBits(Crc32.LowByte(Crc32.Upper(Crc32.Upper(c))), Crc32.LowByte(Crc32.Upper(Crc32.Upper(d))));
    SameNumberSameBits(Crc32.LowByte(Crc32.Upper(Crc32.Upper(Crc32.Upper(c)))),
                       Crc32.LowByte(Crc32.Upper(Crc32.Upper(Crc32.Upper(d)))));
    BytesDetermineWord(c, d);
  }

  function Tag(data: seq<byte>): (t: seq<byte>)
    ensures |t| == 4
  {
    TagOf(Crc32.Checksum(data))
  }

  // ---- encoding -----------------------------------------------------------

  /** The header up to the tag. */
  function Prefix(h: FrameHeader, length: nat): (s: seq<byte>)
    ensures |s| == CHECKSUM_OFFSET
  {
    MAGIC + StoreLe(2, h.version) + StoreLe(2, h.kind) + StoreLe(4, h.flags) + StoreLe(8, h.sequence) + StoreLe(8, h.epoch)
    + StoreLe(8, h.boot) + StoreLe(4, length)
  }

  function Encoded(h: FrameHeader, payload: seq<byte>): seq<byte> {
    var prefix := Prefix(h, |payload|);
    prefix + Tag(prefix + NO_TAG + payload) + payload
  }

  function EncodeFrame(h: FrameHeader, payload: seq<byte>, maxPayload: nat): Result<seq<byte>> {
    if |payload| > maxPayload then Err(CapacityExceeded)
    else if !KnownKind(h.kind) then Err(InvalidArgument)
    else Ok(Encoded(h, payload))
  }

  // ---- decoding -----------------------------------------------------------

  datatype Verdict =
    | NeedMore
    | Refused(code: ErrorCode)
    | Complete(frame: Frame, consumed: nat)

  predicate StartsRight(data: seq<byte>)
    requires |data| >= 4
  {
    data[..4] == MAGIC
  }

  function DeclaredLength(data: seq<byte>): nat
    requires |data| >= HEADER_BYTES
  {
    LoadLe(data[LENGTH_OFFSET..CHECKSUM_OFFSET])
  }

  /** Why a complete header is refused, if it is. */
  function HeaderFault(data: seq<byte>, maxPayload: nat): Option<ErrorCode>
    requires |data| >= HEADER_BYTES
  {
    if !StartsRight(data) then Some(MalformedFrame)
    else if LoadLe(data[VERSION_OFFSET..KIND_OFFSET]) != PROTOCOL_VERSION then Some(UnsupportedVersion)
    else if !KnownKind(LoadLe(data[KIND_OFFSET..FLAGS_OFFSET])) then Some(MalformedFrame)
    else if DeclaredLength(data) > maxPayload then Some(CapacityExceeded)
    else None
  }

  /** The bytes the tag covers: the frame with the tag zeroed. */
  function Covered(data: seq<byte>, total: nat): seq<byte>
    requires HEADER_BYTES <= total <= |data|
  {
    data[..CHECKSUM_OFFSET] + NO_TAG + data[HEADER_BYTES..total]
  }

  function FrameAt(data: seq<byte>, total: nat): Frame
    requires HEADER_BYTES <= total <= |data|
  {
    Frame(FrameHeader(LoadLe(data[VERSION_OFFSET..KIND_OFFSET]), LoadLe(data[KIND_OFFSET..FLAGS_OFFSET]),
                      LoadLe(data[FLAGS_OFFSET..SEQUENCE_OFFSET]), LoadLe(data[SEQUENCE_OFFSET..EPOCH_OFFSET]),
                      LoadLe(data[EPOCH_OFFSET..BOOT_OFFSET]), LoadLe(data[BOOT_OFFSET..LENGTH_OFFSET]),
                      DeclaredLength(data), LoadLe(data[CHECKSUM_OFFSET..HEADER_BYTES])),
          data[HEADER_BYTES..total])
  }

  function TryDecode(data: seq<byte>, maxPayload: nat): Verdict {
    if |data| < HEADER_BYTES then
      if |data| >= 4 && !StartsRight(data) then Refused(MalformedFrame) else NeedMore
    else if HeaderFault(data, maxPayload).Some? then
      Refused(HeaderFault(data, maxPayload).value)
    else
      var total := HEADER_BYTES + DeclaredLength(data);
      if total > |data| then NeedMore
      else if data[CHECKSUM_OFFSET..HEADER_BYTES] != Tag(Covered(data, total)) then Refused(IntegrityFailure)
      else Complete(FrameAt(data, total), total)
  }

  // ---- a verdict on a prefix stands ---------------------------------------

  lemma SameSlices(data: seq<byte>, more: seq<byte>, a: nat, b: nat)
    requires a <= b <= |data|
    ensures (data + more)[a..b] == data[a..b]
  {
  }

  /** A verdict, once reached, is not changed by anything that arrives later. */
  lemma VerdictIsFinal(data: seq<byte>, more: seq<byte>, maxPayload: nat)
    requires !TryDecode(data, maxPayload).NeedMore?
    ensures TryDecode(data + more, maxPayload) == TryDecode(data, maxPayload)
  {
    hide Tag, LoadLe;
    var all := data + more;
    if |data| < HEADER_BYTES {
      SameSlices(data, more, 0, 4);
      assert !StartsRight(all) by {
        assert all[..4] == data[..4];
      }
    } else {
      SameSlices(data, more, 0, 4);
      assert all[..4] == data[..4];
      SameSlices(data, more, VERSION_OFFSET, KIND_OFFSET);
      SameSlices(data, more, KIND_OFFSET, FLAGS_OFFSET);
      SameSlices(data, more, FLAGS_OFFSET, SEQUENCE_OFFSET);
      SameSlices(data, more, SEQUENCE_OFFSET, EPOCH_OFFSET);
      SameSlices(data, more, EPOCH_OFFSET, BOOT_OFFSET);
      SameSlices(data, more, BOOT_OFFSET, LENGTH_OFFSET);
      SameSlices(data, more, LENGTH_OFFSET, CHECKSUM_OFFSET);
      SameSlices(data, more, CHECKSUM_OFFSET, HEADER_BYTES);
      if HeaderFault(data, maxPayload).None? {
        var total := HEADER_BYTES + DeclaredLength(data);
        SameSlices(data, more, HEADER_BYTES, total);
        assert all[..CHECKSUM_OFFSET] == data[..CHECKSUM_OFFSET];
        assert Covered(all, total) == Covered(data, total);
      }
    }
  }

  // ---- encoding and decoding are inverse ----------------------------------

  lemma PrefixSlices(h: FrameHeader, length: nat)
    ensures var p := Prefix(h, length);
            && p[..4] == MAGIC
            && p[VERSION_OFFSET..KIND_OFFSET] == StoreLe(2, h.version)
            && p[KIND_OFFSET..FLAGS_OFFSET] == StoreLe(2, h.kind)
            && p[FLAGS_OFFSET..SEQUENCE_OFFSET] == StoreLe(4, h.flags)
            && p[SEQUENCE_OFFSET..EPOCH_OFFSET] == StoreLe(8, h.sequence)
            && p[EPOCH_OFFSET..BOOT_OFFSET] == StoreLe(8, h.epoch)
            && p[BOOT_OFFSET..LENGTH_OFFSET] == StoreLe(8, h.boot)
            && p[LENGTH_OFFSET..CHECKSUM_OFFSET] == StoreLe(4, length)
  {
    hide StoreLe;
    var front := MAGIC + StoreLe(2, h.version) + StoreLe(2, h.kind) + StoreLe(4, h.flags) + StoreLe(8, h.sequence)
                 + StoreLe(8, h.epoch) + StoreLe(8, h.boot);
    assert |front| == LENGTH_OFFSET && Prefix(h, length) == front + StoreLe(4, length);
  }

  /** What decoding reads back: the header with the length and tag filled in. */
  function Completed(h: FrameHeader, payload: seq<byte>): Frame {
    Frame(h.(payloadLength := |payload|, checksum := LoadLe(Tag(Prefix(h, |payload|) + NO_TAG + payload))), payload)
  }

  lemma LoadFields(h: FrameHeader, length: nat)
    requires InRange(h) && length < 0x1_0000_0000
    ensures LoadLe(StoreLe(2, h.version)) == h.version && LoadLe(StoreLe(2, h.kind)) == h.kind
    ensures LoadLe(StoreLe(4, h.flags)) == h.flags && LoadLe(StoreLe(8, h.sequence)) == h.sequence
    ensures LoadLe(StoreLe(8, h.epoch)) == h.epoch && LoadLe(StoreLe(8, h.boot)) == h.boot
    ensures LoadLe(StoreLe(4, length)) == length
  {
    hide LoadLe, StoreLe, Power;
    Powers();
    LoadStored(2, h.version);
    LoadStored(2, h.kind);
    LoadStored(4, h.flags);
    LoadStored(8, h.sequence);
    LoadStored(8, h.epoch);
    LoadStored(8, h.boot);
    LoadStored(4, length);
  }

  lemma EncodedSlices(h: FrameHeader, payload: seq<byte>, suffix: seq<byte>)
    ensures var p, t, data := Prefix(h, |payload|), Tag(Prefix(h, |payload|) + NO_TAG + payload), Encoded(h, payload) + suffix;
            && |Encoded(h, payload)| == HEADER_BYTES + |payload|
            && data[..CHECKSUM_OFFSET] == p
            && (forall a, b | 0 <= a <= b <= CHECKSUM_OFFSET :: data[a..b] == p[a..b])
            && data[CHECKSUM_OFFSET..HEADER_BYTES] == t
            && data[HEADER_BYTES..HEADER_BYTES + |payload|] == payload
  {
    hide Prefix, Tag;
  }

  /**
   * Decoding what was encoded, whatever follows it, gives the frame back if and only if the
   * header names the supported version.
   */
  lemma FrameRoundTrip(h: FrameHeader, payload: seq<byte>, maxPayload: nat, suffix: seq<byte>)
    requires InRange(h) && maxPayload < 0x1_0000_0000 && EncodeFrame(h, payload, maxPayload).Ok?
    ensures TryDecode(Encoded(h, payload) + suffix, maxPayload)
         == if h.version == PROTOCOL_VERSION then Complete(Completed(h, payload), |Encoded(h, payload)|)
            else Refused(UnsupportedVersion)
  {
    hide Prefix, Tag, LoadLe, StoreLe, Encoded;
    var data := Encoded(h, payload) + suffix;
    PrefixSlices(h, |payload|);
    EncodedSlices(h, payload, suffix);
    LoadFields(h, |payload|);
    var p := Prefix(h, |payload|);
    assert data[..4] == p[..4] by {
      assert data[0..4] == p[0..4];
    }
    assert data[VERSION_OFFSET..KIND_OFFSET] == p[VERSION_OFFSET..KIND_OFFSET];
    assert data[KIND_OFFSET..FLAGS_OFFSET] == p[KIND_OFFSET..FLAGS_OFFSET];
    assert data[FLAGS_OFFSET..SEQUENCE_OFFSET] == p[FLAGS_OFFSET..SEQUENCE_OFFSET];
    assert data[SEQUENCE_OFFSET..EPOCH_OFFSET] == p[SEQUENCE_OFFSET..EPOCH_OFFSET];
    assert data[EPOCH_OFFSET..BOOT_OFFSET] == p[EPOCH_OFFSET..BOOT_OFFSET];
    assert data[BOOT_OFFSET..LENGTH_OFFSET] == p[BOOT_OFFSET..LENGTH_OFFSET];
    assert data[LENGTH_OFFSET..CHECKSUM_OFFSET] == p[LENGTH_OFFSET..CHECKSUM_OFFSET];
  }

  lemma StoreSlice(data: seq<byte>, a: nat, b: nat)
    requires a <= b <= |data|
    ensures StoreLe(b - a, LoadLe(data[a..b])) == data[a..b]
  {
    StoreLoaded(data[a..b]);
  }

  lemma PrefixOfDecoded(data: seq<byte>, total: nat)
    requires HEADER_BYTES <= total <= |data| && StartsRight(data) && total == HEADER_BYTES + DeclaredLength(data)
    ensures Prefix(FrameAt(data, total).header, DeclaredLength(data)) == data[..CHECKSUM_OFFSET]
  {
    hide LoadLe, StoreLe;
    StoreSlice(data, VERSION_OFFSET, KIND_OFFSET);
    StoreSlice(data, KIND_OFFSET, FLAGS_OFFSET);
    StoreSlice(data, FLAGS_OFFSET, SEQUENCE_OFFSET);
    StoreSlice(data, SEQUENCE_OFFSET, EPOCH_OFFSET);
    StoreSlice(data, EPOCH_OFFSET, BOOT_OFFSET);
    StoreSlice(data, BOOT_OFFSET, LENGTH_OFFSET);
    StoreSlice(data, LENGTH_OFFSET, CHECKSUM_OFFSET);
    assert data[..CHECKSUM_OFFSET]
        == data[..4] + data[VERSION_OFFSET..KIND_OFFSET] + data[KIND_OFFSET..FLAGS_OFFSET] + data[FLAGS_OFFSET..SEQUENCE_OFFSET]
           + data[SEQUENCE_OFFSET..EPOCH_OFFSET] + data[EPOCH_OFFSET..BOOT_OFFSET] + data[BOOT_OFFSET..LENGTH_OFFSET]
           + data[LENGTH_OFFSET..CHECKSUM_OFFSET];
  }

  /** A decoded frame encodes to exactly the bytes it was decoded from. */
  lemma DecodedReencodes(data: seq<byte>, maxPayload: nat)
    requires TryDecode(data, maxPayload).Complete?
    ensures var v := TryDecode(data, maxPayload);
            && HEADER_BYTES <= v.consumed <= |data|
            && Encoded(v.frame.header, v.frame.payload) == data[..v.consumed]
            && v.frame.header.version == PROTOCOL_VERSION && KnownKind(v.frame.header.kind)
            && |v.frame.payload| <= maxPayload
  {
    hide LoadLe, Tag, Prefix;
    var v := TryDecode(data, maxPayload);
    PrefixOfDecoded(data, v.consumed);
    assert data[..v.consumed] == data[..CHECKSUM_OFFSET] + data[CHECKSUM_OFFSET..HEADER_BYTES] + data[HEADER_BYTES..v.consumed];
  }

  // ---- one altered byte never passes --------------------------------------

  lemma AlteredCovered(data: seq<byte>, i: nat, b: byte)
    requires HEADER_BYTES <= |data| && i < |data| && data[i] != b && !(CHECKSUM_OFFSET <= i < HEADER_BYTES)
    ensures Covered(data[i := b], |data|) == Covered(data, |data|)[i := b] && Covered(data, |data|)[i] == data[i]
  {
  }

  lemma AlteredTag(data: seq<byte>, i: nat, b: byte)
    requires HEADER_BYTES <= |data| && i < |data| && data[i] != b && !(CHECKSUM_OFFSET <= i < HEADER_BYTES)
    ensures Tag(Covered(data[i := b], |data|)) != Tag(Covered(data, |data|))
  {
    hide Crc32.Checksum, TagOf;
    AlteredCovered(data, i, b);
    Crc32.OneByteChangesChecksum(Covered(data, |data|), i, b);
    if Tag(Covered(data[i := b], |data|)) == Tag(Covered(data, |data|)) {
      TagInjective(Crc32.Checksum(Covered(data[i := b], |data|)), Crc32.Checksum(Covered(data, |data|)));
    }
  }

  /**
   * A valid frame of any payload length with one byte changed outside the length field is
   * refused.
   */
  lemma OneAlteredByteIsRefused(data: seq<byte>, maxPayload: nat, i: nat, b: byte)
    requires TryDecode(data, maxPayload).Complete? && TryDecode(data, maxPayload).consumed == |data|
    requires i < |data| && b != data[i] && !(LENGTH_OFFSET <= i < CHECKSUM_OFFSET)
    ensures TryDecode(data[i := b], maxPayload).Refused?
  {
    hide LoadLe, Tag;
    var altered := data[i := b];
    assert altered[LENGTH_OFFSET..CHECKSUM_OFFSET] == data[LENGTH_OFFSET..CHECKSUM_OFFSET];
    if HeaderFault(altered, maxPayload).None? {
      if CHECKSUM_OFFSET <= i < HEADER_BYTES {
        assert altered[..CHECKSUM_OFFSET] == data[..CHECKSUM_OFFSET];
        assert altered[HEADER_BYTES..] == data[HEADER_BYTES..];
        assert Covered(altered, |data|) == Covered(data, |data|);
        assert altered[CHECKSUM_OFFSET..HEADER_BYTES][i - CHECKSUM_OFFSET]
            != data[CHECKSUM_OFFSET..HEADER_BYTES][i - CHECKSUM_OFFSET];
      } else {
        AlteredTag(data, i, b);
        assert altered[CHECKSUM_OFFSET..HEADER_BYTES] == data[CHECKSUM_OFFSET..HEADER_BYTES];
      }
    }
  }
}
