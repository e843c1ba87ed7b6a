/**
 * The durable image as a file: an 88-byte header sealed by a checksum, which in turn holds
 * the SHA-256 digest of the body.
 */
module Snapshot {
  import opened Domain
  import opened LittleEndian
  import opened Wire
  import opened SnapshotBody
  import opened Restart
  import Crc32
  import Frame
  import Sha256

  const HEADER_BYTES: nat := 88
  const MAGIC: Bytes := [0x41, 0x49, 0x46, 0x53]
  const FORMAT_OFFSET: nat := 4
  const GENERATION_OFFSET: nat := 6
  const LENGTH_OFFSET: nat := 8
  const EPOCH_OFFSET: nat := 16
  const BOOT_OFFSET: nat := 24
  const SEQUENCE_OFFSET: nat := 32
  const WRITTEN_AT_OFFSET: nat := 40
  const DIGEST_OFFSET: nat := 48
  const CHECKSUM_OFFSET: nat := 80
  const RESERVED_OFFSET: nat := 84
  const FORMAT_VERSION: nat := 1
  const PERSISTENCE_GENERATION: nat := 1
  const ZEROS: Bytes := [0, 0, 0, 0]

  datatype StateSnapshot = StateSnapshot(format: nat, generation: nat, writtenAt: nat, state: DurableState)

  /** The header fields fit the widths they are declared at. */
  predicate InRange(s: StateSnapshot) {
    && IsU16(s.format) && IsU16(s.generation) && IsU64(s.writtenAt)
    && IsU64(s.state.epoch) && IsU64(s.state.boot) && IsU64(s.state.sequence)
  }

  // ---- encoding -----------------------------------------------------------

  /** The header up to the digest. */
  function Fields(s: StateSnapshot, length: nat): (b: Bytes)
    ensures |b| == DIGEST_OFFSET
  {
    MAGIC + StoreLe(2, s.format) + StoreLe(2, s.generation) + StoreLe(8, length) + StoreLe(8, s.state.epoch)
    + StoreLe(8, s.state.boot) + StoreLe(8, s.state.sequence) + StoreLe(8, s.writtenAt)
  }

  /** The header up to the checksum. */
  function Prefix(s: StateSnapshot, body: Bytes): (b: Bytes)
    ensures |b| == CHECKSUM_OFFSET
  {
    Fields(s, |body|) + Sha256.Hash(body)
  }

  function Sealed(prefix: Bytes, body: Bytes): Bytes {
    prefix + Frame.Tag(prefix + ZEROS + ZEROS) + ZEROS + body
  }

  /** The writer's bound: the file bound, and never more than 32 bits can count. */
  function BodyBound(l: SnapshotLimits): nat {
    if l.maxFileBytes <= 0xFFFF_FFFF then l.maxFileBytes else 0xFFFF_FFFF
  }

  function EncodeSnapshot(l: SnapshotLimits, s: StateSnapshot): Result<Bytes> {
    var body := PutBody(s.state, []);
    if |body| > BodyBound(l) || |body| + HEADER_BYTES > l.maxFileBytes then Err(CapacityExceeded)
    else Ok(Sealed(Prefix(s, body), body))
  }

  // ---- decoding -----------------------------------------------------------

  function DeclaredLength(data: Bytes): nat
    requires |data| >= HEADER_BYTES
  {
    LoadLe(data[LENGTH_OFFSET..EPOCH_OFFSET])
  }

  /** What the header checksum covers: the header with the checksum zeroed. */
  function Covered(data: Bytes): Bytes
    requires |data| >= HEADER_BYTES
  {
    data[..CHECKSUM_OFFSET] + ZEROS + data[RESERVED_OFFSET..HEADER_BYTES]
  }

  /** Why an image is refused before its body is read, if it is. */
  function EnvelopeFault(l: SnapshotLimits, data: Bytes): Option<ErrorCode> {
    if |data| < HEADER_BYTES then Some(TruncatedState)
    else if data[..FORMAT_OFFSET] != MAGIC then Some(CorruptState)
    else if LoadLe(data[FORMAT_OFFSET..GENERATION_OFFSET]) != FORMAT_VERSION then Some(UnsupportedFormatVersion)
    else if LoadLe(data[GENERATION_OFFSET..LENGTH_OFFSET]) != PERSISTENCE_GENERATION then Some(UnsupportedFormatVersion)
    else
      var length := DeclaredLength(data);
      if length > l.maxFileBytes then Some(CapacityExceeded)
      else if length > |data| - HEADER_BYTES then Some(TruncatedState)
      else if data[CHECKSUM_OFFSET..RESERVED_OFFSET] != Frame.Tag(Covered(data)) then Some(IntegrityFailure)
      else if data[DIGEST_OFFSET..CHECKSUM_OFFSET] != Sha256.Hash(data[HEADER_BYTES..HEADER_BYTES + length])
          then Some(IntegrityFailure)
      else if length != |data| - HEADER_BYTES then Some(TrailingGarbage)
      else None
  }

  /** The body, with what the header says about it. */
  function DecodeBody(o: Oracles, l: SnapshotLimits, data: Bytes): Result<DurableState>
    requires |data| >= HEADER_BYTES
  {
    var (state, rest) :- GetBody(o, l, LoadLe(data[EPOCH_OFFSET..BOOT_OFFSET]), LoadLe(data[BOOT_OFFSET..SEQUENCE_OFFSET]),
                                 LoadLe(data[SEQUENCE_OFFSET..WRITTEN_AT_OFFSET]), data[HEADER_BYTES..]);
    if rest != [] then Err(TrailingGarbage) else Ok(state)
  }

  function DecodeSnapshot(o: Oracles, l: SnapshotLimits, data: Bytes): Result<StateSnapshot> {
    if EnvelopeFault(l, data).Some? then
      Err(EnvelopeFault(l, data).value)
    else
      var state :- DecodeBody(o, l, data);
      Ok(StateSnapshot(LoadLe(data[FORMAT_OFFSET..GENERATION_OFFSET]), LoadLe(data[GENERATION_OFFSET..LENGTH_OFFSET]),
                       LoadLe(data[WRITTEN_AT_OFFSET..DIGEST_OFFSET]), state))
  }

  // ---- decoding what was encoded ------------------------------------------

  lemma FieldSlices(s: StateSnapshot, length: nat)
    ensures var f := Fields(s, length);
            && f[..FORMAT_OFFSET] == MAGIC
            && f[FORMAT_OFFSET..GENERATION_OFFSET] == StoreLe(2, s.format)
            && f[GENERATION_OFFSET..LENGTH_OFFSET] == StoreLe(2, s.generation)
            && f[LENGTH_OFFSET..EPOCH_OFFSET] == StoreLe(8, length)
            && f[EPOCH_OFFSET..BOOT_OFFSET] == StoreLe(8, s.state.epoch)
            && f[BOOT_OFFSET..SEQUENCE_OFFSET] == StoreLe(8, s.state.boot)
            && f[SEQUENCE_OFFSET..WRITTEN_AT_OFFSET] == StoreLe(8, s.state.sequence)
            && f[WRITTEN_AT_OFFSET..DIGEST_OFFSET] == StoreLe(8, s.writtenAt)
  {
    hide StoreLe;
    var front := MAGIC + StoreLe(2, s.format) + StoreLe(2, s.generation) + StoreLe(8, length) + StoreLe(8, s.state.epoch)
                 + StoreLe(8, s.state.boot) + StoreLe(8, s.state.sequence);
    assert |front| == WRITTEN_AT_OFFSET && Fields(s, length) == front + StoreLe(8, s.writtenAt);
  }

  lemma SealedSlices(s: StateSnapshot, body: Bytes)
    ensures var p, data := Prefix(s, body), Sealed(Prefix(s, body), body);
            && |data| == HEADER_BYTES + |body|
            && (forall a, b | 0 <= a <= b <= DIGEST_OFFSET :: data[a..b] == Fields(s, |body|)[a..b])
            && data[DIGEST_OFFSET..CHECKSUM_OFFSET] == Sha256.Hash(body)
            && data[..CHECKSUM_OFFSET] == p
            && data[CHECKSUM_OFFSET..RESERVED_OFFSET] == Frame.Tag(p + ZEROS + ZEROS)
            && data[RESERVED_OFFSET..HEADER_BYTES] == ZEROS
            && data[HEADER_BYTES..] == body
  {
    hide Fields, Sha256.Hash, Frame.Tag;
  }

  lemma LoadFields(s: StateSnapshot, length: nat)
    requires InRange(s) && IsU64(length)
    ensures LoadLe(StoreLe(2, s.format)) == s.format && LoadLe(StoreLe(2, s.generation)) == s.generation
    ensures LoadLe(StoreLe(8, length)) == length && LoadLe(StoreLe(8, s.writtenAt)) == s.writtenAt
    ensures LoadLe(StoreLe(8, s.state.epoch)) == s.state.epoch && LoadLe(StoreLe(8, s.state.boot)) == s.state.boot
    ensures LoadLe(StoreLe(8, s.state.sequence)) == s.state.sequence
  {
    hide LoadLe, StoreLe, Power;
    Powers();
    LoadStored(2, s.format);
    LoadStored(2, s.generation);
    LoadStored(8, length);
    LoadStored(8, s.writtenAt);
    LoadStored(8, s.state.epoch);
    LoadStored(8, s.state.boot);
    LoadStored(8, s.state.sequence);
  }

  /** What decoding reads out of the header of an encoded image. */
  lemma HeaderReadsBack(s: StateSnapshot, body: Bytes)
    requires InRange(s) && IsU64(|body|)
    ensures var data := Sealed(Prefix(s, body), body);
            && |data| == HEADER_BYTES + |body| && data[..FORMAT_OFFSET] == MAGIC
            && LoadLe(data[FORMAT_OFFSET..GENERATION_OFFSET]) == s.format
            && LoadLe(data[GENERATION_OFFSET..LENGTH_OFFSET]) == s.generation
            && DeclaredLength(data) == |body|
            && LoadLe(data[EPOCH_OFFSET..BOOT_OFFSET]) == s.state.epoch
            && LoadLe(data[BOOT_OFFSET..SEQUENCE_OFFSET]) == s.state.boot
            && LoadLe(data[SEQUENCE_OFFSET..WRITTEN_AT_OFFSET]) == s.state.sequence
            && LoadLe(data[WRITTEN_AT_OFFSET..DIGEST_OFFSET]) == s.writtenAt
  {
    hide Prefix, Sealed, Fields, LoadLe, StoreLe, Sha256.Hash, Frame.Tag;
    var data, f := Sealed(Prefix(s, body), body), Fields(s, |body|);
    SealedSlices(s, body);
    FieldSlices(s, |body|);
    LoadFields(s, |body|);
    assert data[..FORMAT_OFFSET] == data[0..FORMAT_OFFSET] == f[0..FORMAT_OFFSET] == f[..FORMAT_OFFSET];
  }

  /** The seals of an encoded image hold. */
  lemma SealsHold(s: StateSnapshot, body: Bytes)
    ensures var data := Sealed(Prefix(s, body), body);
            && |data| == HEADER_BYTES + |body|
            && data[CHECKSUM_OFFSET..RESERVED_OFFSET] == Frame.Tag(Covered(data))
            && data[DIGEST_OFFSET..CHECKSUM_OFFSET] == Sha256.Hash(data[HEADER_BYTES..HEADER_BYTES + |body|])
            && data[HEADER_BYTES..] == body
  {
    hide Prefix, Sealed, Sha256.Hash, Frame.Tag;
    var data := Sealed(Prefix(s, body), body);
    SealedSlices(s, body);
    assert Covered(data) == Prefix(s, body) + ZEROS + ZEROS;
    assert data[HEADER_BYTES..HEADER_BYTES + |body|] == data[HEADER_BYTES..];
  }

  lemma EnvelopeOfEncoded(l: SnapshotLimits, s: StateSnapshot, body: Bytes)
    requires InRange(s) && IsU32(|body|) && |body| + HEADER_BYTES <= l.maxFileBytes
    ensures EnvelopeFault(l, Sealed(Prefix(s, body), body))
         == if s.format == FORMAT_VERSION && s.generation == PERSISTENCE_GENERATION then None
            else Some(UnsupportedFormatVersion)
  {
    hide Prefix, Sealed, LoadLe, Covered, Sha256.Hash, Frame.Tag;
    HeaderReadsBack(s, body);
    SealsHold(s, body);
  }

  /** The reader accepts this image: it names the format this build reads, and every record fits. */
  ghost predicate Acceptable(o: Oracles, l: SnapshotLimits, s: StateSnapshot) {
    s.format == FORMAT_VERSION && s.generation == PERSISTENCE_GENERATION && BodyFits(o, l, s.state)
  }

  /** Reading the file gives the image if it is acceptable and an error if it is not, and never another image. */
  ghost predicate ReadsTruly(o: Oracles, l: SnapshotLimits, s: StateSnapshot, file: Bytes) {
    if Acceptable(o, l, s) then DecodeSnapshot(o, l, file) == Ok(s) else DecodeSnapshot(o, l, file).Err?
  }

  /** Whatever image was written, its file is read back as that image or refused. */
  lemma SnapshotRoundTrip(o: Oracles, l: SnapshotLimits, s: StateSnapshot, file: Bytes)
    requires InRange(s) && BodyInRange(o, s.state) && EncodeSnapshot(l, s) == Ok(file)
    ensures ReadsTruly(o, l, s, file)
  {
    hide PutBody, GetBody, BodyFits, BodyInRange, Prefix, Sealed, LoadLe, EnvelopeFault, Sha256.Hash, Frame.Tag;
    var body := PutBody(s.state, []);
    EnvelopeOfEncoded(l, s, body);
    HeaderReadsBack(s, body);
    SealsHold(s, body);
    BodyRoundTrip(o, l, s.state, []);
  }

  // ---- what is never accepted ---------------------------------------------

  lemma AcceptedEnvelope(o: Oracles, l: SnapshotLimits, data: Bytes)
    requires DecodeSnapshot(o, l, data).Ok?
    ensures EnvelopeFault(l, data).None?
  {
    hide EnvelopeFault, DecodeBody;
  }

  /** A file cut short anywhere is refused. */
  lemma TruncationIsRefused(o: Oracles, l: SnapshotLimits, data: Bytes, k: nat)
    requires DecodeSnapshot(o, l, data).Ok? && k < |data|
    ensures DecodeSnapshot(o, l, data[..k]).Err?
  {
    hide DecodeBody, LoadLe, Covered, Sha256.Hash, Frame.Tag;
    AcceptedEnvelope(o, l, data);
    if k >= HEADER_BYTES {
      assert data[..k][LENGTH_OFFSET..EPOCH_OFFSET] == data[LENGTH_OFFSET..EPOCH_OFFSET];
    }
  }

  /** A file with anything appended is refused. */
  lemma AppendingIsRefused(o: Oracles, l: SnapshotLimits, data: Bytes, more: Bytes)
    requires DecodeSnapshot(o, l, data).Ok? && more != []
    ensures DecodeSnapshot(o, l, data + more).Err?
  {
    hide DecodeBody, LoadLe, Covered, Sha256.Hash, Frame.Tag;
    AcceptedEnvelope(o, l, data);
    assert (data + more)[LENGTH_OFFSET..EPOCH_OFFSET] == data[LENGTH_OFFSET..EPOCH_OFFSET];
  }

  lemma AlteredHeaderTag(data: Bytes, i: nat, b: byte)
    requires |data| >= HEADER_BYTES && i < HEADER_BYTES && data[i] != b
    requires data[CHECKSUM_OFFSET..RESERVED_OFFSET] == Frame.Tag(Covered(data))
    ensures data[i := b][CHECKSUM_OFFSET..RESERVED_OFFSET] != Frame.Tag(Covered(data[i := b]))
  {
    hide Crc32.Checksum, Frame.TagOf;
    var altered := data[i := b];
    if CHECKSUM_OFFSET <= i < RESERVED_OFFSET {
      assert Covered(altered) == Covered(data);
      assert altered[CHECKSUM_OFFSET..RESERVED_OFFSET][i - CHECKSUM_OFFSET]
          != data[CHECKSUM_OFFSET..RESERVED_OFFSET][i - CHECKSUM_OFFSET];
    } else {
      assert Covered(altered) == Covered(data)[i := b] && Covered(data)[i] == data[i];
      Crc32.OneByteChangesChecksum(Covered(data), i, b);
      if Frame.Tag(Covered(altered)) == Frame.Tag(Covered(data)) {
        Frame.TagInjective(Crc32.Checksum(Covered(altered)), Crc32.Checksum(Covered(data)));
      }
      assert altered[CHECKSUM_OFFSET..RESERVED_OFFSET] == data[CHECKSUM_OFFSET..RESERVED_OFFSET];
    }
  }

  /** An accepted image with any one byte of its header changed is refused. */
  lemma AlteredHeaderIsRefused(o: Oracles, l: SnapshotLimits, data: Bytes, i: nat, b: byte)
    requires DecodeSnapshot(o, l, data).Ok? && i < HEADER_BYTES && i < |data| && data[i] != b
    ensures DecodeSnapshot(o, l, data[i := b]).Err?
  {
    hide DecodeBody, LoadLe, Covered, Sha256.Hash, Frame.Tag;
    AcceptedEnvelope(o, l, data);
    AlteredHeaderTag(data, i, b);
  }

  /** Two accepted images that share a header and differ hold a SHA-256 collision. */
  lemma SameHeaderSameBody(o: Oracles, l: SnapshotLimits, data: Bytes, other: Bytes)
    requires DecodeSnapshot(o, l, data).Ok? && DecodeSnapshot(o, l, other).Ok? && data != other
    requires |data| >= HEADER_BYTES && |other| >= HEADER_BYTES && data[..HEADER_BYTES] == other[..HEADER_BYTES]
    ensures data[HEADER_BYTES..] != other[HEADER_BYTES..]
    ensures Sha256.Hash(data[HEADER_BYTES..]) == Sha256.Hash(other[HEADER_BYTES..])
  {
    hide DecodeBody, LoadLe, Covered, Sha256.Hash, Frame.Tag;
    AcceptedEnvelope(o, l, data);
    AcceptedEnvelope(o, l, other);
    assert data == data[..HEADER_BYTES] + data[HEADER_BYTES..] && other == other[..HEADER_BYTES] + other[HEADER_BYTES..];
    assert data[DIGEST_OFFSET..CHECKSUM_OFFSET] == data[..HEADER_BYTES][DIGEST_OFFSET..CHECKSUM_OFFSET];
    assert other[DIGEST_OFFSET..CHECKSUM_OFFSET] == other[..HEADER_BYTES][DIGEST_OFFSET..CHECKSUM_OFFSET];
    assert data[HEADER_BYTES..|data|] == data[HEADER_BYTES..] && other[HEADER_BYTES..|other|] == other[HEADER_BYTES..];
  }
}
