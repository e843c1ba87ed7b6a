/**
 * Writing and reading the durable image as the program does it: fields stored at their
 * offsets in a buffer, and a reader that advances over the body.
 */
module SnapshotFile {
  import opened Domain
  import opened LittleEndian
  import opened Buffers
  import opened BufferIo
  import opened Wire
  import opened Records
  import opened RecordIo
  import opened SnapshotBody
  import opened Snapshot
  import opened Restart
  import Crc32
  import Frame
  import Sha256

  // ---- the collections ----------------------------------------------------

  method EncodePublisherRecords(w: Writer, xs: seq<PublisherRecord>, ghost rest: Bytes) returns (status: Result<()>)
    requires w.Valid()
    modifies w
    ensures w.Valid() && Wrote(old(w.bytes), w.bytes, PutCollection(PutPublisherRecord(), xs, rest), rest, w.maxBytes, status)
  {
    hide PutU32, PutPublisher, PutEach, Grows;
    PublisherGrows();
    EachGrows(PutPublisherRecord(), xs, rest);
    var _ :- w.PutU32(|xs|, PutEach(PutPublisherRecord(), xs, rest));
    assert xs[0..] == xs;
    for i := 0 to |xs|
      invariant w.Valid() && w.bytes + PutEach(PutPublisherRecord(), xs[i..],
                                               rest) == old(w.bytes) + PutCollection(PutPublisherRecord(), xs, rest)
    {
      EachStep(PutPublisherRecord(), xs, i, rest);
      EachGrows(PutPublisherRecord(), xs[i + 1..], rest);
      var _ :- EncodePublisher(w, xs[i], PutEach(PutPublisherRecord(), xs[i + 1..], rest));
    }
    EachStops(PutPublisherRecord(), xs, rest);
    status := Ok(());
  }

  method DecodePublisherRecords(reader: Reader, l: SnapshotLimits) returns (r: Result<seq<PublisherRecord>>)
    requires reader.maxString == l.codec.maxString
    modifies reader
    ensures Reads(GetRecords(GetPublisherRecord(l.codec), l.maxRecords, old(reader.left)), r, reader.left)
  {
    hide GetU32, GetPublisher, GetEach;
    var count :- reader.GetCount(l.maxRecords);
    if count > |reader.left| {
      return Err(MalformedRecord);
    }
    ghost var start := reader.left;
    var xs: seq<PublisherRecord> := [];
    FollowsNothing(GetEach(GetPublisherRecord(l.codec), count, start));
    for i := 0 to count
      invariant Follows(GetEach(GetPublisherRecord(l.codec), count, start), xs, GetEach(GetPublisherRecord(l.codec),
              count - i, reader.left))
    {
      FollowsStep(GetEach(GetPublisherRecord(l.codec), count, start), xs, GetPublisherRecord(l.codec), count - i, reader.left);
      var x :- DecodePublisher(reader, l.codec);
      xs := xs + [x];
    }
    FollowsAll(GetEach(GetPublisherRecord(l.codec), count, start), xs, GetPublisherRecord(l.codec), reader.left);
    r := Ok(xs);
  }

  method EncodeWorkloadRecords(w: Writer, xs: seq<WorkloadRecord>, ghost rest: Bytes) returns (status: Result<()>)
    requires w.Valid()
    modifies w
    ensures w.Valid() && Wrote(old(w.bytes), w.bytes, PutCollection(PutWorkloadRecord(), xs, rest), rest, w.maxBytes, status)
  {
    hide PutU32, PutWorkload, PutEach, Grows;
    WorkloadGrows();
    EachGrows(PutWorkloadRecord(), xs, rest);
    var _ :- w.PutU32(|xs|, PutEach(PutWorkloadRecord(), xs, rest));
    assert xs[0..] == xs;
    for i := 0 to |xs|
      invariant w.Valid() && w.bytes + PutEach(PutWorkloadRecord(), xs[i..],
                                               rest) == old(w.bytes) + PutCollection(PutWorkloadRecord(), xs, rest)
    {
      EachStep(PutWorkloadRecord(), xs, i, rest);
      EachGrows(PutWorkloadRecord(), xs[i + 1..], rest);
      var _ :- EncodeWorkload(w, xs[i], PutEach(PutWorkloadRecord(), xs[i + 1..], rest));
    }
    EachStops(PutWorkloadRecord(), xs, rest);
    status := Ok(());
  }

  method DecodeWorkloadRecords(reader: Reader, l: SnapshotLimits) returns (r: Result<seq<WorkloadRecord>>)
    requires reader.maxString == l.codec.maxString
    modifies reader
    ensures Reads(GetRecords(GetWorkloadRecord(l.codec), l.maxRecords, old(reader.left)), r, reader.left)
  {
    hide GetU32, GetWorkload, GetEach;
    var count :- reader.GetCount(l.maxRecords);
    if count > |reader.left| {
      return Err(MalformedRecord);
    }
    ghost var start := reader.left;
    var xs: seq<WorkloadRecord> := [];
    FollowsNothing(GetEach(GetWorkloadRecord(l.codec), count, start));
    for i := 0 to count
      invariant Follows(GetEach(GetWorkloadRecord(l.codec), count, start), xs, GetEach(GetWorkloadRecord(l.codec), count - i,
              reader.left))
    {
      FollowsStep(GetEach(GetWorkloadRecord(l.codec), count, start), xs, GetWorkloadRecord(l.codec), count - i, reader.left);
      var x :- DecodeWorkload(reader, l.codec);
      xs := xs + [x];
    }
    FollowsAll(GetEach(GetWorkloadRecord(l.codec), count, start), xs, GetWorkloadRecord(l.codec), reader.left);
    r := Ok(xs);
  }

  method EncodeContractRecords(w: Writer, xs: seq<WorkloadContract>, ghost rest: Bytes) returns (status: Result<()>)
    requires w.Valid()
    modifies w
    ensures w.Valid() && Wrote(old(w.bytes), w.bytes, PutCollection(PutContractRecord(), xs, rest), rest, w.maxBytes, status)
  {
    hide PutU32, PutContract, PutEach, Grows;
    ContractGrows();
    EachGrows(PutContractRecord(), xs, rest);
    var _ :- w.PutU32(|xs|, PutEach(PutContractRecord(), xs, rest));
    assert xs[0..] == xs;
    for i := 0 to |xs|
      invariant w.Valid() && w.bytes + PutEach(PutContractRecord(), xs[i..],
                                               rest) == old(w.bytes) + PutCollection(PutContractRecord(), xs, rest)
    {
      EachStep(PutContractRecord(), xs, i, rest);
      EachGrows(PutContractRecord(), xs[i + 1..], rest);
      var _ :- EncodeContract(w, xs[i], PutEach(PutContractRecord(), xs[i + 1..], rest));
    }
    EachStops(PutContractRecord(), xs, rest);
    status := Ok(());
  }

  method DecodeContractRecords(o: Oracles, reader: Reader, l: SnapshotLimits) returns (r: Result<seq<WorkloadContract>>)
    requires reader.maxString == l.codec.maxString
    modifies reader
    ensures Reads(GetRecords(GetContractRecord(o, l.codec), l.maxRecords, old(reader.left)), r, reader.left)
  {
    hide GetU32, GetContract, GetEach;
    var count :- reader.GetCount(l.maxRecords);
    if count > |reader.left| {
      return Err(MalformedRecord);
    }
    ghost var start := reader.left;
    var xs: seq<WorkloadContract> := [];
    FollowsNothing(GetEach(GetContractRecord(o, l.codec), count, start));
    for i := 0 to count
      invariant Follows(GetEach(GetContractRecord(o, l.codec), count, start), xs, GetEach(GetContractRecord(o, l.codec),
              count - i, reader.left))
    {
      FollowsStep(GetEach(GetContractRecord(o, l.codec), count, start), xs, GetContractRecord(o, l.codec), count - i,
                  reader.left);
      var x :- DecodeContract(o, reader, l.codec);
      xs := xs + [x];
    }
    FollowsAll(GetEach(GetContractRecord(o, l.codec), count, start), xs, GetContractRecord(o, l.codec), reader.left);
    r := Ok(xs);
  }

  method EncodeFlowRecords(w: Writer, xs: seq<FlowRecord>, ghost rest: Bytes) returns (status: Result<()>)
    requires w.Valid()
    modifies w
    ensures w.Valid() && Wrote(old(w.bytes), w.bytes, PutCollection(PutFlowRecord(), xs, rest), rest, w.maxBytes, status)
  {
    hide PutU32, PutFlow, PutEach, Grows;
    FlowGrows();
    EachGrows(PutFlowRecord(), xs, rest);
    var _ :- w.PutU32(|xs|, PutEach(PutFlowRecord(), xs, rest));
    assert xs[0..] == xs;
    for i := 0 to |xs|
      invariant w.Valid() && w.bytes + PutEach(PutFlowRecord(), xs[i..],
                                               rest) == old(w.bytes) + PutCollection(PutFlowRecord(), xs, rest)
    {
      EachStep(PutFlowRecord(), xs, i, rest);
      EachGrows(PutFlowRecord(), xs[i + 1..], rest);
      var _ :- EncodeFlow(w, xs[i], PutEach(PutFlowRecord(), xs[i + 1..], rest));
    }
    EachStops(PutFlowRecord(), xs, rest);
    status := Ok(());
  }

  method DecodeFlowRecords(o: Oracles, reader: Reader, l: SnapshotLimits) returns (r: Result<seq<FlowRecord>>)
    requires reader.maxString == l.codec.maxString
    modifies reader
    ensures Reads(GetRecords(GetFlowRecord(o, l.codec), l.maxRecords, old(reader.left)), r, reader.left)
  {
    hide GetU32, GetFlow, GetEach;
    var count :- reader.GetCount(l.maxRecords);
    if count > |reader.left| {
      return Err(MalformedRecord);
    }
    ghost var start := reader.left;
    var xs: seq<FlowRecord> := [];
    FollowsNothing(GetEach(GetFlowRecord(o, l.codec), count, start));
    for i := 0 to count
      invariant Follows(GetEach(GetFlowRecord(o, l.codec), count, start), xs, GetEach(GetFlowRecord(o, l.codec), count - i,
              reader.left))
    {
      FollowsStep(GetEach(GetFlowRecord(o, l.codec), count, start), xs, GetFlowRecord(o, l.codec), count - i, reader.left);
      var x :- DecodeFlow(o, reader, l.codec);
      xs := xs + [x];
    }
    FollowsAll(GetEach(GetFlowRecord(o, l.codec), count, start), xs, GetFlowRecord(o, l.codec), reader.left);
    r := Ok(xs);
  }

  method EncodeEvidenceRecords(w: Writer, xs: seq<EvidenceRecord>, ghost rest: Bytes) returns (status: Result<()>)
    requires w.Valid()
    modifies w
    ensures w.Valid() && Wrote(old(w.bytes), w.bytes, PutCollection(PutEvidenceRecord(), xs, rest), rest, w.maxBytes, status)
  {
    hide PutU32, PutEvidence, PutEach, Grows;
    EvidenceGrows();
    EachGrows(PutEvidenceRecord(), xs, rest);
    var _ :- w.PutU32(|xs|, PutEach(PutEvidenceRecord(), xs, rest));
    assert xs[0..] == xs;
    for i := 0 to |xs|
      invariant w.Valid() && w.bytes + PutEach(PutEvidenceRecord(), xs[i..],
                                               rest) == old(w.bytes) + PutCollection(PutEvidenceRecord(), xs, rest)
    {
      EachStep(PutEvidenceRecord(), xs, i, rest);
      EachGrows(PutEvidenceRecord(), xs[i + 1..], rest);
      var _ :- EncodeEvidence(w, xs[i], PutEach(PutEvidenceRecord(), xs[i + 1..], rest));
    }
    EachStops(PutEvidenceRecord(), xs, rest);
    status := Ok(());
  }

  method DecodeEvidenceRecords(o: Oracles, reader: Reader, l: SnapshotLimits) returns (r: Result<seq<EvidenceRecord>>)
    requires reader.maxString == l.codec.maxString
    modifies reader
    ensures Reads(GetRecords(GetEvidenceRecord(o, l.codec), l.maxRecords, old(reader.left)), r, reader.left)
  {
    hide GetU32, GetEvidence, GetEach;
    var count :- reader.GetCount(l.maxRecords);
    if count > |reader.left| {
      return Err(MalformedRecord);
    }
    ghost var start := reader.left;
    var xs: seq<EvidenceRecord> := [];
    FollowsNothing(GetEach(GetEvidenceRecord(o, l.codec), count, start));
    for i := 0 to count
      invariant Follows(GetEach(GetEvidenceRecord(o, l.codec), count, start), xs, GetEach(GetEvidenceRecord(o, l.codec),
              count - i, reader.left))
    {
      FollowsStep(GetEach(GetEvidenceRecord(o, l.codec), count, start), xs, GetEvidenceRecord(o, l.codec), count - i,
                  reader.left);
      var x :- DecodeEvidence(o, reader, l.codec);
      xs := xs + [x];
    }
    FollowsAll(GetEach(GetEvidenceRecord(o, l.codec), count, start), xs, GetEvidenceRecord(o, l.codec), reader.left);
    r := Ok(xs);
  }

  method EncodeClassificationRecords(w: Writer, xs: seq<Classification>, ghost rest: Bytes) returns (status: Result<()>)
    requires w.Valid()
    modifies w
    ensures w.Valid() && Wrote(old(w.bytes), w.bytes, PutCollection(PutClassificationRecord(), xs, rest), rest, w.maxBytes,
                               status)
  {
    hide PutU32, PutClassification, PutEach, Grows;
    ClassificationGrows();
    EachGrows(PutClassificationRecord(), xs, rest);
    var _ :- w.PutU32(|xs|, PutEach(PutClassificationRecord(), xs, rest));
    assert xs[0..] == xs;
    for i := 0 to |xs|
      invariant w.Valid() && w.bytes + PutEach(PutClassificationRecord(), xs[i..],
                                               rest) == old(w.bytes) + PutCollection(PutClassificationRecord(), xs, rest)
    {
      EachStep(PutClassificationRecord(), xs, i, rest);
      EachGrows(PutClassificationRecord(), xs[i + 1..], rest);
      var _ :- EncodeClassification(w, xs[i], PutEach(PutClassificationRecord(), xs[i + 1..], rest));
    }
    EachStops(PutClassificationRecord(), xs, rest);
    status := Ok(());
  }

  method DecodeClassificationRecords(reader: Reader, l: SnapshotLimits) returns (r: Result<seq<Classification>>)
    requires reader.maxString == l.codec.maxString
    modifies reader
    ensures Reads(GetRecords(GetClassificationRecord(l.codec), l.maxRecords, old(reader.left)), r, reader.left)
  {
    hide GetU32, GetClassification, GetEach;
    var count :- reader.GetCount(l.maxRecords);
    if count > |reader.left| {
      return Err(MalformedRecord);
    }
    ghost var start := reader.left;
    var xs: seq<Classification> := [];
    FollowsNothing(GetEach(GetClassificationRecord(l.codec), count, start));
    for i := 0 to count
      invariant Follows(GetEach(GetClassificationRecord(l.codec), count, start), xs, GetEach(GetClassificationRecord(l.codec),
              count - i, reader.left))
    {
      FollowsStep(GetEach(GetClassificationRecord(l.codec), count, start), xs, GetClassificationRecord(l.codec), count - i,
                  reader.left);
      var x :- DecodeClassification(reader, l.codec);
      xs := xs + [x];
    }
    FollowsAll(GetEach(GetClassificationRecord(l.codec), count, start), xs, GetClassificationRecord(l.codec), reader.left);
    r := Ok(xs);
  }

  method EncodeRevocationRecords(w: Writer, xs: seq<RevocationRecord>, ghost rest: Bytes) returns (status: Result<()>)
    requires w.Valid()
    modifies w
    ensures w.Valid() && Wrote(old(w.bytes), w.bytes, PutCollection(PutRevocationRecord(), xs, rest), rest, w.maxBytes, status)
  {
    hide PutU32, PutRevocation, PutEach, Grows;
    RevocationGrows();
    EachGrows(PutRevocationRecord(), xs, rest);
    var _ :- w.PutU32(|xs|, PutEach(PutRevocationRecord(), xs, rest));
    assert xs[0..] == xs;
    for i := 0 to |xs|
      invariant w.Valid() && w.bytes + PutEach(PutRevocationRecord(), xs[i..],
                                               rest) == old(w.bytes) + PutCollection(PutRevocationRecord(), xs, rest)
    {
      EachStep(PutRevocationRecord(), xs, i, rest);
      EachGrows(PutRevocationRecord(), xs[i + 1..], rest);
      var _ :- EncodeRevocation(w, xs[i], PutEach(PutRevocationRecord(), xs[i + 1..], rest));
    }
    EachStops(PutRevocationRecord(), xs, rest);
    status := Ok(());
  }

  method DecodeRevocationRecords(reader: Reader, l: SnapshotLimits) returns (r: Result<seq<RevocationRecord>>)
    requires reader.maxString == l.codec.maxString
    modifies reader
    ensures Reads(GetRecords(GetRevocationRecord(l.codec), l.maxRecords, old(reader.left)), r, reader.left)
  {
    hide GetU32, GetRevocation, GetEach;
    var count :- reader.GetCount(l.maxRecords);
    if count > |reader.left| {
      return Err(MalformedRecord);
    }
    ghost var start := reader.left;
    var xs: seq<RevocationRecord> := [];
    FollowsNothing(GetEach(GetRevocationRecord(l.codec), count, start));
    for i := 0 to count
      invariant Follows(GetEach(GetRevocationRecord(l.codec), count, start), xs, GetEach(GetRevocationRecord(l.codec),
              count - i, reader.left))
    {
      FollowsStep(GetEach(GetRevocationRecord(l.codec), count, start), xs, GetRevocationRecord(l.codec), count - i,
                  reader.left);
      var x :- DecodeRevocation(reader, l.codec);
      xs := xs + [x];
    }
    FollowsAll(GetEach(GetRevocationRecord(l.codec), count, start), xs, GetRevocationRecord(l.codec), reader.left);
    r := Ok(xs);
  }

  method EncodeSupersessionRecords(w: Writer, xs: seq<SupersessionRecord>, ghost rest: Bytes) returns (status: Result<()>)
    requires w.Valid()
    modifies w
    ensures w.Valid() && Wrote(old(w.bytes), w.bytes, PutCollection(PutSupersessionRecord(), xs, rest), rest, w.maxBytes,
                               status)
  {
    hide PutU32, PutSupersession, PutEach, Grows;
    SupersessionGrows();
    EachGrows(PutSupersessionRecord(), xs, rest);
    var _ :- w.PutU32(|xs|, PutEach(PutSupersessionRecord(), xs, rest));
    assert xs[0..] == xs;
    for i := 0 to |xs|
      invariant w.Valid() && w.bytes + PutEach(PutSupersessionRecord(), xs[i..],
                                               rest) == old(w.bytes) + PutCollection(PutSupersessionRecord(), xs, rest)
    {
      EachStep(PutSupersessionRecord(), xs, i, rest);
      EachGrows(PutSupersessionRecord(), xs[i + 1..], rest);
      var _ :- EncodeSupersession(w, xs[i], PutEach(PutSupersessionRecord(), xs[i + 1..], rest));
    }
    EachStops(PutSupersessionRecord(), xs, rest);
    status := Ok(());
  }

  method DecodeSupersessionRecords(reader: Reader, l: SnapshotLimits) returns (r: Result<seq<SupersessionRecord>>)
    requires reader.maxString == l.codec.maxString
    modifies reader
    ensures Reads(GetRecords(GetSupersessionRecord(l.codec), l.maxRecords, old(reader.left)), r, reader.left)
  {
    hide GetU32, GetSupersession, GetEach;
    var count :- reader.GetCount(l.maxRecords);
    if count > |reader.left| {
      return Err(MalformedRecord);
    }
    ghost var start := reader.left;
    var xs: seq<SupersessionRecord> := [];
    FollowsNothing(GetEach(GetSupersessionRecord(l.codec), count, start));
    for i := 0 to count
      invariant Follows(GetEach(GetSupersessionRecord(l.codec), count, start), xs, GetEach(GetSupersessionRecord(l.codec),
              count - i, reader.left))
    {
      FollowsStep(GetEach(GetSupersessionRecord(l.codec), count, start), xs, GetSupersessionRecord(l.codec), count - i,
                  reader.left);
      var x :- DecodeSupersession(reader, l.codec);
      xs := xs + [x];
    }
    FollowsAll(GetEach(GetSupersessionRecord(l.codec), count, start), xs, GetSupersessionRecord(l.codec), reader.left);
    r := Ok(xs);
  }

  // ---- reading ------------------------------------------------------------

  method ReadBody(o: Oracles, l: SnapshotLimits, epoch: nat, boot: nat, sequence: nat,
                  reader: Reader) returns (r: Result<DurableState>)
    requires reader.maxString == l.codec.maxString
    modifies reader
    ensures Reads(GetBody(o, l, epoch, boot, sequence, old(reader.left)), r, reader.left)
  {
    hide GetWord, GetPolicy, GetRecords, GetPublisherRecord, GetWorkloadRecord, GetContractRecord, GetFlowRecord,
         GetEvidenceRecord, GetClassificationRecord, GetRevocationRecord, GetSupersessionRecord;
    var schema :- reader.GetWord(1);
    if schema != BODY_SCHEMA {
      return Err(UnsupportedFormatVersion);
    }
    var policy :- DecodePolicy(reader, l.codec);
    var publishers :- DecodePublisherRecords(reader, l);
    var workloads :- DecodeWorkloadRecords(reader, l);
    var contracts :- DecodeContractRecords(o, reader, l);
    var flows :- DecodeFlowRecords(o, reader, l);
    var evidence :- DecodeEvidenceRecords(o, reader, l);
    var classifications :- DecodeClassificationRecords(reader, l);
    var revocations :- DecodeRevocationRecords(reader, l);
    var supersessions :- DecodeSupersessionRecords(reader, l);
    r := Ok(DurableState(policy, epoch, boot, sequence, publishers, workloads, contracts, flows, evidence, classifications,
                         revocations,
                         supersessions));
  }

  /** Checks everything that needs no body: sizes, versions, and both seals. */
  method CheckEnvelope(l: SnapshotLimits, data: Bytes) returns (fault: Option<ErrorCode>)
    requires |data| < 0x2000_0000_0000_0000
    ensures fault == EnvelopeFault(l, data)
  {
    hide LoadLe, Crc32.Checksum, Frame.TagOf, Sha256.Hash;
    if |data| < HEADER_BYTES {
      return Some(TruncatedState);
    }
    if data[..FORMAT_OFFSET] != MAGIC {
      return Some(CorruptState);
    }
    if LoadLe(data[FORMAT_OFFSET..GENERATION_OFFSET]) != FORMAT_VERSION {
      return Some(UnsupportedFormatVersion);
    }
    if LoadLe(data[GENERATION_OFFSET..LENGTH_OFFSET]) != PERSISTENCE_GENERATION {
      return Some(UnsupportedFormatVersion);
    }
    var length := LoadLe(data[LENGTH_OFFSET..EPOCH_OFFSET]);
    if length > l.maxFileBytes {
      return Some(CapacityExceeded);
    }
    if length > |data| - HEADER_BYTES {
      return Some(TruncatedState);
    }
    var computed := Crc32.ComputeChecksum(data[..CHECKSUM_OFFSET] + ZEROS + data[RESERVED_OFFSET..HEADER_BYTES]);
    if data[CHECKSUM_OFFSET..RESERVED_OFFSET] != Frame.TagOf(computed) {
      return Some(IntegrityFailure);
    }
    var digest := DigestOf(data[HEADER_BYTES..HEADER_BYTES + length]);
    if data[DIGEST_OFFSET..CHECKSUM_OFFSET] != digest {
      return Some(IntegrityFailure);
    }
    if length != |data| - HEADER_BYTES {
      return Some(TrailingGarbage);
    }
    fault := None;
  }

  method DigestOf(body: Bytes) returns (digest: Bytes)
    requires |body| < 0x2000_0000_0000_0000
    ensures digest == Sha256.Hash(body)
  {
    hide Sha256.Hash;
    assert Sha256.Flatten([body]) == body by {
      assert [body][..0] == [] && Sha256.Flatten([]) == [];
    }
    digest := Sha256.HashInPieces([body]);
  }

  method ReadSnapshot(o: Oracles, l: SnapshotLimits, data: Bytes) returns (r: Result<StateSnapshot>)
    requires |data| < 0x2000_0000_0000_0000
    ensures r == DecodeSnapshot(o, l, data)
  {
    hide EnvelopeFault, GetBody, LoadLe;
    var fault := CheckEnvelope(l, data);
    if fault.Some? {
      return Err(fault.value);
    }
    EnvelopeIsLong(l, data);
    var format, generation := LoadLe(data[FORMAT_OFFSET..GENERATION_OFFSET]), LoadLe(data[GENERATION_OFFSET..LENGTH_OFFSET]);
    var epoch, boot := LoadLe(data[EPOCH_OFFSET..BOOT_OFFSET]), LoadLe(data[BOOT_OFFSET..SEQUENCE_OFFSET]);
    var sequence, writtenAt := LoadLe(data[SEQUENCE_OFFSET..WRITTEN_AT_OFFSET]), LoadLe(data[WRITTEN_AT_OFFSET..DIGEST_OFFSET]);
    var reader := new Reader(data[HEADER_BYTES..], l.codec.maxString);
    var state :- ReadBody(o, l, epoch, boot, sequence, reader);
    var _ :- reader.Finish();
    r := Ok(StateSnapshot(format, generation, writtenAt, state));
  }

  lemma EnvelopeIsLong(l: SnapshotLimits, data: Bytes)
    requires EnvelopeFault(l, data).None?
    ensures |data| >= HEADER_BYTES
  {
  }

  // ---- writing ------------------------------------------------------------

  /** Stores the fields that precede the digest, each at its offset. */
  method PutFields(out: array<byte>, s: StateSnapshot, length: nat)
    requires out.Length >= HEADER_BYTES
    modifies out
    ensures out[..DIGEST_OFFSET] == Fields(s, length)
  {
    hide StoreLe;
    PutAt(out, 0, MAGIC);
    assert out[..FORMAT_OFFSET] == MAGIC;
    PutAt(out, FORMAT_OFFSET, StoreLe(2, s.format));
    PutAt(out, GENERATION_OFFSET, StoreLe(2, s.generation));
    PutAt(out, LENGTH_OFFSET, StoreLe(8, length));
    PutAt(out, EPOCH_OFFSET, StoreLe(8, s.state.epoch));
    PutAt(out, BOOT_OFFSET, StoreLe(8, s.state.boot));
    PutAt(out, SEQUENCE_OFFSET, StoreLe(8, s.state.sequence));
    PutAt(out, WRITTEN_AT_OFFSET, StoreLe(8, s.writtenAt));
  }

  /** Computes the checksum over the zeroed field and stores it. */
  method Seal(out: array<byte>, prefix: Bytes, body: Bytes)
    requires |prefix| == CHECKSUM_OFFSET && out[..] == prefix + ZEROS + ZEROS + body
    modifies out
    ensures out[..] == Sealed(prefix, body)
  {
    hide Crc32.Checksum, Frame.TagOf;
    ghost var was := out[..];
    assert was[..CHECKSUM_OFFSET] == prefix && was[RESERVED_OFFSET..] == ZEROS + body;
    assert out[..CHECKSUM_OFFSET] == was[..CHECKSUM_OFFSET] && out[RESERVED_OFFSET..] == was[RESERVED_OFFSET..];
    assert out[..HEADER_BYTES] == was[..HEADER_BYTES] == prefix + ZEROS + ZEROS;
    var checksum := Crc32.ComputeChecksum(out[..HEADER_BYTES]);
    CopyInto(out, CHECKSUM_OFFSET, Frame.TagOf(checksum));
  }

  method WriteBody(w: Writer, d: DurableState, ghost rest: Bytes) returns (status: Result<()>)
    requires w.Valid()
    modifies w
    ensures w.Valid() && Wrote(old(w.bytes), w.bytes, PutBody(d, rest), rest, w.maxBytes, status)
  {
    hide Grows, PutU8, PutPolicy, PutCollection, PutPublisherRecord, PutWorkloadRecord, PutContractRecord,
         PutFlowRecord, PutEvidenceRecord, PutClassificationRecord, PutRevocationRecord, PutSupersessionRecord;
    SupersessionGrows();
    CollectionGrows(PutSupersessionRecord(), d.supersessions, rest);
    ghost var s8 := PutCollection(PutSupersessionRecord(), d.supersessions, rest);
    RevocationGrows();
    CollectionGrows(PutRevocationRecord(), d.revocations, s8);
    ghost var s7 := PutCollection(PutRevocationRecord(), d.revocations, s8);
    ClassificationGrows();
    CollectionGrows(PutClassificationRecord(), d.classifications, s7);
    ghost var s6 := PutCollection(PutClassificationRecord(), d.classifications, s7);
    EvidenceGrows();
    CollectionGrows(PutEvidenceRecord(), d.evidence, s6);
    ghost var s5 := PutCollection(PutEvidenceRecord(), d.evidence, s6);
    FlowGrows();
    CollectionGrows(PutFlowRecord(), d.flows, s5);
    ghost var s4 := PutCollection(PutFlowRecord(), d.flows, s5);
    ContractGrows();
    CollectionGrows(PutContractRecord(), d.contracts, s4);
    ghost var s3 := PutCollection(PutContractRecord(), d.contracts, s4);
    WorkloadGrows();
    CollectionGrows(PutWorkloadRecord(), d.workloads, s3);
    ghost var s2 := PutCollection(PutWorkloadRecord(), d.workloads, s3);
    PublisherGrows();
    CollectionGrows(PutPublisherRecord(), d.publishers, s2);
    ghost var s1 := PutCollection(PutPublisherRecord(), d.publishers, s2);
    PolicyGrows(d.policy, s1);
    ghost var s0 := PutPolicy(d.policy, s1);
    var _ :- w.PutU8(BODY_SCHEMA, s0);
    var _ :- EncodePolicy(w, d.policy, s1);
    var _ :- EncodePublisherRecords(w, d.publishers, s2);
    var _ :- EncodeWorkloadRecords(w, d.workloads, s3);
    var _ :- EncodeContractRecords(w, d.contracts, s4);
    var _ :- EncodeFlowRecords(w, d.flows, s5);
    var _ :- EncodeEvidenceRecords(w, d.evidence, s6);
    var _ :- EncodeClassificationRecords(w, d.classifications, s7);
    var _ :- EncodeRevocationRecords(w, d.revocations, s8);
    status := EncodeSupersessionRecords(w, d.supersessions, rest);
  }

  lemma PolicyGrows(p: ClassifierPolicy, rest: Bytes)
    ensures |PutPolicy(p, rest)| >= |rest|
  {
    hide PutU8, PutU32, PutU64, PutFlag, PutLimits, PutCollection, Grows, PutHintItem, PutAdapterItem;
    HintsGrow(p.portHints);
    CollectionGrows(PutHintItem(), p.portHints, rest);
    AdaptersGrow(p.heuristicAdapters);
    var s9 := PutCollection(PutHintItem(), p.portHints, rest);
    CollectionGrows(PutAdapterItem(), p.heuristicAdapters, s9);
    LimitsGrow(p.limits, PutCollection(PutAdapterItem(), p.heuristicAdapters, s9));
  }

  method WriteSnapshot(l: SnapshotLimits, s: StateSnapshot) returns (r: Result<Bytes>)
    ensures r == EncodeSnapshot(l, s)
  {
    hide PutBody, Fields, Sealed, Sha256.Hash;
    var writer := new Writer(BodyBound(l));
    var written := WriteBody(writer, s.state, []);
    if written.Err? {
      return Err(CapacityExceeded);
    }
    var body := writer.bytes;
    assert body == body + [] == [] + PutBody(s.state, []) == PutBody(s.state, []);
    if |body| + HEADER_BYTES > l.maxFileBytes {
      return Err(CapacityExceeded);
    }
    var out := new byte[HEADER_BYTES + |body|](_ => 0);
    PutFields(out, s, |body|);
    var digest := DigestOf(body);
    PutAt(out, DIGEST_OFFSET, digest);
    assert out[..CHECKSUM_OFFSET] == Prefix(s, body);
    PutAt(out, CHECKSUM_OFFSET, ZEROS + ZEROS);
    assert out[..HEADER_BYTES] == Prefix(s, body) + ZEROS + ZEROS;
    PutAt(out, HEADER_BYTES, body);
    assert out[..] == out[..HEADER_BYTES + |body|];
    Seal(out, Prefix(s, body), body);
    r := Ok(out[..]);
  }
}
