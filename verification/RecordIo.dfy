/**
 * The record codecs as they run: every encoder drives a bounded writer field by field, every
 * decoder a reader.
 *
 * `rest` is what the caller has still to write; it occurs only in specifications.
 */
module RecordIo {
  import opened Domain
  import opened Wire
  import opened Records
  import opened BufferIo
  import opened SnapshotBody
  import Policy

  // ---- collections --------------------------------------------------------

  lemma EachStep<T>(put: (T, Bytes) -> Bytes, xs: seq<T>, i: nat, rest: Bytes)
    requires i < |xs|
    ensures PutEach(put, xs[i..], rest) == put(xs[i], PutEach(put, xs[i + 1..], rest))
  {
    assert xs[i..][1..] == xs[i + 1..];
  }

  lemma EachStops<T>(put: (T, Bytes) -> Bytes, xs: seq<T>, rest: Bytes)
    ensures PutEach(put, xs[|xs|..], rest) == rest
  {
  }

  /** The whole result is what was read so far followed by what is still to be read. */
  ghost predicate Follows<T>(whole: Parsed<seq<T>>, xs: seq<T>, remaining: Parsed<seq<T>>) {
    whole == match remaining
             case Err(e) => Err(e)
             case Ok((ys, rest)) => Ok((xs + ys, rest))
  }

  lemma FollowsNothing<T>(whole: Parsed<seq<T>>)
    ensures Follows(whole, [], whole)
  {
    if whole.Ok? {
      assert [] + whole.value.0 == whole.value.0;
    }
  }

  lemma FollowsStep<T>(whole: Parsed<seq<T>>, xs: seq<T>, get: Bytes -> Parsed<T>, n: nat, left: Bytes)
    requires n > 0 && Follows(whole, xs, GetEach(get, n, left))
    ensures match get(left)
            case Err(e) => whole == Err(e)
            case Ok((x, rest)) => Follows(whole, xs + [x], GetEach(get, n - 1, rest))
  {
    match get(left)
    case Err(_) =>
    case Ok((x, rest)) =>
      var tail := GetEach(get, n - 1, rest);
      if tail.Ok? {
        assert xs + ([x] + tail.value.0) == (xs + [x]) + tail.value.0;
      }
  }

  lemma FollowsAll<T>(whole: Parsed<seq<T>>, xs: seq<T>, get: Bytes -> Parsed<T>, left: Bytes)
    requires Follows(whole, xs, GetEach(get, 0, left))
    ensures whole == Ok((xs, left))
  {
    assert xs + [] == xs;
  }

  lemma AdaptersGrow(xs: seq<HeuristicAdapter>)
    ensures forall x | x in xs :: Grows(PutAdapterItem(), x)
  {
  }

  lemma HintsGrow(xs: seq<PortHint>)
    ensures forall x | x in xs :: Grows(PutHintItem(), x)
  {
  }

  // ---- single values ------------------------------------------------------

  method ReadVersion(reader: Reader, expected: nat) returns (r: Result<()>)
    modifies reader
    ensures Reads(GetVersion(expected, old(reader.left)), r, reader.left)
  {
    hide GetWord;
    var version :- reader.GetWord(1);
    r := if version != expected then Err(UnsupportedVersion) else Ok(());
  }

  method ReadIdentity(reader: Reader) returns (r: Result<string>)
    modifies reader
    ensures Reads(GetIdentity(reader.maxString, old(reader.left)), r, reader.left)
  {
    hide GetText, Policy.IsCanonicalIdentity;
    var text :- reader.GetText();
    r := if Policy.IsCanonicalIdentity(text) then Ok(text) else Err(MalformedRecord);
  }

  method ReadOptional(reader: Reader) returns (r: Result<string>)
    modifies reader
    ensures Reads(GetOptional(reader.maxString, old(reader.left)), r, reader.left)
  {
    hide GetText, Policy.IsCanonicalIdentity;
    var text :- reader.GetText();
    r := if text == "" || Policy.IsCanonicalIdentity(text) then Ok(text) else Err(MalformedRecord);
  }

  method ReadDigest(reader: Reader) returns (r: Result<Digest>)
    modifies reader
    ensures Reads(GetDigest(old(reader.left)), r, reader.left)
  {
    hide GetBlob;
    var raw :- reader.GetBlob(32);
    r := if |raw| == 32 then Ok(raw) else Err(MalformedRecord);
  }

  method ReadAddress(reader: Reader) returns (r: Result<IpAddress>)
    modifies reader
    ensures Reads(GetAddress(old(reader.left)), r, reader.left)
  {
    hide GetBlob;
    var raw :- reader.GetBlob(16);
    r := if |raw| == 16 then Ok(raw) else Err(MalformedRecord);
  }

  method ReadFlowId(reader: Reader) returns (r: Result<FlowId>)
    modifies reader
    ensures Reads(GetFlowId(old(reader.left)), r, reader.left)
  {
    hide GetWord;
    var hi :- reader.GetWord(8);
    var lo :- reader.GetWord(8);
    r := Ok(FlowId(hi, lo));
  }

  method ReadConfidence(reader: Reader) returns (r: Result<Confidence>)
    modifies reader
    ensures Reads(GetConfidence(old(reader.left)), r, reader.left)
  {
    hide GetWord;
    var points :- reader.GetWord(4);
    r := if points > CONFIDENCE_SCALE then Err(MalformedRecord) else Ok(points);
  }

  method ReadGeneration(reader: Reader) returns (r: Result<nat>)
    modifies reader
    ensures Reads(GetGeneration(old(reader.left)), r, reader.left)
  {
    hide GetWord;
    var generation :- reader.GetWord(8);
    r := if generation == 0 then Err(CorruptState) else Ok(generation);
  }

  method ReadSource(reader: Reader) returns (r: Result<EvidenceSource>)
    modifies reader
    ensures Reads(GetSource(old(reader.left)), r, reader.left)
  {
    hide GetWord, SourceOf;
    var code :- reader.GetWord(1);
    r := Ok(SourceOf(code));
  }

  method ReadEvidenceState(reader: Reader) returns (r: Result<EvidenceState>)
    modifies reader
    ensures Reads(GetEvidenceState(old(reader.left)), r, reader.left)
  {
    hide GetWord, EvidenceStateOf;
    var code :- reader.GetWord(1);
    r := Ok(EvidenceStateOf(code));
  }

  method ReadSemantic(reader: Reader) returns (r: Result<SemanticClass>)
    modifies reader
    ensures Reads(GetSemantic(old(reader.left)), r, reader.left)
  {
    hide GetWord, SemanticOf;
    var code :- reader.GetWord(2);
    r := Ok(SemanticOf(code));
  }

  method ReadTransport(reader: Reader) returns (r: Result<Transport>)
    modifies reader
    ensures Reads(GetTransport(old(reader.left)), r, reader.left)
  {
    hide GetWord, TransportOf;
    var code :- reader.GetWord(1);
    r := Ok(TransportOf(code));
  }

  method ReadClassificationState(reader: Reader) returns (r: Result<ClassificationState>)
    modifies reader
    ensures Reads(GetClassificationState(old(reader.left)), r, reader.left)
  {
    hide GetWord, ClassificationStateOf;
    var code :- reader.GetWord(1);
    r := Ok(ClassificationStateOf(code));
  }

  method ReadDisposition(reader: Reader) returns (r: Result<Disposition>)
    modifies reader
    ensures Reads(GetDisposition(old(reader.left)), r, reader.left)
  {
    hide GetWord, DispositionOf;
    var code :- reader.GetWord(1);
    r := Ok(DispositionOf(code));
  }

  method ReadWorkloadState(reader: Reader) returns (r: Result<WorkloadState>)
    modifies reader
    ensures Reads(GetWorkloadState(old(reader.left)), r, reader.left)
  {
    hide GetWord;
    var code :- reader.GetWord(1);
    r := if code == 0 then Ok(WorkloadDeclared) else if code == 1 then Ok(WorkloadActive)
         else if code == 2 then Ok(WorkloadRetired) else Err(CorruptState);
  }

  method ReadContractState(reader: Reader) returns (r: Result<ContractState>)
    modifies reader
    ensures Reads(GetContractState(old(reader.left)), r, reader.left)
  {
    hide GetWord;
    var code :- reader.GetWord(1);
    r := if code == 0 then Ok(ContractPending) else if code == 1 then Ok(ContractActive)
         else if code == 2 then Ok(ContractRetired) else Err(CorruptState);
  }

  // ---- flows --------------------------------------------------------------

  method EncodeFlowKey(w: Writer, k: FlowKey, ghost rest: Bytes) returns (status: Result<()>)
    requires w.Valid()
    modifies w
    ensures w.Valid() && Wrote(old(w.bytes), w.bytes, PutFlowKey(k, rest), rest, w.maxBytes, status)
  {
    hide PutBlob, PutU16, PutU8;
    ghost var s4 := PutU16(k.remotePort, rest);
    ghost var s3 := PutU16(k.localPort, s4);
    ghost var s2 := PutBlob(k.remoteAddress, s3);
    ghost var s1 := PutBlob(k.localAddress, s2);
    var _ :- w.PutU8(TransportCode(k.transport), s1);
    var _ :- w.PutBlob(k.localAddress, s2);
    var _ :- w.PutBlob(k.remoteAddress, s3);
    var _ :- w.PutU16(k.localPort, s4);
    status := w.PutU16(k.remotePort, rest);
  }

  method DecodeFlowKey(reader: Reader) returns (r: Result<FlowKey>)
    modifies reader
    ensures Reads(GetFlowKey(old(reader.left)), r, reader.left)
  {
    hide GetAddress, GetTransport, GetWord;
    var transport :- ReadTransport(reader);
    var localAddress :- ReadAddress(reader);
    var remoteAddress :- ReadAddress(reader);
    var localPort :- reader.GetWord(2);
    var remotePort :- reader.GetWord(2);
    r := Ok(FlowKey(localAddress, remoteAddress, localPort, remotePort, transport));
  }

  lemma FlowKeyGrows(k: FlowKey, rest: Bytes)
    ensures |PutFlowKey(k, rest)| >= |rest|
  {
    hide PutU8, PutU16, PutBlob;
  }

  method EncodeFlow(w: Writer, r: FlowRecord, ghost rest: Bytes) returns (status: Result<()>)
    requires w.Valid()
    modifies w
    ensures w.Valid() && Wrote(old(w.bytes), w.bytes, PutFlow(r, rest), rest, w.maxBytes, status)
  {
    hide PutFlowId, PutFlowKey, PutText, PutU64, PutU8;
    ghost var s8 := PutU64(r.renewals, rest);
    ghost var s7 := PutText(r.registeredBy, s8);
    ghost var s6 := PutU64(r.lastActivityTick, s7);
    ghost var s5 := PutU64(r.registeredTick, s6);
    ghost var s4 := PutU64(r.registeredSeq, s5);
    ghost var s3 := PutU64(r.generation, s4);
    FlowKeyGrows(r.key, s3);
    ghost var s2 := PutFlowKey(r.key, s3);
    ghost var s1 := PutFlowId(r.id, s2);
    var _ :- w.PutU8(1, s1);
    var _ :- w.PutFlowId(r.id, s2);
    var _ :- EncodeFlowKey(w, r.key, s3);
    var _ :- w.PutU64(r.generation, s4);
    var _ :- w.PutU64(r.registeredSeq, s5);
    var _ :- w.PutU64(r.registeredTick, s6);
    var _ :- w.PutU64(r.lastActivityTick, s7);
    var _ :- w.PutText(r.registeredBy, s8);
    status := w.PutU64(r.renewals, rest);
  }

  method DecodeFlow(o: Oracles, reader: Reader, l: CodecLimits) returns (r: Result<FlowRecord>)
    requires reader.maxString == l.maxString
    modifies reader
    ensures Reads(GetFlow(o, l, old(reader.left)), r, reader.left)
  {
    hide GetFlowId, GetFlowKey, GetOptional, GetVersion, GetWord;
    var _ :- ReadVersion(reader, 1);
    var id :- ReadFlowId(reader);
    var key :- DecodeFlowKey(reader);
    var generation :- reader.GetWord(8);
    var registeredSeq :- reader.GetWord(8);
    var registeredTick :- reader.GetWord(8);
    var lastActivity :- reader.GetWord(8);
    var registeredBy :- ReadOptional(reader);
    var renewals :- reader.GetWord(8);
    if o.flowId(key) != id || generation == 0 {
      return Err(CorruptState);
    }
    r := Ok(FlowRecord(id, key, generation, registeredSeq, registeredTick, lastActivity, registeredBy, renewals));
  }

  // ---- publishers and workloads -------------------------------------------

  method EncodePublisher(w: Writer, r: PublisherRecord, ghost rest: Bytes) returns (status: Result<()>)
    requires w.Valid()
    modifies w
    ensures w.Valid() && Wrote(old(w.bytes), w.bytes, PutPublisher(r, rest), rest, w.maxBytes, status)
  {
    hide PutText, PutU64, PutU8;
    ghost var s8 := PutText(r.description, rest);
    ghost var s7 := PutU64(r.totalEvidenceAccepted, s8);
    ghost var s6 := PutU64(r.lastSeenWallMillis, s7);
    ghost var s5 := PutU64(r.firstSeenTick, s6);
    ghost var s4 := PutU8(SourceCode(r.maxSource), s5);
    ghost var s3 := PutU64(r.highestGeneration, s4);
    ghost var s2 := PutU64(r.highestBoot, s3);
    ghost var s1 := PutText(r.id, s2);
    var _ :- w.PutU8(1, s1);
    var _ :- w.PutText(r.id, s2);
    var _ :- w.PutU64(r.highestBoot, s3);
    var _ :- w.PutU64(r.highestGeneration, s4);
    var _ :- w.PutU8(SourceCode(r.maxSource), s5);
    var _ :- w.PutU64(r.firstSeenTick, s6);
    var _ :- w.PutU64(r.lastSeenWallMillis, s7);
    var _ :- w.PutU64(r.totalEvidenceAccepted, s8);
    status := w.PutText(r.description, rest);
  }

  method DecodePublisher(reader: Reader, l: CodecLimits) returns (r: Result<PublisherRecord>)
    requires reader.maxString == l.maxString
    modifies reader
    ensures Reads(GetPublisher(l, old(reader.left)), r, reader.left)
  {
    hide GetIdentity, GetSource, GetText, GetVersion, GetWord;
    var _ :- ReadVersion(reader, 1);
    var id :- ReadIdentity(reader);
    var highestBoot :- reader.GetWord(8);
    var highestGeneration :- reader.GetWord(8);
    var maxSource :- ReadSource(reader);
    var firstSeen :- reader.GetWord(8);
    var lastSeen :- reader.GetWord(8);
    var accepted :- reader.GetWord(8);
    var description :- reader.GetText();
    r := Ok(PublisherRecord(id, highestBoot, highestGeneration, maxSource, firstSeen, lastSeen, accepted, description));
  }

  method EncodeWorkload(w: Writer, r: WorkloadRecord, ghost rest: Bytes) returns (status: Result<()>)
    requires w.Valid()
    modifies w
    ensures w.Valid() && Wrote(old(w.bytes), w.bytes, PutWorkload(r, rest), rest, w.maxBytes, status)
  {
    hide PutText, PutU64, PutU8;
    ghost var s9 := PutText(r.description, rest);
    ghost var s8 := PutU64(r.retiredTick, s9);
    ghost var s7 := PutU64(r.activatedTick, s8);
    ghost var s6 := PutU64(r.declaredTick, s7);
    ghost var s5 := PutText(r.activeContract, s6);
    ghost var s4 := PutU8(WorkloadStateCode(r.state), s5);
    ghost var s3 := PutU64(r.generation, s4);
    ghost var s2 := PutText(r.owner, s3);
    ghost var s1 := PutText(r.id, s2);
    var _ :- w.PutU8(1, s1);
    var _ :- w.PutText(r.id, s2);
    var _ :- w.PutText(r.owner, s3);
    var _ :- w.PutU64(r.generation, s4);
    var _ :- w.PutU8(WorkloadStateCode(r.state), s5);
    var _ :- w.PutText(r.activeContract, s6);
    var _ :- w.PutU64(r.declaredTick, s7);
    var _ :- w.PutU64(r.activatedTick, s8);
    var _ :- w.PutU64(r.retiredTick, s9);
    status := w.PutText(r.description, rest);
  }

  method DecodeWorkload(reader: Reader, l: CodecLimits) returns (r: Result<WorkloadRecord>)
    requires reader.maxString == l.maxString
    modifies reader
    ensures Reads(GetWorkload(l, old(reader.left)), r, reader.left)
  {
    hide GetGeneration, GetIdentity, GetOptional, GetText, GetVersion, GetWord, GetWorkloadState;
    var _ :- ReadVersion(reader, 1);
    var id :- ReadOptional(reader);
    var owner :- ReadIdentity(reader);
    var generation :- ReadGeneration(reader);
    var state :- ReadWorkloadState(reader);
    var activeContract :- ReadOptional(reader);
    var declared :- reader.GetWord(8);
    var activated :- reader.GetWord(8);
    var retired :- reader.GetWord(8);
    var description :- reader.GetText();
    r := Ok(WorkloadRecord(id, owner, generation, state, activeContract, declared, activated, retired, description));
  }

  // ---- contracts ----------------------------------------------------------

  method EncodeAddresses(w: Writer, xs: seq<IpAddress>, ghost rest: Bytes) returns (status: Result<()>)
    requires w.Valid()
    modifies w
    ensures w.Valid() && Wrote(old(w.bytes), w.bytes, PutCollection(PutAddressItem(), xs, rest), rest, w.maxBytes, status)
  {
    hide PutU32, PutBlob, PutEach, Grows;
    AddressesGrow(xs);
    EachGrows(PutAddressItem(), xs, rest);
    var _ :- w.PutU32(|xs|, PutEach(PutAddressItem(), xs, rest));
    assert xs[0..] == xs;
    for i := 0 to |xs|
      invariant w.Valid() && w.bytes + PutEach(PutAddressItem(), xs[i..],
                                               rest) == old(w.bytes) + PutCollection(PutAddressItem(), xs, rest)
    {
      EachStep(PutAddressItem(), xs, i, rest);
      EachGrows(PutAddressItem(), xs[i + 1..], rest);
      var _ :- w.PutBlob(xs[i], PutEach(PutAddressItem(), xs[i + 1..], rest));
    }
    EachStops(PutAddressItem(), xs, rest);
    status := Ok(());
  }

  method DecodeAddresses(reader: Reader, l: CodecLimits) returns (r: Result<seq<IpAddress>>)
    requires reader.maxString == l.maxString
    modifies reader
    ensures Reads(GetCollection(GetAddressItem(), l.maxCollection, old(reader.left)), r, reader.left)
  {
    hide GetU32, GetAddress, GetEach;
    var count :- reader.GetCount(l.maxCollection);
    ghost var start := reader.left;
    var xs: seq<IpAddress> := [];
    FollowsNothing(GetEach(GetAddressItem(), count, start));
    for i := 0 to count
      invariant Follows(GetEach(GetAddressItem(), count, start), xs, GetEach(GetAddressItem(), count - i, reader.left))
    {
      FollowsStep(GetEach(GetAddressItem(), count, start), xs, GetAddressItem(), count - i, reader.left);
      var x :- ReadAddress(reader);
      xs := xs + [x];
    }
    FollowsAll(GetEach(GetAddressItem(), count, start), xs, GetAddressItem(), reader.left);
    r := Ok(xs);
  }

  method EncodePorts(w: Writer, xs: seq<nat>, ghost rest: Bytes) returns (status: Result<()>)
    requires w.Valid()
    modifies w
    ensures w.Valid() && Wrote(old(w.bytes), w.bytes, PutCollection(PutPortItem(), xs, rest), rest, w.maxBytes, status)
  {
    hide PutU32, PutU16, PutEach, Grows;
    PortsGrow(xs);
    EachGrows(PutPortItem(), xs, rest);
    var _ :- w.PutU32(|xs|, PutEach(PutPortItem(), xs, rest));
    assert xs[0..] == xs;
    for i := 0 to |xs|
      invariant w.Valid() && w.bytes + PutEach(PutPortItem(), xs[i..], rest) == old(w.bytes) + PutCollection(PutPortItem(),
              xs, rest)
    {
      EachStep(PutPortItem(), xs, i, rest);
      EachGrows(PutPortItem(), xs[i + 1..], rest);
      var _ :- w.PutU16(xs[i], PutEach(PutPortItem(), xs[i + 1..], rest));
    }
    EachStops(PutPortItem(), xs, rest);
    status := Ok(());
  }

  method DecodePorts(reader: Reader, l: CodecLimits) returns (r: Result<seq<nat>>)
    requires reader.maxString == l.maxString
    modifies reader
    ensures Reads(GetCollection(GetPortItem(), l.maxCollection, old(reader.left)), r, reader.left)
  {
    hide GetU32, GetWord, GetEach;
    var count :- reader.GetCount(l.maxCollection);
    ghost var start := reader.left;
    var xs: seq<nat> := [];
    FollowsNothing(GetEach(GetPortItem(), count, start));
    for i := 0 to count
      invariant Follows(GetEach(GetPortItem(), count, start), xs, GetEach(GetPortItem(), count - i, reader.left))
    {
      FollowsStep(GetEach(GetPortItem(), count, start), xs, GetPortItem(), count - i, reader.left);
      var x :- reader.GetWord(2);
      xs := xs + [x];
    }
    FollowsAll(GetEach(GetPortItem(), count, start), xs, GetPortItem(), reader.left);
    r := Ok(xs);
  }

  method EncodeContract(w: Writer, c: WorkloadContract, ghost rest: Bytes) returns (status: Result<()>)
    requires w.Valid()
    modifies w
    ensures w.Valid() && Wrote(old(w.bytes), w.bytes, PutContract(c, rest), rest, w.maxBytes, status)
  {
    hide Grows, PutAddressItem, PutBlob, PutCollection, PutFlag, PutPortItem, PutText, PutU16, PutU64, PutU8;
    ghost var s17 := PutText(c.description, rest);
    ghost var s16 := PutU64(c.retiredTick, s17);
    ghost var s15 := PutU64(c.activatedTick, s16);
    ghost var s14 := PutU64(c.createdTick, s15);
    ghost var s13 := PutBlob(c.definitionDigest, s14);
    ghost var s12 := PutU8(SourceCode(c.derivedSource), s13);
    ghost var s11 := PutU8(TransportCode(c.transport), s12);
    ghost var s10 := PutU16(c.remotePort, s11);
    PortsGrow(c.localPortScope);
    CollectionGrows(PutPortItem(), c.localPortScope, s10);
    ghost var s9 := PutCollection(PutPortItem(), c.localPortScope, s10);
    AddressesGrow(c.remoteScope);
    CollectionGrows(PutAddressItem(), c.remoteScope, s9);
    ghost var s8 := PutCollection(PutAddressItem(), c.remoteScope, s9);
    ghost var s7 := PutFlag(c.matchAnyRemoteAddress, s8);
    ghost var s6 := PutU16(SemanticCode(c.declaredClass), s7);
    ghost var s5 := PutU8(ContractStateCode(c.state), s6);
    ghost var s4 := PutText(c.owner, s5);
    ghost var s3 := PutU64(c.workloadGeneration, s4);
    ghost var s2 := PutText(c.workload, s3);
    ghost var s1 := PutText(c.id, s2);
    var _ :- w.PutU8(1, s1);
    var _ :- w.PutText(c.id, s2);
    var _ :- w.PutText(c.workload, s3);
    var _ :- w.PutU64(c.workloadGeneration, s4);
    var _ :- w.PutText(c.owner, s5);
    var _ :- w.PutU8(ContractStateCode(c.state), s6);
    var _ :- w.PutU16(SemanticCode(c.declaredClass), s7);
    var _ :- w.PutFlag(c.matchAnyRemoteAddress, s8);
    var _ :- EncodeAddresses(w, c.remoteScope, s9);
    var _ :- EncodePorts(w, c.localPortScope, s10);
    var _ :- w.PutU16(c.remotePort, s11);
    var _ :- w.PutU8(TransportCode(c.transport), s12);
    var _ :- w.PutU8(SourceCode(c.derivedSource), s13);
    var _ :- w.PutBlob(c.definitionDigest, s14);
    var _ :- w.PutU64(c.createdTick, s15);
    var _ :- w.PutU64(c.activatedTick, s16);
    var _ :- w.PutU64(c.retiredTick, s17);
    status := w.PutText(c.description, rest);
  }

  method DecodeContractTerms(reader: Reader, l: CodecLimits) returns (r: Result<ContractTerms>)
    requires reader.maxString == l.maxString
    modifies reader
    ensures Reads(GetContractTerms(l, old(reader.left)), r, reader.left)
  {
    hide GetContractState, GetFlag, GetIdentity, GetOptional, GetSemantic, GetVersion, GetWord;
    var _ :- ReadVersion(reader, 1);
    var id :- ReadOptional(reader);
    var workload :- ReadOptional(reader);
    var workloadGeneration :- reader.GetWord(8);
    var owner :- ReadIdentity(reader);
    var state :- ReadContractState(reader);
    var declaredClass :- ReadSemantic(reader);
    var anyRemote :- reader.GetFlag();
    r := Ok((id, workload, workloadGeneration, owner, state, declaredClass, anyRemote));
  }

  method DecodeContractScope(reader: Reader, l: CodecLimits) returns (r: Result<ContractScope>)
    requires reader.maxString == l.maxString
    modifies reader
    ensures Reads(GetContractScope(l, old(reader.left)), r, reader.left)
  {
    hide GetAddressItem, GetCollection, GetDigest, GetPortItem, GetSource, GetText, GetTransport, GetWord;
    var remoteScope :- DecodeAddresses(reader, l);
    var portScope :- DecodePorts(reader, l);
    var remotePort :- reader.GetWord(2);
    var transport :- ReadTransport(reader);
    var derivedSource :- ReadSource(reader);
    var digest :- ReadDigest(reader);
    var created :- reader.GetWord(8);
    var activated :- reader.GetWord(8);
    var retired :- reader.GetWord(8);
    var description :- reader.GetText();
    r := Ok((remoteScope, portScope, remotePort, transport, derivedSource, digest, created, activated, retired, description));
  }

  method DecodeContract(o: Oracles, reader: Reader, l: CodecLimits) returns (r: Result<WorkloadContract>)
    requires reader.maxString == l.maxString
    modifies reader
    ensures Reads(GetContract(o, l, old(reader.left)), r, reader.left)
  {
    hide GetContractScope, GetContractTerms;
    var terms :- DecodeContractTerms(reader, l);
    var (id, workload, workloadGeneration, owner, state, declaredClass, anyRemote) := terms;
    var scope :- DecodeContractScope(reader, l);
    var (remoteScope, portScope, remotePort, transport, derivedSource, digest, created, activated, retired,
         description) := scope;
    var read := WorkloadContract(id, workload, workloadGeneration, owner, state, declaredClass, remoteScope, portScope,
                                 remotePort,
                                 transport, anyRemote, derivedSource, digest, created, activated, retired, description);
    var recomputed := ContractDigest(o, read);
    if digest != ZERO_DIGEST && recomputed != digest {
      return Err(IntegrityFailure);
    }
    r := Ok(read.(definitionDigest := recomputed));
  }

  // ---- evidence and classifications ---------------------------------------

  method EncodeEvidence(w: Writer, r: EvidenceRecord, ghost rest: Bytes) returns (status: Result<()>)
    requires w.Valid()
    modifies w
    ensures w.Valid() && Wrote(old(w.bytes), w.bytes, PutEvidence(r, rest), rest, w.maxBytes, status)
  {
    hide PutBlob, PutFlowId, PutText, PutU16, PutU32, PutU64, PutU8;
    ghost var s25 := PutText(r.stateReason, rest);
    ghost var s24 := PutBlob(r.contentDigest, s25);
    ghost var s23 := PutText(r.metadata.contract, s24);
    ghost var s22 := PutText(r.metadata.reason, s23);
    ghost var s21 := PutU64(r.metadata.binding, s22);
    ghost var s20 := PutText(r.metadata.topic, s21);
    ghost var s19 := PutU32(r.confidence, s20);
    ghost var s18 := PutU8(EvidenceStateCode(r.state), s19);
    ghost var s17 := PutU8(SourceCode(r.source), s18);
    ghost var s16 := PutU16(SemanticCode(r.semantic), s17);
    ghost var s15 := PutU64(r.freshUntil, s16);
    ghost var s14 := PutU64(r.acceptedTick, s15);
    ghost var s13 := PutU64(r.acceptedSeq, s14);
    ghost var s12 := PutU64(r.generation, s13);
    ghost var s11 := PutU64(r.flowGeneration, s12);
    ghost var s10 := PutFlowId(r.flowId, s11);
    ghost var s9 := PutText(r.contract, s10);
    ghost var s8 := PutU64(r.workloadGeneration, s9);
    ghost var s7 := PutText(r.workload, s8);
    ghost var s6 := PutU64(r.acceptedBoot, s7);
    ghost var s5 := PutU64(r.acceptedEpoch, s6);
    ghost var s4 := PutText(r.session, s5);
    ghost var s3 := PutU64(r.publisherBoot, s4);
    ghost var s2 := PutText(r.publisher, s3);
    ghost var s1 := PutText(r.id, s2);
    var _ :- w.PutU8(1, s1);
    var _ :- w.PutText(r.id, s2);
    var _ :- w.PutText(r.publisher, s3);
    var _ :- w.PutU64(r.publisherBoot, s4);
    var _ :- w.PutText(r.session, s5);
    var _ :- w.PutU64(r.acceptedEpoch, s6);
    var _ :- w.PutU64(r.acceptedBoot, s7);
    var _ :- w.PutText(r.workload, s8);
    var _ :- w.PutU64(r.workloadGeneration, s9);
    var _ :- w.PutText(r.contract, s10);
    var _ :- w.PutFlowId(r.flowId, s11);
    var _ :- w.PutU64(r.flowGeneration, s12);
    var _ :- w.PutU64(r.generation, s13);
    var _ :- w.PutU64(r.acceptedSeq, s14);
    var _ :- w.PutU64(r.acceptedTick, s15);
    var _ :- w.PutU64(r.freshUntil, s16);
    var _ :- w.PutU16(SemanticCode(r.semantic), s17);
    var _ :- w.PutU8(SourceCode(r.source), s18);
    var _ :- w.PutU8(EvidenceStateCode(r.state), s19);
    var _ :- w.PutU32(r.confidence, s20);
    var _ :- w.PutText(r.metadata.topic, s21);
    var _ :- w.PutU64(r.metadata.binding, s22);
    var _ :- w.PutText(r.metadata.reason, s23);
    var _ :- w.PutText(r.metadata.contract, s24);
    var _ :- w.PutBlob(r.contentDigest, s25);
    status := w.PutText(r.stateReason, rest);
  }

  method DecodeEvidenceOrigin(reader: Reader, l: CodecLimits) returns (r: Result<EvidenceOrigin>)
    requires reader.maxString == l.maxString
    modifies reader
    ensures Reads(GetEvidenceOrigin(l, old(reader.left)), r, reader.left)
  {
    hide GetFlowId, GetIdentity, GetOptional, GetVersion, GetWord;
    var _ :- ReadVersion(reader, 1);
    var id :- ReadIdentity(reader);
    var publisher :- ReadIdentity(reader);
    var publisherBoot :- reader.GetWord(8);
    var session :- ReadOptional(reader);
    var acceptedEpoch :- reader.GetWord(8);
    var acceptedBoot :- reader.GetWord(8);
    var workload :- ReadOptional(reader);
    var workloadGeneration :- reader.GetWord(8);
    var contract :- ReadOptional(reader);
    var flowId :- ReadFlowId(reader);
    var flowGeneration :- reader.GetWord(8);
    var generation :- reader.GetWord(8);
    r := Ok((id, publisher, publisherBoot, session, acceptedEpoch, acceptedBoot, workload, workloadGeneration, contract,
             flowId, flowGeneration, generation));
  }

  method DecodeEvidenceClaim(reader: Reader, l: CodecLimits) returns (r: Result<EvidenceClaim>)
    requires reader.maxString == l.maxString
    modifies reader
    ensures Reads(GetEvidenceClaim(l, old(reader.left)), r, reader.left)
  {
    hide GetConfidence, GetDigest, GetEvidenceState, GetOptional, GetSemantic, GetSource, GetText, GetWord;
    var acceptedSeq :- reader.GetWord(8);
    var acceptedTick :- reader.GetWord(8);
    var freshUntil :- reader.GetWord(8);
    var semantic :- ReadSemantic(reader);
    var source :- ReadSource(reader);
    var state :- ReadEvidenceState(reader);
    var confidence :- ReadConfidence(reader);
    var topic :- reader.GetText();
    var binding :- reader.GetWord(8);
    var reason :- reader.GetText();
    var metadataContract :- ReadOptional(reader);
    var digest :- ReadDigest(reader);
    var stateReason :- reader.GetText();
    r := Ok((acceptedSeq, acceptedTick, freshUntil, semantic, source, state, confidence, topic, binding, reason,
             metadataContract, digest, stateReason));
  }

  method DecodeEvidence(o: Oracles, reader: Reader, l: CodecLimits) returns (r: Result<EvidenceRecord>)
    requires reader.maxString == l.maxString
    modifies reader
    ensures Reads(GetEvidence(o, l, old(reader.left)), r, reader.left)
  {
    hide GetEvidenceClaim, GetEvidenceOrigin;
    var origin :- DecodeEvidenceOrigin(reader, l);
    var (id, publisher, publisherBoot, session, acceptedEpoch, acceptedBoot, workload, workloadGeneration, contract, flowId,
         flowGeneration, generation) := origin;
    var claim :- DecodeEvidenceClaim(reader, l);
    var (acceptedSeq, acceptedTick, freshUntil, semantic, source, state, confidence, topic, binding, reason, metadataContract,
         digest, stateReason) := claim;
    var read := EvidenceRecord(id, publisher, publisherBoot, session, acceptedEpoch, acceptedBoot, workload, workloadGeneration,
                               contract, flowId, flowGeneration, generation, acceptedSeq, acceptedTick, freshUntil, semantic,
                               source, state, confidence, EvidenceMetadata(topic, binding, reason, metadataContract), digest,
                               stateReason);
    if EvidenceDigest(o, read) != digest {
      return Err(IntegrityFailure);
    }
    r := Ok(read);
  }

  method EncodeCitation(w: Writer, c: EvidenceCitation, ghost rest: Bytes) returns (status: Result<()>)
    requires w.Valid()
    modifies w
    ensures w.Valid() && Wrote(old(w.bytes), w.bytes, PutCitation(c, rest), rest, w.maxBytes, status)
  {
    hide PutText, PutU16, PutU32, PutU64, PutU8;
    ghost var s11 := PutText(c.detail, rest);
    ghost var s10 := PutU64(c.freshUntil, s11);
    ghost var s9 := PutU64(c.acceptedTick, s10);
    ghost var s8 := PutU64(c.acceptedSeq, s9);
    ghost var s7 := PutU64(c.generation, s8);
    ghost var s6 := PutU32(c.confidence, s7);
    ghost var s5 := PutU8(DispositionCode(c.disposition), s6);
    ghost var s4 := PutU16(SemanticCode(c.semantic), s5);
    ghost var s3 := PutU8(EvidenceStateCode(c.state), s4);
    ghost var s2 := PutU8(SourceCode(c.source), s3);
    ghost var s1 := PutText(c.publisher, s2);
    var _ :- w.PutText(c.id, s1);
    var _ :- w.PutText(c.publisher, s2);
    var _ :- w.PutU8(SourceCode(c.source), s3);
    var _ :- w.PutU8(EvidenceStateCode(c.state), s4);
    var _ :- w.PutU16(SemanticCode(c.semantic), s5);
    var _ :- w.PutU8(DispositionCode(c.disposition), s6);
    var _ :- w.PutU32(c.confidence, s7);
    var _ :- w.PutU64(c.generation, s8);
    var _ :- w.PutU64(c.acceptedSeq, s9);
    var _ :- w.PutU64(c.acceptedTick, s10);
    var _ :- w.PutU64(c.freshUntil, s11);
    status := w.PutText(c.detail, rest);
  }

  method DecodeCitation(reader: Reader, l: CodecLimits) returns (r: Result<EvidenceCitation>)
    requires reader.maxString == l.maxString
    modifies reader
    ensures Reads(GetCitation(l, old(reader.left)), r, reader.left)
  {
    hide GetConfidence, GetDisposition, GetEvidenceState, GetIdentity, GetSemantic, GetSource, GetText, GetWord;
    var id :- ReadIdentity(reader);
    var publisher :- ReadIdentity(reader);
    var source :- ReadSource(reader);
    var state :- ReadEvidenceState(reader);
    var semantic :- ReadSemantic(reader);
    var disposition :- ReadDisposition(reader);
    var confidence :- ReadConfidence(reader);
    var generation :- reader.GetWord(8);
    var acceptedSeq :- reader.GetWord(8);
    var acceptedTick :- reader.GetWord(8);
    var freshUntil :- reader.GetWord(8);
    var detail :- reader.GetText();
    r := Ok(EvidenceCitation(id, publisher, source, state, semantic, disposition, confidence, generation, acceptedSeq,
                             acceptedTick,
                             freshUntil, detail));
  }

  method EncodeCitations(w: Writer, xs: seq<EvidenceCitation>, ghost rest: Bytes) returns (status: Result<()>)
    requires w.Valid()
    modifies w
    ensures w.Valid() && Wrote(old(w.bytes), w.bytes, PutCollection(PutCitationItem(), xs, rest), rest, w.maxBytes, status)
  {
    hide PutU32, PutCitation, PutEach, Grows;
    CitationsGrow(xs);
    EachGrows(PutCitationItem(), xs, rest);
    var _ :- w.PutU32(|xs|, PutEach(PutCitationItem(), xs, rest));
    assert xs[0..] == xs;
    for i := 0 to |xs|
      invariant w.Valid() && w.bytes + PutEach(PutCitationItem(), xs[i..],
                                               rest) == old(w.bytes) + PutCollection(PutCitationItem(), xs, rest)
    {
      EachStep(PutCitationItem(), xs, i, rest);
      EachGrows(PutCitationItem(), xs[i + 1..], rest);
      var _ :- EncodeCitation(w, xs[i], PutEach(PutCitationItem(), xs[i + 1..], rest));
    }
    EachStops(PutCitationItem(), xs, rest);
    status := Ok(());
  }

  method DecodeCitations(reader: Reader, l: CodecLimits) returns (r: Result<seq<EvidenceCitation>>)
    requires reader.maxString == l.maxString
    modifies reader
    ensures Reads(GetCollection(GetCitationItem(l), l.maxCollection, old(reader.left)), r, reader.left)
  {
    hide GetU32, GetCitation, GetEach;
    var count :- reader.GetCount(l.maxCollection);
    ghost var start := reader.left;
    var xs: seq<EvidenceCitation> := [];
    FollowsNothing(GetEach(GetCitationItem(l), count, start));
    for i := 0 to count
      invariant Follows(GetEach(GetCitationItem(l), count, start), xs, GetEach(GetCitationItem(l), count - i, reader.left))
    {
      FollowsStep(GetEach(GetCitationItem(l), count, start), xs, GetCitationItem(l), count - i, reader.left);
      var x :- DecodeCitation(reader, l);
      xs := xs + [x];
    }
    FollowsAll(GetEach(GetCitationItem(l), count, start), xs, GetCitationItem(l), reader.left);
    r := Ok(xs);
  }

  method EncodeContradiction(w: Writer, c: Contradiction, ghost rest: Bytes) returns (status: Result<()>)
    requires w.Valid()
    modifies w
    ensures w.Valid() && Wrote(old(w.bytes), w.bytes, PutContradiction(c, rest), rest, w.maxBytes, status)
  {
    hide PutText, PutU16, PutU8;
    ghost var s6 := PutText(c.resolvedBy, rest);
    ghost var s5 := PutU8(SourceCode(c.rightSource), s6);
    ghost var s4 := PutU16(SemanticCode(c.rightClass), s5);
    ghost var s3 := PutU8(SourceCode(c.leftSource), s4);
    ghost var s2 := PutU16(SemanticCode(c.leftClass), s3);
    ghost var s1 := PutText(c.rightId, s2);
    var _ :- w.PutText(c.leftId, s1);
    var _ :- w.PutText(c.rightId, s2);
    var _ :- w.PutU16(SemanticCode(c.leftClass), s3);
    var _ :- w.PutU8(SourceCode(c.leftSource), s4);
    var _ :- w.PutU16(SemanticCode(c.rightClass), s5);
    var _ :- w.PutU8(SourceCode(c.rightSource), s6);
    status := w.PutText(c.resolvedBy, rest);
  }

  method DecodeContradiction(reader: Reader, l: CodecLimits) returns (r: Result<Contradiction>)
    requires reader.maxString == l.maxString
    modifies reader
    ensures Reads(GetContradiction(l, old(reader.left)), r, reader.left)
  {
    hide GetSemantic, GetSource, GetText, Policy.IsCanonicalIdentity;
    var leftId :- reader.GetText();
    var rightId :- reader.GetText();
    if !Policy.IsCanonicalIdentity(leftId) || !Policy.IsCanonicalIdentity(rightId) {
      return Err(MalformedRecord);
    }
    var leftClass :- ReadSemantic(reader);
    var leftSource :- ReadSource(reader);
    var rightClass :- ReadSemantic(reader);
    var rightSource :- ReadSource(reader);
    var resolvedBy :- reader.GetText();
    r := Ok(Contradiction(leftId, rightId, leftClass, leftSource, rightClass, rightSource, resolvedBy));
  }

  method EncodeContradictions(w: Writer, xs: seq<Contradiction>, ghost rest: Bytes) returns (status: Result<()>)
    requires w.Valid()
    modifies w
    ensures w.Valid() && Wrote(old(w.bytes), w.bytes, PutCollection(PutContradictionItem(), xs, rest), rest, w.maxBytes, status)
  {
    hide PutU32, PutContradiction, PutEach, Grows;
    ContradictionsGrow(xs);
    EachGrows(PutContradictionItem(), xs, rest);
    var _ :- w.PutU32(|xs|, PutEach(PutContradictionItem(), xs, rest));
    assert xs[0..] == xs;
    for i := 0 to |xs|
      invariant w.Valid() && w.bytes + PutEach(PutContradictionItem(), xs[i..],
                                               rest) == old(w.bytes) + PutCollection(PutContradictionItem(), xs, rest)
    {
      EachStep(PutContradictionItem(), xs, i, rest);
      EachGrows(PutContradictionItem(), xs[i + 1..], rest);
      var _ :- EncodeContradiction(w, xs[i], PutEach(PutContradictionItem(), xs[i + 1..], rest));
    }
    EachStops(PutContradictionItem(), xs, rest);
    status := Ok(());
  }

  method DecodeContradictions(reader: Reader, l: CodecLimits) returns (r: Result<seq<Contradiction>>)
    requires reader.maxString == l.maxString
    modifies reader
    ensures Reads(GetCollection(GetContradictionItem(l), l.maxCollection, old(reader.left)), r, reader.left)
  {
    hide GetU32, GetContradiction, GetEach;
    var count :- reader.GetCount(l.maxCollection);
    ghost var start := reader.left;
    var xs: seq<Contradiction> := [];
    FollowsNothing(GetEach(GetContradictionItem(l), count, start));
    for i := 0 to count
      invariant Follows(GetEach(GetContradictionItem(l), count, start), xs, GetEach(GetContradictionItem(l), count - i,
              reader.left))
    {
      FollowsStep(GetEach(GetContradictionItem(l), count, start), xs, GetContradictionItem(l), count - i, reader.left);
      var x :- DecodeContradiction(reader, l);
      xs := xs + [x];
    }
    FollowsAll(GetEach(GetContradictionItem(l), count, start), xs, GetContradictionItem(l), reader.left);
    r := Ok(xs);
  }

  method EncodeClassification(w: Writer, c: Classification, ghost rest: Bytes) returns (status: Result<()>)
    requires w.Valid()
    modifies w
    ensures w.Valid() && Wrote(old(w.bytes), w.bytes, PutClassification(c, rest), rest, w.maxBytes, status)
  {
    hide Grows, PutBlob, PutCitationItem, PutCollection, PutContradictionItem, PutFlowId, PutText, PutU16, PutU32,
         PutU64, PutU8;
    ContradictionsGrow(c.contradictions);
    CollectionGrows(PutContradictionItem(), c.contradictions, rest);
    ghost var s17 := PutCollection(PutContradictionItem(), c.contradictions, rest);
    CitationsGrow(c.citations);
    CollectionGrows(PutCitationItem(), c.citations, s17);
    ghost var s16 := PutCollection(PutCitationItem(), c.citations, s17);
    ghost var s15 := PutBlob(c.digest, s16);
    ghost var s14 := PutU64(c.decidedTick, s15);
    ghost var s13 := PutU64(c.coordinatorBoot, s14);
    ghost var s12 := PutU64(c.coordinatorEpoch, s13);
    ghost var s11 := PutBlob(c.policyDigest, s12);
    ghost var s10 := PutU64(c.policyGeneration, s11);
    ghost var s9 := PutU32(c.appliedPenalty, s10);
    ghost var s8 := PutU32(c.corroborationCount, s9);
    ghost var s7 := PutU8(SourceCode(c.selectedSource), s8);
    ghost var s6 := PutText(c.selectedEvidence, s7);
    ghost var s5 := PutU32(c.confidence, s6);
    ghost var s4 := PutU8(ClassificationStateCode(c.state), s5);
    ghost var s3 := PutU16(SemanticCode(c.semantic), s4);
    ghost var s2 := PutU64(c.flowGeneration, s3);
    ghost var s1 := PutFlowId(c.flowId, s2);
    var _ :- w.PutU8(1, s1);
    var _ :- w.PutFlowId(c.flowId, s2);
    var _ :- w.PutU64(c.flowGeneration, s3);
    var _ :- w.PutU16(SemanticCode(c.semantic), s4);
    var _ :- w.PutU8(ClassificationStateCode(c.state), s5);
    var _ :- w.PutU32(c.confidence, s6);
    var _ :- w.PutText(c.selectedEvidence, s7);
    var _ :- w.PutU8(SourceCode(c.selectedSource), s8);
    var _ :- w.PutU32(c.corroborationCount, s9);
    var _ :- w.PutU32(c.appliedPenalty, s10);
    var _ :- w.PutU64(c.policyGeneration, s11);
    var _ :- w.PutBlob(c.policyDigest, s12);
    var _ :- w.PutU64(c.coordinatorEpoch, s13);
    var _ :- w.PutU64(c.coordinatorBoot, s14);
    var _ :- w.PutU64(c.decidedTick, s15);
    var _ :- w.PutBlob(c.digest, s16);
    var _ :- EncodeCitations(w, c.citations, s17);
    status := EncodeContradictions(w, c.contradictions, rest);
  }

  method DecodeClassificationVerdict(reader: Reader, l: CodecLimits) returns (r: Result<ClassificationVerdict>)
    requires reader.maxString == l.maxString
    modifies reader
    ensures Reads(GetClassificationVerdict(l, old(reader.left)), r, reader.left)
  {
    hide GetClassificationState, GetConfidence, GetFlowId, GetOptional, GetSemantic, GetSource, GetVersion, GetWord;
    var _ :- ReadVersion(reader, 1);
    var flowId :- ReadFlowId(reader);
    var flowGeneration :- reader.GetWord(8);
    var semantic :- ReadSemantic(reader);
    var state :- ReadClassificationState(reader);
    var confidence :- ReadConfidence(reader);
    var selectedEvidence :- ReadOptional(reader);
    var selectedSource :- ReadSource(reader);
    r := Ok((flowId, flowGeneration, semantic, state, confidence, selectedEvidence, selectedSource));
  }

  method DecodeClassificationAccount(reader: Reader, l: CodecLimits) returns (r: Result<ClassificationAccount>)
    requires reader.maxString == l.maxString
    modifies reader
    ensures Reads(GetClassificationAccount(l, old(reader.left)), r, reader.left)
  {
    hide GetCitationItem, GetCollection, GetContradictionItem, GetDigest, GetWord;
    var corroboration :- reader.GetWord(4);
    var penalty :- reader.GetWord(4);
    var policyGeneration :- reader.GetWord(8);
    var policyDigest :- ReadDigest(reader);
    var epoch :- reader.GetWord(8);
    var boot :- reader.GetWord(8);
    var decidedTick :- reader.GetWord(8);
    var digest :- ReadDigest(reader);
    var citations :- DecodeCitations(reader, l);
    var contradictions :- DecodeContradictions(reader, l);
    r := Ok((corroboration, penalty, policyGeneration, policyDigest, epoch, boot, decidedTick, digest, citations,
             contradictions));
  }

  method DecodeClassification(reader: Reader, l: CodecLimits) returns (r: Result<Classification>)
    requires reader.maxString == l.maxString
    modifies reader
    ensures Reads(GetClassification(l, old(reader.left)), r, reader.left)
  {
    hide GetClassificationAccount, GetClassificationVerdict;
    var verdict :- DecodeClassificationVerdict(reader, l);
    var (flowId, flowGeneration, semantic, state, confidence, selectedEvidence, selectedSource) := verdict;
    var account :- DecodeClassificationAccount(reader, l);
    var (corroboration, penalty, policyGeneration, policyDigest, epoch, boot, decidedTick, digest, citations,
         contradictions) := account;
    r := Ok(Classification(flowId, flowGeneration, semantic, state, confidence, selectedEvidence, selectedSource, citations,
                         contradictions, corroboration, penalty, policyGeneration, policyDigest, epoch, boot, decidedTick,
                             digest));
  }

  // ---- revocations and supersessions --------------------------------------

  method EncodeRevocation(w: Writer, r: RevocationRecord, ghost rest: Bytes) returns (status: Result<()>)
    requires w.Valid()
    modifies w
    ensures w.Valid() && Wrote(old(w.bytes), w.bytes, PutRevocation(r, rest), rest, w.maxBytes, status)
  {
    hide PutFlowId, PutText, PutU64, PutU8;
    ghost var s9 := PutText(r.reason, rest);
    ghost var s8 := PutU64(r.revokedTick, s9);
    ghost var s7 := PutU64(r.seqno, s8);
    ghost var s6 := PutU64(r.epoch, s7);
    ghost var s5 := PutText(r.revokedByPublisher, s6);
    ghost var s4 := PutText(r.revokedBySession, s5);
    ghost var s3 := PutText(r.evidenceId, s4);
    ghost var s2 := PutU64(r.flowGeneration, s3);
    ghost var s1 := PutFlowId(r.flowId, s2);
    var _ :- w.PutU8(1, s1);
    var _ :- w.PutFlowId(r.flowId, s2);
    var _ :- w.PutU64(r.flowGeneration, s3);
    var _ :- w.PutText(r.evidenceId, s4);
    var _ :- w.PutText(r.revokedBySession, s5);
    var _ :- w.PutText(r.revokedByPublisher, s6);
    var _ :- w.PutU64(r.epoch, s7);
    var _ :- w.PutU64(r.seqno, s8);
    var _ :- w.PutU64(r.revokedTick, s9);
    status := w.PutText(r.reason, rest);
  }

  method DecodeRevocation(reader: Reader, l: CodecLimits) returns (r: Result<RevocationRecord>)
    requires reader.maxString == l.maxString
    modifies reader
    ensures Reads(GetRevocation(l, old(reader.left)), r, reader.left)
  {
    hide GetFlowId, GetIdentity, GetOptional, GetText, GetVersion, GetWord;
    var _ :- ReadVersion(reader, 1);
    var flowId :- ReadFlowId(reader);
    var flowGeneration :- reader.GetWord(8);
    var evidenceId :- ReadOptional(reader);
    var session :- ReadOptional(reader);
    var publisher :- ReadIdentity(reader);
    var epoch :- reader.GetWord(8);
    var seqno :- reader.GetWord(8);
    var tick :- reader.GetWord(8);
    var reason :- reader.GetText();
    r := Ok(RevocationRecord(flowId, flowGeneration, evidenceId, session, publisher, epoch, seqno, tick, reason));
  }

  method EncodeSupersession(w: Writer, r: SupersessionRecord, ghost rest: Bytes) returns (status: Result<()>)
    requires w.Valid()
    modifies w
    ensures w.Valid() && Wrote(old(w.bytes), w.bytes, PutSupersession(r, rest), rest, w.maxBytes, status)
  {
    hide PutText, PutU64, PutU8;
    ghost var s7 := PutU64(r.recordedTick, rest);
    ghost var s6 := PutU64(r.seqno, s7);
    ghost var s5 := PutText(r.publisher, s6);
    ghost var s4 := PutU64(r.replacementGeneration, s5);
    ghost var s3 := PutU64(r.previousGeneration, s4);
    ghost var s2 := PutText(r.replacementId, s3);
    ghost var s1 := PutText(r.previousId, s2);
    var _ :- w.PutU8(1, s1);
    var _ :- w.PutText(r.previousId, s2);
    var _ :- w.PutText(r.replacementId, s3);
    var _ :- w.PutU64(r.previousGeneration, s4);
    var _ :- w.PutU64(r.replacementGeneration, s5);
    var _ :- w.PutText(r.publisher, s6);
    var _ :- w.PutU64(r.seqno, s7);
    status := w.PutU64(r.recordedTick, rest);
  }

  method DecodeSupersession(reader: Reader, l: CodecLimits) returns (r: Result<SupersessionRecord>)
    requires reader.maxString == l.maxString
    modifies reader
    ensures Reads(GetSupersession(l, old(reader.left)), r, reader.left)
  {
    hide GetIdentity, GetText, GetVersion, GetWord, Policy.IsCanonicalIdentity;
    var _ :- ReadVersion(reader, 1);
    var previous :- reader.GetText();
    var replacement :- reader.GetText();
    if !Policy.IsCanonicalIdentity(previous) || !Policy.IsCanonicalIdentity(replacement) {
      return Err(MalformedRecord);
    }
    var previousGeneration :- reader.GetWord(8);
    var replacementGeneration :- reader.GetWord(8);
    var publisher :- ReadIdentity(reader);
    var seqno :- reader.GetWord(8);
    var tick :- reader.GetWord(8);
    r := Ok(SupersessionRecord(previous, replacement, previousGeneration, replacementGeneration, publisher, seqno, tick));
  }

  // ---- the policy ---------------------------------------------------------

  method EncodeAdapter(w: Writer, a: HeuristicAdapter, ghost rest: Bytes) returns (status: Result<()>)
    requires w.Valid()
    modifies w
    ensures w.Valid() && Wrote(old(w.bytes), w.bytes, PutAdapter(a, rest), rest, w.maxBytes, status)
  {
    hide PutFlag, PutText, PutU32;
    ghost var s3 := PutU32(a.priority, rest);
    ghost var s2 := PutU32(a.maxBasisPoints, s3);
    ghost var s1 := PutFlag(a.enabled, s2);
    var _ :- w.PutText(a.name, s1);
    var _ :- w.PutFlag(a.enabled, s2);
    var _ :- w.PutU32(a.maxBasisPoints, s3);
    status := w.PutU32(a.priority, rest);
  }

  method DecodeAdapter(reader: Reader, l: CodecLimits) returns (r: Result<HeuristicAdapter>)
    requires reader.maxString == l.maxString
    modifies reader
    ensures Reads(GetAdapter(l, old(reader.left)), r, reader.left)
  {
    hide GetFlag, GetText, GetWord;
    var name :- reader.GetText();
    var enabled :- reader.GetFlag();
    var maxBasisPoints :- reader.GetWord(4);
    var priority :- reader.GetWord(4);
    r := Ok(HeuristicAdapter(name, enabled, maxBasisPoints, priority));
  }

  method EncodeAdapters(w: Writer, xs: seq<HeuristicAdapter>, ghost rest: Bytes) returns (status: Result<()>)
    requires w.Valid()
    modifies w
    ensures w.Valid() && Wrote(old(w.bytes), w.bytes, PutCollection(PutAdapterItem(), xs, rest), rest, w.maxBytes, status)
  {
    hide PutU32, PutAdapter, PutEach, Grows;
    AdaptersGrow(xs);
    EachGrows(PutAdapterItem(), xs, rest);
    var _ :- w.PutU32(|xs|, PutEach(PutAdapterItem(), xs, rest));
    assert xs[0..] == xs;
    for i := 0 to |xs|
      invariant w.Valid() && w.bytes + PutEach(PutAdapterItem(), xs[i..],
                                               rest) == old(w.bytes) + PutCollection(PutAdapterItem(), xs, rest)
    {
      EachStep(PutAdapterItem(), xs, i, rest);
      EachGrows(PutAdapterItem(), xs[i + 1..], rest);
      var _ :- EncodeAdapter(w, xs[i], PutEach(PutAdapterItem(), xs[i + 1..], rest));
    }
    EachStops(PutAdapterItem(), xs, rest);
    status := Ok(());
  }

  method DecodeAdapters(reader: Reader, l: CodecLimits) returns (r: Result<seq<HeuristicAdapter>>)
    requires reader.maxString == l.maxString
    modifies reader
    ensures Reads(GetCollection(GetAdapterItem(l), l.maxCollection, old(reader.left)), r, reader.left)
  {
    hide GetU32, GetAdapter, GetEach;
    var count :- reader.GetCount(l.maxCollection);
    ghost var start := reader.left;
    var xs: seq<HeuristicAdapter> := [];
    FollowsNothing(GetEach(GetAdapterItem(l), count, start));
    for i := 0 to count
      invariant Follows(GetEach(GetAdapterItem(l), count, start), xs, GetEach(GetAdapterItem(l), count - i, reader.left))
    {
      FollowsStep(GetEach(GetAdapterItem(l), count, start), xs, GetAdapterItem(l), count - i, reader.left);
      var x :- DecodeAdapter(reader, l);
      xs := xs + [x];
    }
    FollowsAll(GetEach(GetAdapterItem(l), count, start), xs, GetAdapterItem(l), reader.left);
    r := Ok(xs);
  }

  method EncodeHint(w: Writer, h: PortHint, ghost rest: Bytes) returns (status: Result<()>)
    requires w.Valid()
    modifies w
    ensures w.Valid() && Wrote(old(w.bytes), w.bytes, PutHint(h, rest), rest, w.maxBytes, status)
  {
    hide PutText, PutU16, PutU32, PutU8;
    ghost var s4 := PutText(h.adapter, rest);
    ghost var s3 := PutU32(h.basisPoints, s4);
    ghost var s2 := PutU16(SemanticCode(h.semantic), s3);
    ghost var s1 := PutU16(h.port, s2);
    var _ :- w.PutU8(TransportCode(h.transport), s1);
    var _ :- w.PutU16(h.port, s2);
    var _ :- w.PutU16(SemanticCode(h.semantic), s3);
    var _ :- w.PutU32(h.basisPoints, s4);
    status := w.PutText(h.adapter, rest);
  }

  method DecodeHint(reader: Reader, l: CodecLimits) returns (r: Result<PortHint>)
    requires reader.maxString == l.maxString
    modifies reader
    ensures Reads(GetHint(l, old(reader.left)), r, reader.left)
  {
    hide GetSemantic, GetText, GetTransport, GetWord;
    var transport :- ReadTransport(reader);
    var port :- reader.GetWord(2);
    var semantic :- ReadSemantic(reader);
    var basisPoints :- reader.GetWord(4);
    var adapter :- reader.GetText();
    r := Ok(PortHint(transport, port, semantic, basisPoints, adapter));
  }

  method EncodeHints(w: Writer, xs: seq<PortHint>, ghost rest: Bytes) returns (status: Result<()>)
    requires w.Valid()
    modifies w
    ensures w.Valid() && Wrote(old(w.bytes), w.bytes, PutCollection(PutHintItem(), xs, rest), rest, w.maxBytes, status)
  {
    hide PutU32, PutHint, PutEach, Grows;
    HintsGrow(xs);
    EachGrows(PutHintItem(), xs, rest);
    var _ :- w.PutU32(|xs|, PutEach(PutHintItem(), xs, rest));
    assert xs[0..] == xs;
    for i := 0 to |xs|
      invariant w.Valid() && w.bytes + PutEach(PutHintItem(), xs[i..], rest) == old(w.bytes) + PutCollection(PutHintItem(),
              xs, rest)
    {
      EachStep(PutHintItem(), xs, i, rest);
      EachGrows(PutHintItem(), xs[i + 1..], rest);
      var _ :- EncodeHint(w, xs[i], PutEach(PutHintItem(), xs[i + 1..], rest));
    }
    EachStops(PutHintItem(), xs, rest);
    status := Ok(());
  }

  method DecodeHints(reader: Reader, l: CodecLimits) returns (r: Result<seq<PortHint>>)
    requires reader.maxString == l.maxString
    modifies reader
    ensures Reads(GetCollection(GetHintItem(l), l.maxCollection, old(reader.left)), r, reader.left)
  {
    hide GetU32, GetHint, GetEach;
    var count :- reader.GetCount(l.maxCollection);
    ghost var start := reader.left;
    var xs: seq<PortHint> := [];
    FollowsNothing(GetEach(GetHintItem(l), count, start));
    for i := 0 to count
      invariant Follows(GetEach(GetHintItem(l), count, start), xs, GetEach(GetHintItem(l), count - i, reader.left))
    {
      FollowsStep(GetEach(GetHintItem(l), count, start), xs, GetHintItem(l), count - i, reader.left);
      var x :- DecodeHint(reader, l);
      xs := xs + [x];
    }
    FollowsAll(GetEach(GetHintItem(l), count, start), xs, GetHintItem(l), reader.left);
    r := Ok(xs);
  }

  lemma WordsGrow(xs: seq<nat>, rest: Bytes)
    ensures |PutEach(PutLimit(), xs, rest)| >= |rest|
  {
    forall x | x in xs
      ensures Grows(PutLimit(), x)
    {
    }
    EachGrows(PutLimit(), xs, rest);
  }

  lemma LimitsGrow(x: ResourceLimits, rest: Bytes)
    ensures |PutLimits(x, rest)| >= |rest|
  {
    WordsGrow(LimitWords(x), rest);
  }

  method EncodeLimits(w: Writer, x: ResourceLimits, ghost rest: Bytes) returns (status: Result<()>)
    requires w.Valid()
    modifies w
    ensures w.Valid() && Wrote(old(w.bytes), w.bytes, PutLimits(x, rest), rest, w.maxBytes, status)
  {
    hide PutU64, PutEach, LimitWords;
    var words := LimitWords(x);
    assert words[0..] == words;
    for i := 0 to 26
      invariant w.Valid() && w.bytes + PutEach(PutLimit(), words[i..], rest) == old(w.bytes) + PutLimits(x, rest)
    {
      EachStep(PutLimit(), words, i, rest);
      WordsGrow(words[i + 1..], rest);
      var _ :- w.PutU64(words[i], PutEach(PutLimit(), words[i + 1..], rest));
    }
    EachStops(PutLimit(), words, rest);
    status := Ok(());
  }

  /** All words are read before any is narrowed. */
  method DecodeLimits(reader: Reader) returns (r: Result<ResourceLimits>)
    modifies reader
    ensures Reads(GetLimits(old(reader.left)), r, reader.left)
  {
    hide GetWord, GetEach, LimitsOf;
    var words: seq<nat> := [];
    FollowsNothing(GetEach(GetLimit(), 26, old(reader.left)));
    for i := 0 to 26
      invariant |words| == i
      invariant Follows(GetEach(GetLimit(), 26, old(reader.left)), words, GetEach(GetLimit(), 26 - i, reader.left))
    {
      FollowsStep(GetEach(GetLimit(), 26, old(reader.left)), words, GetLimit(), 26 - i, reader.left);
      var word :- reader.GetWord(8);
      words := words + [word];
    }
    FollowsAll(GetEach(GetLimit(), 26, old(reader.left)), words, GetLimit(), reader.left);
    for i := 0 to 24
      invariant forall k | 0 <= k < i :: words[k] <= 0xFFFF_FFFF
    {
      if words[i] > 0xFFFF_FFFF {
        return Err(CorruptState);
      }
    }
    r := Ok(LimitsOf(words));
  }

  method EncodePolicy(w: Writer, p: ClassifierPolicy, ghost rest: Bytes) returns (status: Result<()>)
    requires w.Valid()
    modifies w
    ensures w.Valid() && Wrote(old(w.bytes), w.bytes, PutPolicy(p, rest), rest, w.maxBytes, status)
  {
    hide Grows, PutAdapterItem, PutCollection, PutFlag, PutHintItem, PutLimits, PutU32, PutU64, PutU8;
    HintsGrow(p.portHints);
    CollectionGrows(PutHintItem(), p.portHints, rest);
    ghost var s9 := PutCollection(PutHintItem(), p.portHints, rest);
    AdaptersGrow(p.heuristicAdapters);
    CollectionGrows(PutAdapterItem(), p.heuristicAdapters, s9);
    ghost var s8 := PutCollection(PutAdapterItem(), p.heuristicAdapters, s9);
    LimitsGrow(p.limits, s8);
    ghost var s7 := PutLimits(p.limits, s8);
    ghost var s6 := PutU32(p.maxEvidenceConsidered, s7);
    ghost var s5 := PutU32(p.minimumPublishableConfidence, s6);
    ghost var s4 := PutU32(p.contradictionPenalty, s5);
    ghost var s3 := PutU64(p.defaultFreshnessWindow, s4);
    ghost var s2 := PutFlag(p.allowHeuristicEvidence, s3);
    ghost var s1 := PutU64(p.generation, s2);
    var _ :- w.PutU8(1, s1);
    var _ :- w.PutU64(p.generation, s2);
    var _ :- w.PutFlag(p.allowHeuristicEvidence, s3);
    var _ :- w.PutU64(p.defaultFreshnessWindow, s4);
    var _ :- w.PutU32(p.contradictionPenalty, s5);
    var _ :- w.PutU32(p.minimumPublishableConfidence, s6);
    var _ :- w.PutU32(p.maxEvidenceConsidered, s7);
    var _ :- EncodeLimits(w, p.limits, s8);
    var _ :- EncodeAdapters(w, p.heuristicAdapters, s9);
    status := EncodeHints(w, p.portHints, rest);
  }

  method DecodePolicy(reader: Reader, l: CodecLimits) returns (r: Result<ClassifierPolicy>)
    requires reader.maxString == l.maxString
    modifies reader
    ensures Reads(GetPolicy(l, old(reader.left)), r, reader.left)
  {
    hide GetAdapterItem, GetCollection, GetFlag, GetHintItem, GetLimits, GetVersion, GetWord, Policy.Canonicalized;
    var _ :- ReadVersion(reader, 1);
    var generation :- reader.GetWord(8);
    var heuristics :- reader.GetFlag();
    var freshness :- reader.GetWord(8);
    var penalty :- reader.GetWord(4);
    var threshold :- reader.GetWord(4);
    var considered :- reader.GetWord(4);
    var limits :- DecodeLimits(reader);
    var adapters :- DecodeAdapters(reader, l);
    var hints :- DecodeHints(reader, l);
    var canonical := Policy.Canonicalize(ClassifierPolicy(generation, limits, heuristics, freshness, penalty, threshold,
                                                          considered,
                                                          adapters, hints));
    if canonical.Err? {
      return Err(CorruptState);
    }
    r := canonical;
  }
}
