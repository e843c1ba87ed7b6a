/**
 * The encoders behind the digests of contracts and records: what they write determines the
 * content, and they are exhausted exactly when it is wider than their bound.
 */
module DigestEncoders {
  import opened Domain
  import opened Wire
  import opened Records
  import opened BufferIo
  import opened RecordIo
  import opened SnapshotBody

  // ---- definitions --------------------------------------------------------

  function PutDefinition(c: WorkloadContract, rest: Bytes): Bytes {
    var s := PutText(c.description, rest);
    var s := PutU8(SourceCode(c.derivedSource), s);
    var s := PutU8(TransportCode(c.transport), s);
    var s := PutU16(c.remotePort, s);
    var s := PutCollection(PutPortItem(), c.localPortScope, s);
    var s := PutCollection(PutAddressItem(), c.remoteScope, s);
    var s := PutFlag(c.matchAnyRemoteAddress, s);
    var s := PutU16(SemanticCode(c.declaredClass), s);
    var s := PutText(c.owner, s);
    var s := PutU64(c.workloadGeneration, s);
    var s := PutText(c.workload, s);
    var s := PutText(c.id, s);
    PutU8(1, s)
  }

  function GetDefinition(l: CodecLimits, s: Bytes): Parsed<WorkloadContract> {
    var (_, s) :- GetVersion(1, s);
    var (id, s) :- GetText(l.maxString, s);
    var (workload, s) :- GetText(l.maxString, s);
    var (workloadGeneration, s) :- GetU64(s);
    var (owner, s) :- GetText(l.maxString, s);
    var (declaredClass, s) :- GetSemantic(s);
    var (anyRemote, s) :- GetFlag(s);
    var (remoteScope, s) :- GetCollection(GetAddressItem(), l.maxCollection, s);
    var (portScope, s) :- GetCollection(GetPortItem(), l.maxCollection, s);
    var (remotePort, s) :- GetU16(s);
    var (transport, s) :- GetTransport(s);
    var (derivedSource, s) :- GetSource(s);
    var (description, s) :- GetText(l.maxString, s);
    Ok((WorkloadContract(id, workload, workloadGeneration, owner, ContractPending, declaredClass, remoteScope, portScope,
                         remotePort,
                         transport, anyRemote, derivedSource, [], 0, 0, 0, description), s))
  }

  /** A content whose fields fit their widths. */
  ghost predicate DefinitionInRange(l: CodecLimits, c: WorkloadContract) {
    && IsText(l.maxString, c.id)
    && IsText(l.maxString, c.workload)
    && IsU64(c.workloadGeneration)
    && IsText(l.maxString, c.owner)
    && (|c.remoteScope| <= l.maxCollection && IsU32(|c.remoteScope|))
    && (|c.localPortScope| <= l.maxCollection && IsU32(|c.localPortScope|) && forall x | x in c.localPortScope :: IsU16(x))
    && IsU16(c.remotePort)
    && IsText(l.maxString, c.description)
    && ContractContent(c) == c
  }

  lemma DefinitionRoundTrip(l: CodecLimits, c: WorkloadContract, rest: Bytes)
    requires DefinitionInRange(l, c)
    ensures GetDefinition(l, PutDefinition(c, rest)) == Ok((c, rest))
  {
    hide GetAddressItem, GetCollection, GetFlag, GetPortItem, GetSemantic, GetSource, GetText, GetTransport, GetU16,
         GetU64, GetVersion, Inverse, IsByteText, IsU16, IsU32, IsU64, PutAddressItem, PutCollection, PutFlag,
         PutPortItem, PutText, PutU16, PutU64, PutU8;
    TextRoundTrip(l.maxString, c.description, rest);
    var s12 := PutText(c.description, rest);
    SourceRoundTrip(c.derivedSource, s12);
    var s11 := PutU8(SourceCode(c.derivedSource), s12);
    TransportRoundTrip(c.transport, s11);
    var s10 := PutU8(TransportCode(c.transport), s11);
    U16RoundTrip(c.remotePort, s10);
    var s9 := PutU16(c.remotePort, s10);
    PortsInvert(c.localPortScope);
    CollectionRoundTrip(PutPortItem(), GetPortItem(), l.maxCollection, c.localPortScope, s9);
    var s8 := PutCollection(PutPortItem(), c.localPortScope, s9);
    AddressesInvert(c.remoteScope);
    CollectionRoundTrip(PutAddressItem(), GetAddressItem(), l.maxCollection, c.remoteScope, s8);
    var s7 := PutCollection(PutAddressItem(), c.remoteScope, s8);
    FlagRoundTrip(c.matchAnyRemoteAddress, s7);
    var s6 := PutFlag(c.matchAnyRemoteAddress, s7);
    SemanticRoundTrip(c.declaredClass, s6);
    var s5 := PutU16(SemanticCode(c.declaredClass), s6);
    TextRoundTrip(l.maxString, c.owner, s5);
    var s4 := PutText(c.owner, s5);
    U64RoundTrip(c.workloadGeneration, s4);
    var s3 := PutU64(c.workloadGeneration, s4);
    TextRoundTrip(l.maxString, c.workload, s3);
    var s2 := PutText(c.workload, s3);
    TextRoundTrip(l.maxString, c.id, s2);
    var s1 := PutText(c.id, s2);
    VersionRoundTrip(1, s1);
  }

  method EncodeDefinition(w: Writer, c: WorkloadContract, ghost rest: Bytes) returns (status: Result<()>)
    requires w.Valid()
    modifies w
    ensures w.Valid() && Wrote(old(w.bytes), w.bytes, PutDefinition(c, rest), rest, w.maxBytes, status)
  {
    hide Grows, PutAddressItem, PutCollection, PutFlag, PutPortItem, PutText, PutU16, PutU64, PutU8;
    ghost var s12 := PutText(c.description, rest);
    ghost var s11 := PutU8(SourceCode(c.derivedSource), s12);
    ghost var s10 := PutU8(TransportCode(c.transport), s11);
    ghost var s9 := PutU16(c.remotePort, s10);
    PortsGrow(c.localPortScope);
    CollectionGrows(PutPortItem(), c.localPortScope, s9);
    ghost var s8 := PutCollection(PutPortItem(), c.localPortScope, s9);
    AddressesGrow(c.remoteScope);
    CollectionGrows(PutAddressItem(), c.remoteScope, s8);
    ghost var s7 := PutCollection(PutAddressItem(), c.remoteScope, s8);
    ghost var s6 := PutFlag(c.matchAnyRemoteAddress, s7);
    ghost var s5 := PutU16(SemanticCode(c.declaredClass), s6);
    ghost var s4 := PutText(c.owner, s5);
    ghost var s3 := PutU64(c.workloadGeneration, s4);
    ghost var s2 := PutText(c.workload, s3);
    ghost var s1 := PutText(c.id, s2);
    var _ :- w.PutU8(1, s1);
    var _ :- w.PutText(c.id, s2);
    var _ :- w.PutText(c.workload, s3);
    var _ :- w.PutU64(c.workloadGeneration, s4);
    var _ :- w.PutText(c.owner, s5);
    var _ :- w.PutU16(SemanticCode(c.declaredClass), s6);
    var _ :- w.PutFlag(c.matchAnyRemoteAddress, s7);
    var _ :- EncodeAddresses(w, c.remoteScope, s8);
    var _ :- EncodePorts(w, c.localPortScope, s9);
    var _ :- w.PutU16(c.remotePort, s10);
    var _ :- w.PutU8(TransportCode(c.transport), s11);
    var _ :- w.PutU8(SourceCode(c.derivedSource), s12);
    status := w.PutText(c.description, rest);
  }

  // ---- contents -----------------------------------------------------------

  function PutContent(r: EvidenceRecord, rest: Bytes): Bytes {
    var s := PutU64(r.freshUntil, rest);
    var s := PutText(r.metadata.contract, s);
    var s := PutText(r.metadata.reason, s);
    var s := PutU64(r.metadata.binding, s);
    var s := PutText(r.metadata.topic, s);
    var s := PutU32(r.confidence, s);
    var s := PutU8(SourceCode(r.source), s);
    var s := PutU16(SemanticCode(r.semantic), s);
    var s := PutU64(r.generation, s);
    var s := PutU64(r.flowGeneration, s);
    var s := PutFlowId(r.flowId, s);
    var s := PutText(r.contract, s);
    var s := PutU64(r.workloadGeneration, s);
    var s := PutText(r.workload, s);
    var s := PutU64(r.publisherBoot, s);
    var s := PutText(r.publisher, s);
    var s := PutText(r.id, s);
    PutU8(1, s)
  }

  function GetContent(l: CodecLimits, s: Bytes): Parsed<EvidenceRecord> {
    var (_, s) :- GetVersion(1, s);
    var (id, s) :- GetText(l.maxString, s);
    var (publisher, s) :- GetText(l.maxString, s);
    var (publisherBoot, s) :- GetU64(s);
    var (workload, s) :- GetText(l.maxString, s);
    var (workloadGeneration, s) :- GetU64(s);
    var (contract, s) :- GetText(l.maxString, s);
    var (flowId, s) :- GetFlowId(s);
    var (flowGeneration, s) :- GetU64(s);
    var (generation, s) :- GetU64(s);
    var (semantic, s) :- GetSemantic(s);
    var (source, s) :- GetSource(s);
    var (confidence, s) :- GetConfidence(s);
    var (topic, s) :- GetText(l.maxString, s);
    var (binding, s) :- GetU64(s);
    var (reason, s) :- GetText(l.maxString, s);
    var (metadataContract, s) :- GetText(l.maxString, s);
    var (freshUntil, s) :- GetU64(s);
    Ok((EvidenceRecord(id, publisher, publisherBoot, "", 0, 0, workload, workloadGeneration, contract, flowId, flowGeneration,
                       generation,
                       0, 0, freshUntil, semantic, source, EvidenceNone, confidence,
                       EvidenceMetadata(topic, binding, reason, metadataContract), [], ""), s))
  }

  /** A content whose fields fit their widths. */
  ghost predicate ContentInRange(l: CodecLimits, r: EvidenceRecord) {
    && IsText(l.maxString, r.id)
    && IsText(l.maxString, r.publisher)
    && IsU64(r.publisherBoot)
    && IsText(l.maxString, r.workload)
    && IsU64(r.workloadGeneration)
    && IsText(l.maxString, r.contract)
    && IsFlowId(r.flowId)
    && IsU64(r.flowGeneration)
    && IsU64(r.generation)
    && IsText(l.maxString, r.metadata.topic)
    && IsU64(r.metadata.binding)
    && IsText(l.maxString, r.metadata.reason)
    && IsText(l.maxString, r.metadata.contract)
    && IsU64(r.freshUntil)
    && EvidenceContent(r) == r
  }

  lemma ContentRoundTrip(l: CodecLimits, r: EvidenceRecord, rest: Bytes)
    requires ContentInRange(l, r)
    ensures GetContent(l, PutContent(r, rest)) == Ok((r, rest))
  {
    hide GetConfidence, GetFlowId, GetSemantic, GetSource, GetText, GetU64, GetVersion, IsFlowId, IsByteText, IsU64,
         PutFlowId, PutText, PutU16, PutU32, PutU64, PutU8;
    U64RoundTrip(r.freshUntil, rest);
    var s17 := PutU64(r.freshUntil, rest);
    TextRoundTrip(l.maxString, r.metadata.contract, s17);
    var s16 := PutText(r.metadata.contract, s17);
    TextRoundTrip(l.maxString, r.metadata.reason, s16);
    var s15 := PutText(r.metadata.reason, s16);
    U64RoundTrip(r.metadata.binding, s15);
    var s14 := PutU64(r.metadata.binding, s15);
    TextRoundTrip(l.maxString, r.metadata.topic, s14);
    var s13 := PutText(r.metadata.topic, s14);
    ConfidenceRoundTrip(r.confidence, s13);
    var s12 := PutU32(r.confidence, s13);
    SourceRoundTrip(r.source, s12);
    var s11 := PutU8(SourceCode(r.source), s12);
    SemanticRoundTrip(r.semantic, s11);
    var s10 := PutU16(SemanticCode(r.semantic), s11);
    U64RoundTrip(r.generation, s10);
    var s9 := PutU64(r.generation, s10);
    U64RoundTrip(r.flowGeneration, s9);
    var s8 := PutU64(r.flowGeneration, s9);
    FlowIdRoundTrip(r.flowId, s8);
    var s7 := PutFlowId(r.flowId, s8);
    TextRoundTrip(l.maxString, r.contract, s7);
    var s6 := PutText(r.contract, s7);
    U64RoundTrip(r.workloadGeneration, s6);
    var s5 := PutU64(r.workloadGeneration, s6);
    TextRoundTrip(l.maxString, r.workload, s5);
    var s4 := PutText(r.workload, s5);
    U64RoundTrip(r.publisherBoot, s4);
    var s3 := PutU64(r.publisherBoot, s4);
    TextRoundTrip(l.maxString, r.publisher, s3);
    var s2 := PutText(r.publisher, s3);
    TextRoundTrip(l.maxString, r.id, s2);
    var s1 := PutText(r.id, s2);
    VersionRoundTrip(1, s1);
  }

  method EncodeContent(w: Writer, r: EvidenceRecord, ghost rest: Bytes) returns (status: Result<()>)
    requires w.Valid()
    modifies w
    ensures w.Valid() && Wrote(old(w.bytes), w.bytes, PutContent(r, rest), rest, w.maxBytes, status)
  {
    hide PutFlowId, PutText, PutU16, PutU32, PutU64, PutU8;
    ghost var s17 := PutU64(r.freshUntil, rest);
    ghost var s16 := PutText(r.metadata.contract, s17);
    ghost var s15 := PutText(r.metadata.reason, s16);
    ghost var s14 := PutU64(r.metadata.binding, s15);
    ghost var s13 := PutText(r.metadata.topic, s14);
    ghost var s12 := PutU32(r.confidence, s13);
    ghost var s11 := PutU8(SourceCode(r.source), s12);
    ghost var s10 := PutU16(SemanticCode(r.semantic), s11);
    ghost var s9 := PutU64(r.generation, s10);
    ghost var s8 := PutU64(r.flowGeneration, s9);
    ghost var s7 := PutFlowId(r.flowId, s8);
    ghost var s6 := PutText(r.contract, s7);
    ghost var s5 := PutU64(r.workloadGeneration, s6);
    ghost var s4 := PutText(r.workload, s5);
    ghost var s3 := PutU64(r.publisherBoot, s4);
    ghost var s2 := PutText(r.publisher, s3);
    ghost var s1 := PutText(r.id, s2);
    var _ :- w.PutU8(1, s1);
    var _ :- w.PutText(r.id, s2);
    var _ :- w.PutText(r.publisher, s3);
    var _ :- w.PutU64(r.publisherBoot, s4);
    var _ :- w.PutText(r.workload, s5);
    var _ :- w.PutU64(r.workloadGeneration, s6);
    var _ :- w.PutText(r.contract, s7);
    var _ :- w.PutFlowId(r.flowId, s8);
    var _ :- w.PutU64(r.flowGeneration, s9);
    var _ :- w.PutU64(r.generation, s10);
    var _ :- w.PutU16(SemanticCode(r.semantic), s11);
    var _ :- w.PutU8(SourceCode(r.source), s12);
    var _ :- w.PutU32(r.confidence, s13);
    var _ :- w.PutText(r.metadata.topic, s14);
    var _ :- w.PutU64(r.metadata.binding, s15);
    var _ :- w.PutText(r.metadata.reason, s16);
    var _ :- w.PutText(r.metadata.contract, s17);
    status := w.PutU64(r.freshUntil, rest);
  }

  // ---- what is hashed determines the content ------------------------------

  /** Equal encodings are of equal definitions. */
  lemma DefinitionsDetermine(l: CodecLimits, a: WorkloadContract, b: WorkloadContract)
    requires DefinitionInRange(l, ContractContent(a)) && DefinitionInRange(l, ContractContent(b))
    requires PutDefinition(a, []) == PutDefinition(b, [])
    ensures ContractContent(a) == ContractContent(b)
  {
    hide PutDefinition, GetDefinition, DefinitionInRange, ContractContent;
    SameDefinitionBytes(a);
    SameDefinitionBytes(b);
    DefinitionRoundTrip(l, ContractContent(a), []);
    DefinitionRoundTrip(l, ContractContent(b), []);
  }

  lemma SameDefinitionBytes(c: WorkloadContract)
    ensures PutDefinition(ContractContent(c), []) == PutDefinition(c, [])
  {
    hide PutU8, PutU16, PutU64, PutFlag, PutText, PutCollection;
  }

  /** Equal encodings are of equal contents. */
  lemma ContentsDetermine(l: CodecLimits, a: EvidenceRecord, b: EvidenceRecord)
    requires ContentInRange(l, EvidenceContent(a)) && ContentInRange(l, EvidenceContent(b))
    requires PutContent(a, []) == PutContent(b, [])
    ensures EvidenceContent(a) == EvidenceContent(b)
  {
    hide PutContent, GetContent, ContentInRange, EvidenceContent;
    SameContentBytes(a);
    SameContentBytes(b);
    ContentRoundTrip(l, EvidenceContent(a), []);
    ContentRoundTrip(l, EvidenceContent(b), []);
  }

  lemma SameContentBytes(r: EvidenceRecord)
    ensures PutContent(EvidenceContent(r), []) == PutContent(r, [])
  {
    hide PutU8, PutU16, PutU32, PutU64, PutText, PutFlowId;
  }

  // ---- how wide it is -----------------------------------------------------

  lemma TextIsWide(s: string, rest: Bytes)
    requires IsByteText(s)
    ensures |PutText(s, rest)| == TextWidth(s) + |rest|
  {
    hide PutU32;
  }

  lemma {:induction false} AddressesAreWide(xs: seq<IpAddress>, rest: Bytes)
    ensures |PutEach(PutAddressItem(), xs, rest)| == 20 * |xs| + |rest|
  {
    hide PutBlob;
    if xs != [] {
      AddressesAreWide(xs[1..], rest);
    }
  }

  lemma {:induction false} PortsAreWide(xs: seq<nat>, rest: Bytes)
    ensures |PutEach(PutPortItem(), xs, rest)| == 2 * |xs| + |rest|
  {
    hide PutU16;
    if xs != [] {
      PortsAreWide(xs[1..], rest);
    }
  }

  /** Texts of bytes, as the program holds them. */
  predicate ByteTexts(c: WorkloadContract) {
    IsByteText(c.id) && IsByteText(c.workload) && IsByteText(c.owner) && IsByteText(c.description)
  }

  lemma DefinitionIsWide(c: WorkloadContract)
    requires ByteTexts(c)
    ensures |PutDefinition(c, [])| == DefinitionWidth(c)
  {
    hide PutU8, PutU16, PutU32, PutU64, PutFlag, PutText, PutEach, PutAddressItem, PutPortItem, IsByteText;
    TextIsWide(c.description, []);
    var s12 := PutText(c.description, []);
    var s9 := PutU16(c.remotePort, PutU8(TransportCode(c.transport), PutU8(SourceCode(c.derivedSource), s12)));
    PortsAreWide(c.localPortScope, s9);
    var s8 := PutCollection(PutPortItem(), c.localPortScope, s9);
    AddressesAreWide(c.remoteScope, s8);
    var s7 := PutCollection(PutAddressItem(), c.remoteScope, s8);
    var s5 := PutU16(SemanticCode(c.declaredClass), PutFlag(c.matchAnyRemoteAddress, s7));
    TextIsWide(c.owner, s5);
    var s3 := PutU64(c.workloadGeneration, PutText(c.owner, s5));
    TextIsWide(c.workload, s3);
    TextIsWide(c.id, PutText(c.workload, s3));
  }

  predicate ByteContent(r: EvidenceRecord) {
    && IsByteText(r.id) && IsByteText(r.publisher) && IsByteText(r.workload) && IsByteText(r.contract)
    && IsByteText(r.metadata.topic) && IsByteText(r.metadata.reason) && IsByteText(r.metadata.contract)
  }

  lemma ContentIsWide(r: EvidenceRecord)
    requires ByteContent(r)
    ensures |PutContent(r, [])| == ContentWidth(r)
  {
    hide PutU8, PutU16, PutU32, PutU64, PutText, PutFlowId, IsByteText;
    var s17 := PutU64(r.freshUntil, []);
    TextIsWide(r.metadata.contract, s17);
    var s16 := PutText(r.metadata.contract, s17);
    TextIsWide(r.metadata.reason, s16);
    var s14 := PutU64(r.metadata.binding, PutText(r.metadata.reason, s16));
    TextIsWide(r.metadata.topic, s14);
    var s10 := PutU16(SemanticCode(r.semantic), PutU8(SourceCode(r.source),
                                                      PutU32(r.confidence, PutText(r.metadata.topic, s14))));
    var s7 := PutFlowId(r.flowId, PutU64(r.flowGeneration, PutU64(r.generation, s10)));
    TextIsWide(r.contract, s7);
    var s5 := PutU64(r.workloadGeneration, PutText(r.contract, s7));
    TextIsWide(r.workload, s5);
    var s3 := PutU64(r.publisherBoot, PutText(r.workload, s5));
    TextIsWide(r.publisher, s3);
    TextIsWide(r.id, PutText(r.publisher, s3));
  }

  // ---- the digests as they are computed -----------------------------------

  method ComputeContractDigest(o: Oracles, c: WorkloadContract) returns (digest: Digest)
    requires ByteTexts(c)
    ensures digest == ContractDigest(o, c)
  {
    hide PutDefinition, DefinitionWidth;
    DefinitionIsWide(c);
    var w := new Writer(MAX_BLOB_BYTES);
    var status := EncodeDefinition(w, c, []);
    digest := if status.Ok? then o.contractDigest(ContractContent(c)) else ZERO_DIGEST;
  }

  method ComputeEvidenceDigest(o: Oracles, r: EvidenceRecord) returns (digest: Digest)
    requires ByteContent(r)
    ensures digest == EvidenceDigest(o, r)
  {
    hide PutContent, ContentWidth;
    ContentIsWide(r);
    var w := new Writer(MAX_BLOB_BYTES);
    var status := EncodeContent(w, r, []);
    digest := if status.Ok? then o.evidenceDigest(EvidenceContent(r)) else ZERO_DIGEST;
  }

  /** Texts within the bound of the wire never exhaust the encoder of a record. */
  lemma WireRecordsFit(r: EvidenceRecord)
    requires |r.id| <= 512 && |r.publisher| <= 512 && |r.workload| <= 512 && |r.contract| <= 512
    requires |r.metadata.topic| <= 512 && |r.metadata.reason| <= 512 && |r.metadata.contract| <= 512
    ensures ContentFits(r)
  {
  }
}
