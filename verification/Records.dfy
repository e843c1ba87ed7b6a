/**
 * The record codecs: each record is its schema version followed by its fields in order.
 */
module Records {
  import opened Domain
  import opened Wire
  import Policy

  datatype CodecLimits = CodecLimits(maxString: nat, maxCollection: nat)

  // ---- flows --------------------------------------------------------------

  function PutFlowKey(k: FlowKey, rest: Bytes): Bytes {
    var s := PutU16(k.remotePort, rest);
    var s := PutU16(k.localPort, s);
    var s := PutBlob(k.remoteAddress, s);
    var s := PutBlob(k.localAddress, s);
    PutU8(TransportCode(k.transport), s)
  }

  function GetFlowKey(s: Bytes): Parsed<FlowKey> {
    var (transport, s) :- GetTransport(s);
    var (localAddress, s) :- GetAddress(s);
    var (remoteAddress, s) :- GetAddress(s);
    var (localPort, s) :- GetU16(s);
    var (remotePort, s) :- GetU16(s);
    Ok((FlowKey(localAddress, remoteAddress, localPort, remotePort, transport), s))
  }

  /** Ports fit sixteen bits. */
  ghost predicate FlowKeyFits(k: FlowKey) {
    && IsU16(k.localPort)
    && IsU16(k.remotePort)
  }

  lemma FlowKeyRoundTrip(k: FlowKey, rest: Bytes)
    requires FlowKeyFits(k)
    ensures GetFlowKey(PutFlowKey(k, rest)) == Ok((k, rest))
  {
    hide GetAddress, GetTransport, GetU16, IsU16, PutBlob, PutU16, PutU8;
    U16RoundTrip(k.remotePort, rest);
    var s4 := PutU16(k.remotePort, rest);
    U16RoundTrip(k.localPort, s4);
    var s3 := PutU16(k.localPort, s4);
    AddressRoundTrip(k.remoteAddress, s3);
    var s2 := PutBlob(k.remoteAddress, s3);
    AddressRoundTrip(k.localAddress, s2);
    var s1 := PutBlob(k.localAddress, s2);
    TransportRoundTrip(k.transport, s1);
  }

  function PutFlow(r: FlowRecord, rest: Bytes): Bytes {
    var s := PutU64(r.renewals, rest);
    var s := PutText(r.registeredBy, s);
    var s := PutU64(r.lastActivityTick, s);
    var s := PutU64(r.registeredTick, s);
    var s := PutU64(r.registeredSeq, s);
    var s := PutU64(r.generation, s);
    var s := PutFlowKey(r.key, s);
    var s := PutFlowId(r.id, s);
    PutU8(1, s)
  }

  function GetFlow(o: Oracles, l: CodecLimits, s: Bytes): Parsed<FlowRecord> {
    var (_, s) :- GetVersion(1, s);
    var (id, s) :- GetFlowId(s);
    var (key, s) :- GetFlowKey(s);
    var (generation, s) :- GetU64(s);
    var (registeredSeq, s) :- GetU64(s);
    var (registeredTick, s) :- GetU64(s);
    var (lastActivity, s) :- GetU64(s);
    var (registeredBy, s) :- GetOptional(l.maxString, s);
    var (renewals, s) :- GetU64(s);
    if o.flowId(key) != id || generation == 0 then Err(CorruptState)
    else Ok((FlowRecord(id, key, generation, registeredSeq, registeredTick, lastActivity, registeredBy, renewals), s))
  }

  ghost predicate FlowInRange(r: FlowRecord) {
    && IsFlowId(r.id)
    && FlowKeyFits(r.key)
    && IsU64(r.generation)
    && IsU64(r.registeredSeq)
    && IsU64(r.registeredTick)
    && IsU64(r.lastActivityTick)
    && IsString(r.registeredBy)
    && IsU64(r.renewals)
  }

  /** The identity belongs to the key, and the generation is not zero. */
  ghost predicate FlowFits(o: Oracles, l: CodecLimits, r: FlowRecord) {
    && FlowInRange(r)
    && IsOptional(l.maxString, r.registeredBy)
    && o.flowId(r.key) == r.id
    && r.generation > 0
  }

  lemma FlowRoundTrip(o: Oracles, l: CodecLimits, r: FlowRecord, rest: Bytes)
    requires FlowInRange(r)
    ensures Restores(GetFlow(o, l, PutFlow(r, rest)), FlowFits(o, l, r), r, rest)
  {
    hide FlowKeyFits, GetFlowId, GetFlowKey, GetOptional, GetU64, GetVersion, IsFlowId, IsOptional, IsU64, PutFlowId,
         PutFlowKey, PutText, PutU64, PutU8, IsString;
    U64RoundTrip(r.renewals, rest);
    var s8 := PutU64(r.renewals, rest);
    OptionalRoundTrip(l.maxString, r.registeredBy, s8);
    var s7 := PutText(r.registeredBy, s8);
    U64RoundTrip(r.lastActivityTick, s7);
    var s6 := PutU64(r.lastActivityTick, s7);
    U64RoundTrip(r.registeredTick, s6);
    var s5 := PutU64(r.registeredTick, s6);
    U64RoundTrip(r.registeredSeq, s5);
    var s4 := PutU64(r.registeredSeq, s5);
    U64RoundTrip(r.generation, s4);
    var s3 := PutU64(r.generation, s4);
    FlowKeyRoundTrip(r.key, s3);
    var s2 := PutFlowKey(r.key, s3);
    FlowIdRoundTrip(r.id, s2);
    var s1 := PutFlowId(r.id, s2);
    VersionRoundTrip(1, s1);
  }

  // ---- publishers ---------------------------------------------------------

  function PutPublisher(r: PublisherRecord, rest: Bytes): Bytes {
    var s := PutText(r.description, rest);
    var s := PutU64(r.totalEvidenceAccepted, s);
    var s := PutU64(r.lastSeenWallMillis, s);
    var s := PutU64(r.firstSeenTick, s);
    var s := PutU8(SourceCode(r.maxSource), s);
    var s := PutU64(r.highestGeneration, s);
    var s := PutU64(r.highestBoot, s);
    var s := PutText(r.id, s);
    PutU8(1, s)
  }

  function GetPublisher(l: CodecLimits, s: Bytes): Parsed<PublisherRecord> {
    var (_, s) :- GetVersion(1, s);
    var (id, s) :- GetIdentity(l.maxString, s);
    var (highestBoot, s) :- GetU64(s);
    var (highestGeneration, s) :- GetU64(s);
    var (maxSource, s) :- GetSource(s);
    var (firstSeen, s) :- GetU64(s);
    var (lastSeen, s) :- GetU64(s);
    var (accepted, s) :- GetU64(s);
    var (description, s) :- GetText(l.maxString, s);
    Ok((PublisherRecord(id, highestBoot, highestGeneration, maxSource, firstSeen, lastSeen, accepted, description), s))
  }

  ghost predicate PublisherInRange(r: PublisherRecord) {
    && IsString(r.id)
    && IsU64(r.highestBoot)
    && IsU64(r.highestGeneration)
    && IsU64(r.firstSeenTick)
    && IsU64(r.lastSeenWallMillis)
    && IsU64(r.totalEvidenceAccepted)
    && IsString(r.description)
  }

  /** The identity is canonical and every field fits its width. */
  ghost predicate PublisherFits(l: CodecLimits, r: PublisherRecord) {
    && PublisherInRange(r)
    && IsIdentity(l.maxString, r.id)
    && IsText(l.maxString, r.description)
  }

  lemma PublisherRoundTrip(l: CodecLimits, r: PublisherRecord, rest: Bytes)
    requires PublisherInRange(r)
    ensures Restores(GetPublisher(l, PutPublisher(r, rest)), PublisherFits(l, r), r, rest)
  {
    hide GetIdentity, GetSource, GetText, GetU64, GetVersion, IsIdentity, IsText, IsU64, PutText, PutU64, PutU8,
         IsString;
    TextRoundTrip(l.maxString, r.description, rest);
    var s8 := PutText(r.description, rest);
    U64RoundTrip(r.totalEvidenceAccepted, s8);
    var s7 := PutU64(r.totalEvidenceAccepted, s8);
    U64RoundTrip(r.lastSeenWallMillis, s7);
    var s6 := PutU64(r.lastSeenWallMillis, s7);
    U64RoundTrip(r.firstSeenTick, s6);
    var s5 := PutU64(r.firstSeenTick, s6);
    SourceRoundTrip(r.maxSource, s5);
    var s4 := PutU8(SourceCode(r.maxSource), s5);
    U64RoundTrip(r.highestGeneration, s4);
    var s3 := PutU64(r.highestGeneration, s4);
    U64RoundTrip(r.highestBoot, s3);
    var s2 := PutU64(r.highestBoot, s3);
    IdentityRoundTrip(l.maxString, r.id, s2);
    var s1 := PutText(r.id, s2);
    VersionRoundTrip(1, s1);
  }

  // ---- workloads and contracts --------------------------------------------

  function PutWorkload(r: WorkloadRecord, rest: Bytes): Bytes {
    var s := PutText(r.description, rest);
    var s := PutU64(r.retiredTick, s);
    var s := PutU64(r.activatedTick, s);
    var s := PutU64(r.declaredTick, s);
    var s := PutText(r.activeContract, s);
    var s := PutU8(WorkloadStateCode(r.state), s);
    var s := PutU64(r.generation, s);
    var s := PutText(r.owner, s);
    var s := PutText(r.id, s);
    PutU8(1, s)
  }

  function GetWorkload(l: CodecLimits, s: Bytes): Parsed<WorkloadRecord> {
    var (_, s) :- GetVersion(1, s);
    var (id, s) :- GetOptional(l.maxString, s);
    var (owner, s) :- GetIdentity(l.maxString, s);
    var (generation, s) :- GetGeneration(s);
    var (state, s) :- GetWorkloadState(s);
    var (activeContract, s) :- GetOptional(l.maxString, s);
    var (declared, s) :- GetU64(s);
    var (activated, s) :- GetU64(s);
    var (retired, s) :- GetU64(s);
    var (description, s) :- GetText(l.maxString, s);
    Ok((WorkloadRecord(id, owner, generation, state, activeContract, declared, activated, retired, description), s))
  }

  ghost predicate WorkloadInRange(r: WorkloadRecord) {
    && IsString(r.id)
    && IsString(r.owner)
    && IsU64(r.generation)
    && IsString(r.activeContract)
    && IsU64(r.declaredTick)
    && IsU64(r.activatedTick)
    && IsU64(r.retiredTick)
    && IsString(r.description)
  }

  /** Identities are canonical, the generation is not zero and every field fits its width. */
  ghost predicate WorkloadFits(l: CodecLimits, r: WorkloadRecord) {
    && WorkloadInRange(r)
    && IsOptional(l.maxString, r.id)
    && IsIdentity(l.maxString, r.owner)
    && r.generation > 0
    && IsOptional(l.maxString, r.activeContract)
    && IsText(l.maxString, r.description)
  }

  lemma WorkloadRoundTrip(l: CodecLimits, r: WorkloadRecord, rest: Bytes)
    requires WorkloadInRange(r)
    ensures Restores(GetWorkload(l, PutWorkload(r, rest)), WorkloadFits(l, r), r, rest)
  {
    hide GetGeneration, GetIdentity, GetOptional, GetText, GetU64, GetVersion, GetWorkloadState, IsIdentity, IsOptional,
         IsText, IsU64, PutText, PutU64, PutU8, IsString;
    TextRoundTrip(l.maxString, r.description, rest);
    var s9 := PutText(r.description, rest);
    U64RoundTrip(r.retiredTick, s9);
    var s8 := PutU64(r.retiredTick, s9);
    U64RoundTrip(r.activatedTick, s8);
    var s7 := PutU64(r.activatedTick, s8);
    U64RoundTrip(r.declaredTick, s7);
    var s6 := PutU64(r.declaredTick, s7);
    OptionalRoundTrip(l.maxString, r.activeContract, s6);
    var s5 := PutText(r.activeContract, s6);
    WorkloadStateRoundTrip(r.state, s5);
    var s4 := PutU8(WorkloadStateCode(r.state), s5);
    GenerationRoundTrip(r.generation, s4);
    var s3 := PutU64(r.generation, s4);
    IdentityRoundTrip(l.maxString, r.owner, s3);
    var s2 := PutText(r.owner, s3);
    OptionalRoundTrip(l.maxString, r.id, s2);
    var s1 := PutText(r.id, s2);
    VersionRoundTrip(1, s1);
  }

  function PutAddressItem(): (IpAddress, Bytes) -> Bytes {
    (a: IpAddress, rest: Bytes) => PutBlob(a, rest)
  }

  function GetAddressItem(): Bytes -> Parsed<IpAddress> {
    (s: Bytes) => GetAddress(s)
  }

  function PutPortItem(): (nat, Bytes) -> Bytes {
    (p: nat, rest: Bytes) => PutU16(p, rest)
  }

  function GetPortItem(): Bytes -> Parsed<nat> {
    (s: Bytes) => GetU16(s)
  }

  lemma AddressesInvert(xs: seq<IpAddress>)
    ensures Readable(PutAddressItem(), GetAddressItem(), xs) && Faithful(PutAddressItem(), GetAddressItem(), xs)
  {
    hide PutBlob, GetAddress;
    forall x, rest: Bytes | x in xs
      ensures GetAddressItem()(PutAddressItem()(x, rest)) == Ok((x, rest))
    {
      AddressRoundTrip(x, rest);
    }
  }

  lemma PortsInvert(xs: seq<nat>)
    requires forall x | x in xs :: IsU16(x)
    ensures Readable(PutPortItem(), GetPortItem(), xs) && Faithful(PutPortItem(), GetPortItem(), xs)
  {
    hide PutU16, GetU16, IsU16;
    forall x, rest: Bytes | x in xs
      ensures GetPortItem()(PutPortItem()(x, rest)) == Ok((x, rest))
    {
      U16RoundTrip(x, rest);
    }
  }

  function PutContract(c: WorkloadContract, rest: Bytes): Bytes {
    var s := PutText(c.description, rest);
    var s := PutU64(c.retiredTick, s);
    var s := PutU64(c.activatedTick, s);
    var s := PutU64(c.createdTick, s);
    var s := PutBlob(c.definitionDigest, s);
    var s := PutU8(SourceCode(c.derivedSource), s);
    var s := PutU8(TransportCode(c.transport), s);
    var s := PutU16(c.remotePort, s);
    var s := PutCollection(PutPortItem(), c.localPortScope, s);
    var s := PutCollection(PutAddressItem(), c.remoteScope, s);
    var s := PutFlag(c.matchAnyRemoteAddress, s);
    var s := PutU16(SemanticCode(c.declaredClass), s);
    var s := PutU8(ContractStateCode(c.state), s);
    var s := PutText(c.owner, s);
    var s := PutU64(c.workloadGeneration, s);
    var s := PutText(c.workload, s);
    var s := PutText(c.id, s);
    PutU8(1, s)
  }

  type ContractTerms = (string, string, nat, string, ContractState, SemanticClass, bool)

  function GetContractTerms(l: CodecLimits, s: Bytes): Parsed<ContractTerms> {
    var (_, s) :- GetVersion(1, s);
    var (id, s) :- GetOptional(l.maxString, s);
    var (workload, s) :- GetOptional(l.maxString, s);
    var (workloadGeneration, s) :- GetU64(s);
    var (owner, s) :- GetIdentity(l.maxString, s);
    var (state, s) :- GetContractState(s);
    var (declaredClass, s) :- GetSemantic(s);
    var (anyRemote, s) :- GetFlag(s);
    Ok(((id, workload, workloadGeneration, owner, state, declaredClass, anyRemote), s))
  }

  type ContractScope = (seq<IpAddress>, seq<nat>, nat, Transport, EvidenceSource, Digest, nat, nat, nat, string)

  function GetContractScope(l: CodecLimits, s: Bytes): Parsed<ContractScope> {
    var (remoteScope, s) :- GetCollection(GetAddressItem(), l.maxCollection, s);
    var (portScope, s) :- GetCollection(GetPortItem(), l.maxCollection, s);
    var (remotePort, s) :- GetU16(s);
    var (transport, s) :- GetTransport(s);
    var (derivedSource, s) :- GetSource(s);
    var (digest, s) :- GetDigest(s);
    var (created, s) :- GetU64(s);
    var (activated, s) :- GetU64(s);
    var (retired, s) :- GetU64(s);
    var (description, s) :- GetText(l.maxString, s);
    Ok(((remoteScope, portScope, remotePort, transport, derivedSource, digest, created, activated, retired, description), s))
  }

  function GetContract(o: Oracles, l: CodecLimits, s: Bytes): Parsed<WorkloadContract> {
    var (terms, s) :- GetContractTerms(l, s);
    var (scope, s) :- GetContractScope(l, s);
    var (id, workload, workloadGeneration, owner, state, declaredClass, anyRemote) := terms;
    var (remoteScope, portScope, remotePort, transport, derivedSource, digest, created, activated, retired,
         description) := scope;
    var read := WorkloadContract(id, workload, workloadGeneration, owner, state, declaredClass, remoteScope, portScope,
                                 remotePort,
                                 transport, anyRemote, derivedSource, digest, created, activated, retired, description);
    var recomputed := ContractDigest(o, read);
    if digest != ZERO_DIGEST && recomputed != digest then Err(IntegrityFailure)
    else Ok((read.(definitionDigest := recomputed), s))
  }

  ghost predicate ContractInRange(o: Oracles, c: WorkloadContract) {
    && IsString(c.id)
    && IsString(c.workload)
    && IsU64(c.workloadGeneration)
    && IsString(c.owner)
    && IsU32(|c.remoteScope|)
    && IsU32(|c.localPortScope|)
    && (forall x | x in c.localPortScope :: IsU16(x))
    && IsU16(c.remotePort)
    && IsDigest(c.definitionDigest)
    && IsU64(c.createdTick)
    && IsU64(c.activatedTick)
    && IsU64(c.retiredTick)
    && IsString(c.description)
    && c.definitionDigest == ContractDigest(o, c)
  }

  /** Identities are canonical, scopes are within bounds and the digest is that of the content. */
  ghost predicate ContractFits(o: Oracles, l: CodecLimits, c: WorkloadContract) {
    && ContractInRange(o, c)
    && IsOptional(l.maxString, c.id)
    && IsOptional(l.maxString, c.workload)
    && IsIdentity(l.maxString, c.owner)
    && |c.remoteScope| <= l.maxCollection
    && |c.localPortScope| <= l.maxCollection
    && IsText(l.maxString, c.description)
  }

  lemma ContractRoundTrip(o: Oracles, l: CodecLimits, c: WorkloadContract, rest: Bytes)
    requires ContractInRange(o, c)
    ensures Restores(GetContract(o, l, PutContract(c, rest)), ContractFits(o, l, c), c, rest)
  {
    hide ContractContent, GetAddressItem, GetCollection, GetContractState, GetDigest, GetFlag, GetIdentity, GetOptional,
         GetPortItem, GetSemantic, GetSource, GetText, GetTransport, GetU16, GetU64, GetVersion, Inverse, IsDigest,
         IsIdentity, IsOptional, IsText, IsU16, IsU32, IsU64, PutAddressItem, PutBlob, PutCollection, PutFlag,
         PutPortItem, PutText, PutU16, PutU64, PutU8, IsString, Readable, Faithful;
    TextRoundTrip(l.maxString, c.description, rest);
    var s17 := PutText(c.description, rest);
    U64RoundTrip(c.retiredTick, s17);
    var s16 := PutU64(c.retiredTick, s17);
    U64RoundTrip(c.activatedTick, s16);
    var s15 := PutU64(c.activatedTick, s16);
    U64RoundTrip(c.createdTick, s15);
    var s14 := PutU64(c.createdTick, s15);
    DigestRoundTrip(c.definitionDigest, s14);
    var s13 := PutBlob(c.definitionDigest, s14);
    SourceRoundTrip(c.derivedSource, s13);
    var s12 := PutU8(SourceCode(c.derivedSource), s13);
    TransportRoundTrip(c.transport, s12);
    var s11 := PutU8(TransportCode(c.transport), s12);
    U16RoundTrip(c.remotePort, s11);
    var s10 := PutU16(c.remotePort, s11);
    PortsInvert(c.localPortScope);
    CollectionRoundTrip(PutPortItem(), GetPortItem(), l.maxCollection, c.localPortScope, s10);
    var s9 := PutCollection(PutPortItem(), c.localPortScope, s10);
    AddressesInvert(c.remoteScope);
    CollectionRoundTrip(PutAddressItem(), GetAddressItem(), l.maxCollection, c.remoteScope, s9);
    var s8 := PutCollection(PutAddressItem(), c.remoteScope, s9);
    FlagRoundTrip(c.matchAnyRemoteAddress, s8);
    var s7 := PutFlag(c.matchAnyRemoteAddress, s8);
    SemanticRoundTrip(c.declaredClass, s7);
    var s6 := PutU16(SemanticCode(c.declaredClass), s7);
    ContractStateRoundTrip(c.state, s6);
    var s5 := PutU8(ContractStateCode(c.state), s6);
    IdentityRoundTrip(l.maxString, c.owner, s5);
    var s4 := PutText(c.owner, s5);
    U64RoundTrip(c.workloadGeneration, s4);
    var s3 := PutU64(c.workloadGeneration, s4);
    OptionalRoundTrip(l.maxString, c.workload, s3);
    var s2 := PutText(c.workload, s3);
    OptionalRoundTrip(l.maxString, c.id, s2);
    var s1 := PutText(c.id, s2);
    VersionRoundTrip(1, s1);
  }

  // ---- evidence -----------------------------------------------------------

  function PutEvidence(r: EvidenceRecord, rest: Bytes): Bytes {
    var s := PutText(r.stateReason, rest);
    var s := PutBlob(r.contentDigest, s);
    var s := PutText(r.metadata.contract, s);
    var s := PutText(r.metadata.reason, s);
    var s := PutU64(r.metadata.binding, s);
    var s := PutText(r.metadata.topic, s);
    var s := PutU32(r.confidence, s);
    var s := PutU8(EvidenceStateCode(r.state), s);
    var s := PutU8(SourceCode(r.source), s);
    var s := PutU16(SemanticCode(r.semantic), s);
    var s := PutU64(r.freshUntil, s);
    var s := PutU64(r.acceptedTick, s);
    var s := PutU64(r.acceptedSeq, s);
    var s := PutU64(r.generation, s);
    var s := PutU64(r.flowGeneration, s);
    var s := PutFlowId(r.flowId, s);
    var s := PutText(r.contract, s);
    var s := PutU64(r.workloadGeneration, s);
    var s := PutText(r.workload, s);
    var s := PutU64(r.acceptedBoot, s);
    var s := PutU64(r.acceptedEpoch, s);
    var s := PutText(r.session, s);
    var s := PutU64(r.publisherBoot, s);
    var s := PutText(r.publisher, s);
    var s := PutText(r.id, s);
    PutU8(1, s)
  }

  type EvidenceOrigin = (string, string, nat, string, nat, nat, string, nat, string, FlowId, nat, nat)

  function GetEvidenceOrigin(l: CodecLimits, s: Bytes): Parsed<EvidenceOrigin> {
    var (_, s) :- GetVersion(1, s);
    var (id, s) :- GetIdentity(l.maxString, s);
    var (publisher, s) :- GetIdentity(l.maxString, s);
    var (publisherBoot, s) :- GetU64(s);
    var (session, s) :- GetOptional(l.maxString, s);
    var (acceptedEpoch, s) :- GetU64(s);
    var (acceptedBoot, s) :- GetU64(s);
    var (workload, s) :- GetOptional(l.maxString, s);
    var (workloadGeneration, s) :- GetU64(s);
    var (contract, s) :- GetOptional(l.maxString, s);
    var (flowId, s) :- GetFlowId(s);
    var (flowGeneration, s) :- GetU64(s);
    var (generation, s) :- GetU64(s);
    Ok(((id, publisher, publisherBoot, session, acceptedEpoch, acceptedBoot, workload, workloadGeneration, contract, flowId,
         flowGeneration, generation), s))
  }

  type EvidenceClaim = (nat, nat, nat, SemanticClass, EvidenceSource, EvidenceState, Confidence, string, nat, string, string,
                        Digest, string)

  function GetEvidenceClaim(l: CodecLimits, s: Bytes): Parsed<EvidenceClaim> {
    var (acceptedSeq, s) :- GetU64(s);
    var (acceptedTick, s) :- GetU64(s);
    var (freshUntil, s) :- GetU64(s);
    var (semantic, s) :- GetSemantic(s);
    var (source, s) :- GetSource(s);
    var (state, s) :- GetEvidenceState(s);
    var (confidence, s) :- GetConfidence(s);
    var (topic, s) :- GetText(l.maxString, s);
    var (binding, s) :- GetU64(s);
    var (reason, s) :- GetText(l.maxString, s);
    var (metadataContract, s) :- GetOptional(l.maxString, s);
    var (digest, s) :- GetDigest(s);
    var (stateReason, s) :- GetText(l.maxString, s);
    Ok(((acceptedSeq, acceptedTick, freshUntil, semantic, source, state, confidence, topic, binding, reason, metadataContract,
         digest, stateReason), s))
  }

  function GetEvidence(o: Oracles, l: CodecLimits, s: Bytes): Parsed<EvidenceRecord> {
    var (origin, s) :- GetEvidenceOrigin(l, s);
    var (claim, s) :- GetEvidenceClaim(l, s);
    var (id, publisher, publisherBoot, session, acceptedEpoch, acceptedBoot, workload, workloadGeneration, contract, flowId,
         flowGeneration, generation) := origin;
    var (acceptedSeq, acceptedTick, freshUntil, semantic, source, state, confidence, topic, binding, reason, metadataContract,
         digest, stateReason) := claim;
    var read := EvidenceRecord(id, publisher, publisherBoot, session, acceptedEpoch, acceptedBoot, workload, workloadGeneration,
                               contract, flowId, flowGeneration, generation, acceptedSeq, acceptedTick, freshUntil, semantic,
                               source, state, confidence, EvidenceMetadata(topic, binding, reason, metadataContract), digest,
                               stateReason);
    if EvidenceDigest(o, read) != digest then Err(IntegrityFailure) else Ok((read, s))
  }

  ghost predicate EvidenceInRange(r: EvidenceRecord) {
    && IsString(r.id)
    && IsString(r.publisher)
    && IsU64(r.publisherBoot)
    && IsString(r.session)
    && IsU64(r.acceptedEpoch)
    && IsU64(r.acceptedBoot)
    && IsString(r.workload)
    && IsU64(r.workloadGeneration)
    && IsString(r.contract)
    && IsFlowId(r.flowId)
    && IsU64(r.flowGeneration)
    && IsU64(r.generation)
    && IsU64(r.acceptedSeq)
    && IsU64(r.acceptedTick)
    && IsU64(r.freshUntil)
    && IsString(r.metadata.topic)
    && IsU64(r.metadata.binding)
    && IsString(r.metadata.reason)
    && IsString(r.metadata.contract)
    && IsDigest(r.contentDigest)
    && IsString(r.stateReason)
  }

  /** Identities are canonical, every field fits its width and the digest is that of the content. */
  ghost predicate EvidenceFits(o: Oracles, l: CodecLimits, r: EvidenceRecord) {
    && EvidenceInRange(r)
    && IsIdentity(l.maxString, r.id)
    && IsIdentity(l.maxString, r.publisher)
    && IsOptional(l.maxString, r.session)
    && IsOptional(l.maxString, r.workload)
    && IsOptional(l.maxString, r.contract)
    && IsText(l.maxString, r.metadata.topic)
    && IsText(l.maxString, r.metadata.reason)
    && IsOptional(l.maxString, r.metadata.contract)
    && IsText(l.maxString, r.stateReason)
    && EvidenceDigest(o, r) == r.contentDigest
  }

  lemma EvidenceRoundTrip(o: Oracles, l: CodecLimits, r: EvidenceRecord, rest: Bytes)
    requires EvidenceInRange(r)
    ensures Restores(GetEvidence(o, l, PutEvidence(r, rest)), EvidenceFits(o, l, r), r, rest)
  {
    hide EvidenceContent, GetConfidence, GetDigest, GetEvidenceState, GetFlowId, GetIdentity, GetOptional, GetSemantic,
         GetSource, GetText, GetU64, GetVersion, IsDigest, IsFlowId, IsIdentity, IsOptional, IsText, IsU64, PutBlob,
         PutFlowId, PutText, PutU16, PutU32, PutU64, PutU8, IsString;
    TextRoundTrip(l.maxString, r.stateReason, rest);
    var s25 := PutText(r.stateReason, rest);
    DigestRoundTrip(r.contentDigest, s25);
    var s24 := PutBlob(r.contentDigest, s25);
    OptionalRoundTrip(l.maxString, r.metadata.contract, s24);
    var s23 := PutText(r.metadata.contract, s24);
    TextRoundTrip(l.maxString, r.metadata.reason, s23);
    var s22 := PutText(r.metadata.reason, s23);
    U64RoundTrip(r.metadata.binding, s22);
    var s21 := PutU64(r.metadata.binding, s22);
    TextRoundTrip(l.maxString, r.metadata.topic, s21);
    var s20 := PutText(r.metadata.topic, s21);
    ConfidenceRoundTrip(r.confidence, s20);
    var s19 := PutU32(r.confidence, s20);
    EvidenceStateRoundTrip(r.state, s19);
    var s18 := PutU8(EvidenceStateCode(r.state), s19);
    SourceRoundTrip(r.source, s18);
    var s17 := PutU8(SourceCode(r.source), s18);
    SemanticRoundTrip(r.semantic, s17);
    var s16 := PutU16(SemanticCode(r.semantic), s17);
    U64RoundTrip(r.freshUntil, s16);
    var s15 := PutU64(r.freshUntil, s16);
    U64RoundTrip(r.acceptedTick, s15);
    var s14 := PutU64(r.acceptedTick, s15);
    U64RoundTrip(r.acceptedSeq, s14);
    var s13 := PutU64(r.acceptedSeq, s14);
    U64RoundTrip(r.generation, s13);
    var s12 := PutU64(r.generation, s13);
    U64RoundTrip(r.flowGeneration, s12);
    var s11 := PutU64(r.flowGeneration, s12);
    FlowIdRoundTrip(r.flowId, s11);
    var s10 := PutFlowId(r.flowId, s11);
    OptionalRoundTrip(l.maxString, r.contract, s10);
    var s9 := PutText(r.contract, s10);
    U64RoundTrip(r.workloadGeneration, s9);
    var s8 := PutU64(r.workloadGeneration, s9);
    OptionalRoundTrip(l.maxString, r.workload, s8);
    var s7 := PutText(r.workload, s8);
    U64RoundTrip(r.acceptedBoot, s7);
    var s6 := PutU64(r.acceptedBoot, s7);
    U64RoundTrip(r.acceptedEpoch, s6);
    var s5 := PutU64(r.acceptedEpoch, s6);
    OptionalRoundTrip(l.maxString, r.session, s5);
    var s4 := PutText(r.session, s5);
    U64RoundTrip(r.publisherBoot, s4);
    var s3 := PutU64(r.publisherBoot, s4);
    IdentityRoundTrip(l.maxString, r.publisher, s3);
    var s2 := PutText(r.publisher, s3);
    IdentityRoundTrip(l.maxString, r.id, s2);
    var s1 := PutText(r.id, s2);
    VersionRoundTrip(1, s1);
  }

  // ---- classifications ----------------------------------------------------

  function PutCitation(c: EvidenceCitation, rest: Bytes): Bytes {
    var s := PutText(c.detail, rest);
    var s := PutU64(c.freshUntil, s);
    var s := PutU64(c.acceptedTick, s);
    var s := PutU64(c.acceptedSeq, s);
    var s := PutU64(c.generation, s);
    var s := PutU32(c.confidence, s);
    var s := PutU8(DispositionCode(c.disposition), s);
    var s := PutU16(SemanticCode(c.semantic), s);
    var s := PutU8(EvidenceStateCode(c.state), s);
    var s := PutU8(SourceCode(c.source), s);
    var s := PutText(c.publisher, s);
    PutText(c.id, s)
  }

  function GetCitation(l: CodecLimits, s: Bytes): Parsed<EvidenceCitation> {
    var (id, s) :- GetIdentity(l.maxString, s);
    var (publisher, s) :- GetIdentity(l.maxString, s);
    var (source, s) :- GetSource(s);
    var (state, s) :- GetEvidenceState(s);
    var (semantic, s) :- GetSemantic(s);
    var (disposition, s) :- GetDisposition(s);
    var (confidence, s) :- GetConfidence(s);
    var (generation, s) :- GetU64(s);
    var (acceptedSeq, s) :- GetU64(s);
    var (acceptedTick, s) :- GetU64(s);
    var (freshUntil, s) :- GetU64(s);
    var (detail, s) :- GetText(l.maxString, s);
    Ok((EvidenceCitation(id, publisher, source, state, semantic, disposition, confidence, generation, acceptedSeq, acceptedTick,
                         freshUntil, detail), s))
  }

  ghost predicate CitationInRange(c: EvidenceCitation) {
    && IsString(c.id)
    && IsString(c.publisher)
    && IsU64(c.generation)
    && IsU64(c.acceptedSeq)
    && IsU64(c.acceptedTick)
    && IsU64(c.freshUntil)
    && IsString(c.detail)
  }

  /** Identities are canonical and every field fits its width. */
  ghost predicate CitationFits(l: CodecLimits, c: EvidenceCitation) {
    && CitationInRange(c)
    && IsIdentity(l.maxString, c.id)
    && IsIdentity(l.maxString, c.publisher)
    && IsText(l.maxString, c.detail)
  }

  lemma CitationRoundTrip(l: CodecLimits, c: EvidenceCitation, rest: Bytes)
    requires CitationInRange(c)
    ensures Restores(GetCitation(l, PutCitation(c, rest)), CitationFits(l, c), c, rest)
  {
    hide GetConfidence, GetDisposition, GetEvidenceState, GetIdentity, GetSemantic, GetSource, GetText, GetU64,
         IsIdentity, IsText, IsU64, PutText, PutU16, PutU32, PutU64, PutU8, IsString;
    TextRoundTrip(l.maxString, c.detail, rest);
    var s11 := PutText(c.detail, rest);
    U64RoundTrip(c.freshUntil, s11);
    var s10 := PutU64(c.freshUntil, s11);
    U64RoundTrip(c.acceptedTick, s10);
    var s9 := PutU64(c.acceptedTick, s10);
    U64RoundTrip(c.acceptedSeq, s9);
    var s8 := PutU64(c.acceptedSeq, s9);
    U64RoundTrip(c.generation, s8);
    var s7 := PutU64(c.generation, s8);
    ConfidenceRoundTrip(c.confidence, s7);
    var s6 := PutU32(c.confidence, s7);
    DispositionRoundTrip(c.disposition, s6);
    var s5 := PutU8(DispositionCode(c.disposition), s6);
    SemanticRoundTrip(c.semantic, s5);
    var s4 := PutU16(SemanticCode(c.semantic), s5);
    EvidenceStateRoundTrip(c.state, s4);
    var s3 := PutU8(EvidenceStateCode(c.state), s4);
    SourceRoundTrip(c.source, s3);
    var s2 := PutU8(SourceCode(c.source), s3);
    IdentityRoundTrip(l.maxString, c.publisher, s2);
    var s1 := PutText(c.publisher, s2);
    IdentityRoundTrip(l.maxString, c.id, s1);
  }

  function PutContradiction(c: Contradiction, rest: Bytes): Bytes {
    var s := PutText(c.resolvedBy, rest);
    var s := PutU8(SourceCode(c.rightSource), s);
    var s := PutU16(SemanticCode(c.rightClass), s);
    var s := PutU8(SourceCode(c.leftSource), s);
    var s := PutU16(SemanticCode(c.leftClass), s);
    var s := PutText(c.rightId, s);
    PutText(c.leftId, s)
  }

  function GetContradiction(l: CodecLimits, s: Bytes): Parsed<Contradiction> {
    var (leftId, s) :- GetText(l.maxString, s);
    var (rightId, s) :- GetText(l.maxString, s);
    var identities := Policy.IsCanonicalIdentity(leftId) && Policy.IsCanonicalIdentity(rightId);
    var (leftClass, s) :- if identities then GetSemantic(s) else Err(MalformedRecord);
    var (leftSource, s) :- GetSource(s);
    var (rightClass, s) :- GetSemantic(s);
    var (rightSource, s) :- GetSource(s);
    var (resolvedBy, s) :- GetText(l.maxString, s);
    Ok((Contradiction(leftId, rightId, leftClass, leftSource, rightClass, rightSource, resolvedBy), s))
  }

  ghost predicate ContradictionInRange(c: Contradiction) {
    && IsString(c.leftId)
    && IsString(c.rightId)
    && IsString(c.resolvedBy)
  }

  /** Both identities are canonical and the text is within its bound. */
  ghost predicate ContradictionFits(l: CodecLimits, c: Contradiction) {
    && ContradictionInRange(c)
    && IsText(l.maxString, c.leftId)
    && IsText(l.maxString, c.rightId)
    && IsText(l.maxString, c.resolvedBy)
    && Policy.IsCanonicalIdentity(c.leftId)
    && Policy.IsCanonicalIdentity(c.rightId)
  }

  lemma ContradictionRoundTrip(l: CodecLimits, c: Contradiction, rest: Bytes)
    requires ContradictionInRange(c)
    ensures Restores(GetContradiction(l, PutContradiction(c, rest)), ContradictionFits(l, c), c, rest)
  {
    hide GetSemantic, GetSource, GetText, IsText, Policy.IsCanonicalIdentity, PutText, PutU16, PutU8, IsString;
    TextRoundTrip(l.maxString, c.resolvedBy, rest);
    var s6 := PutText(c.resolvedBy, rest);
    SourceRoundTrip(c.rightSource, s6);
    var s5 := PutU8(SourceCode(c.rightSource), s6);
    SemanticRoundTrip(c.rightClass, s5);
    var s4 := PutU16(SemanticCode(c.rightClass), s5);
    SourceRoundTrip(c.leftSource, s4);
    var s3 := PutU8(SourceCode(c.leftSource), s4);
    SemanticRoundTrip(c.leftClass, s3);
    var s2 := PutU16(SemanticCode(c.leftClass), s3);
    TextRoundTrip(l.maxString, c.rightId, s2);
    var s1 := PutText(c.rightId, s2);
    TextRoundTrip(l.maxString, c.leftId, s1);
  }

  function PutCitationItem(): (EvidenceCitation, Bytes) -> Bytes {
    (x: EvidenceCitation, rest: Bytes) => PutCitation(x, rest)
  }

  function GetCitationItem(l: CodecLimits): Bytes -> Parsed<EvidenceCitation> {
    (s: Bytes) => GetCitation(l, s)
  }

  lemma CitationsInvert(l: CodecLimits, xs: seq<EvidenceCitation>)
    requires forall x | x in xs :: CitationInRange(x)
    ensures Faithful(PutCitationItem(), GetCitationItem(l), xs)
    ensures Readable(PutCitationItem(), GetCitationItem(l), xs) <==> forall x | x in xs :: CitationFits(l, x)
  {
    hide PutCitation, GetCitation, CitationFits, CitationInRange, Readable, Faithful, Restores;
    forall x, rest: Bytes | x in xs
      ensures Restores(GetCitationItem(l)(PutCitationItem()(x, rest)), CitationFits(l, x), x, rest)
    {
      CitationRoundTrip(l, x, rest);
    }
    Judged(PutCitationItem(), GetCitationItem(l), x => CitationFits(l, x), xs);
  }

  function PutContradictionItem(): (Contradiction, Bytes) -> Bytes {
    (x: Contradiction, rest: Bytes) => PutContradiction(x, rest)
  }

  function GetContradictionItem(l: CodecLimits): Bytes -> Parsed<Contradiction> {
    (s: Bytes) => GetContradiction(l, s)
  }

  lemma ContradictionsInvert(l: CodecLimits, xs: seq<Contradiction>)
    requires forall x | x in xs :: ContradictionInRange(x)
    ensures Faithful(PutContradictionItem(), GetContradictionItem(l), xs)
    ensures Readable(PutContradictionItem(), GetContradictionItem(l), xs) <==> forall x | x in xs :: ContradictionFits(l, x)
  {
    hide PutContradiction, GetContradiction, ContradictionFits, ContradictionInRange, Readable, Faithful, Restores;
    forall x, rest: Bytes | x in xs
      ensures Restores(GetContradictionItem(l)(PutContradictionItem()(x, rest)), ContradictionFits(l, x), x, rest)
    {
      ContradictionRoundTrip(l, x, rest);
    }
    Judged(PutContradictionItem(), GetContradictionItem(l), x => ContradictionFits(l, x), xs);
  }

  function PutClassification(c: Classification, rest: Bytes): Bytes {
    var s := PutCollection(PutContradictionItem(), c.contradictions, rest);
    var s := PutCollection(PutCitationItem(), c.citations, s);
    var s := PutBlob(c.digest, s);
    var s := PutU64(c.decidedTick, s);
    var s := PutU64(c.coordinatorBoot, s);
    var s := PutU64(c.coordinatorEpoch, s);
    var s := PutBlob(c.policyDigest, s);
    var s := PutU64(c.policyGeneration, s);
    var s := PutU32(c.appliedPenalty, s);
    var s := PutU32(c.corroborationCount, s);
    var s := PutU8(SourceCode(c.selectedSource), s);
    var s := PutText(c.selectedEvidence, s);
    var s := PutU32(c.confidence, s);
    var s := PutU8(ClassificationStateCode(c.state), s);
    var s := PutU16(SemanticCode(c.semantic), s);
    var s := PutU64(c.flowGeneration, s);
    var s := PutFlowId(c.flowId, s);
    PutU8(1, s)
  }

  type ClassificationVerdict = (FlowId, nat, SemanticClass, ClassificationState, Confidence, string, EvidenceSource)

  function GetClassificationVerdict(l: CodecLimits, s: Bytes): Parsed<ClassificationVerdict> {
    var (_, s) :- GetVersion(1, s);
    var (flowId, s) :- GetFlowId(s);
    var (flowGeneration, s) :- GetU64(s);
    var (semantic, s) :- GetSemantic(s);
    var (state, s) :- GetClassificationState(s);
    var (confidence, s) :- GetConfidence(s);
    var (selectedEvidence, s) :- GetOptional(l.maxString, s);
    var (selectedSource, s) :- GetSource(s);
    Ok(((flowId, flowGeneration, semantic, state, confidence, selectedEvidence, selectedSource), s))
  }

  type ClassificationAccount = (nat, nat, nat, Digest, nat, nat, nat, Digest, seq<EvidenceCitation>, seq<Contradiction>)

  function GetClassificationAccount(l: CodecLimits, s: Bytes): Parsed<ClassificationAccount> {
    var (corroboration, s) :- GetU32(s);
    var (penalty, s) :- GetU32(s);
    var (policyGeneration, s) :- GetU64(s);
    var (policyDigest, s) :- GetDigest(s);
    var (epoch, s) :- GetU64(s);
    var (boot, s) :- GetU64(s);
    var (decidedTick, s) :- GetU64(s);
    var (digest, s) :- GetDigest(s);
    var (citations, s) :- GetCollection(GetCitationItem(l), l.maxCollection, s);
    var (contradictions, s) :- GetCollection(GetContradictionItem(l), l.maxCollection, s);
    Ok(((corroboration, penalty, policyGeneration, policyDigest, epoch, boot, decidedTick, digest, citations,
         contradictions), s))
  }

  function GetClassification(l: CodecLimits, s: Bytes): Parsed<Classification> {
    var (verdict, s) :- GetClassificationVerdict(l, s);
    var (account, s) :- GetClassificationAccount(l, s);
    var (flowId, flowGeneration, semantic, state, confidence, selectedEvidence, selectedSource) := verdict;
    var (corroboration, penalty, policyGeneration, policyDigest, epoch, boot, decidedTick, digest, citations,
         contradictions) := account;
    Ok((Classification(flowId, flowGeneration, semantic, state, confidence, selectedEvidence, selectedSource, citations,
                       contradictions, corroboration, penalty, policyGeneration, policyDigest, epoch, boot, decidedTick,
                           digest), s))
  }

  ghost predicate ClassificationInRange(c: Classification) {
    && IsFlowId(c.flowId)
    && IsU64(c.flowGeneration)
    && IsString(c.selectedEvidence)
    && IsU32(c.corroborationCount)
    && IsU32(c.appliedPenalty)
    && IsU64(c.policyGeneration)
    && IsDigest(c.policyDigest)
    && IsU64(c.coordinatorEpoch)
    && IsU64(c.coordinatorBoot)
    && IsU64(c.decidedTick)
    && IsDigest(c.digest)
    && IsU32(|c.citations|)
    && (forall x | x in c.citations :: CitationInRange(x))
    && IsU32(|c.contradictions|)
    && (forall x | x in c.contradictions :: ContradictionInRange(x))
  }

  /** Digests are 32 bytes, collections are within bounds and every field fits its width. */
  ghost predicate ClassificationFits(l: CodecLimits, c: Classification) {
    && ClassificationInRange(c)
    && IsOptional(l.maxString, c.selectedEvidence)
    && |c.citations| <= l.maxCollection
    && (forall x | x in c.citations :: CitationFits(l, x))
    && |c.contradictions| <= l.maxCollection
    && (forall x | x in c.contradictions :: ContradictionFits(l, x))
  }

  lemma ClassificationRoundTrip(l: CodecLimits, c: Classification, rest: Bytes)
    requires ClassificationInRange(c)
    ensures Restores(GetClassification(l, PutClassification(c, rest)), ClassificationFits(l, c), c, rest)
  {
    hide CitationFits, ContradictionFits, GetCitationItem, GetClassificationState, GetCollection, GetConfidence,
         GetContradictionItem, GetDigest, GetFlowId, GetOptional, GetSemantic, GetSource, GetU32, GetU64, GetVersion,
         Inverse, IsDigest, IsFlowId, IsOptional, IsU32, IsU64, PutBlob, PutCitationItem, PutCollection,
         PutContradictionItem, PutFlowId, PutText, PutU16, PutU32, PutU64, PutU8, IsString, CitationInRange,
         ContradictionInRange, Readable, Faithful;
    ContradictionsInvert(l, c.contradictions);
    CollectionRoundTrip(PutContradictionItem(), GetContradictionItem(l), l.maxCollection, c.contradictions, rest);
    var s17 := PutCollection(PutContradictionItem(), c.contradictions, rest);
    CitationsInvert(l, c.citations);
    CollectionRoundTrip(PutCitationItem(), GetCitationItem(l), l.maxCollection, c.citations, s17);
    var s16 := PutCollection(PutCitationItem(), c.citations, s17);
    DigestRoundTrip(c.digest, s16);
    var s15 := PutBlob(c.digest, s16);
    U64RoundTrip(c.decidedTick, s15);
    var s14 := PutU64(c.decidedTick, s15);
    U64RoundTrip(c.coordinatorBoot, s14);
    var s13 := PutU64(c.coordinatorBoot, s14);
    U64RoundTrip(c.coordinatorEpoch, s13);
    var s12 := PutU64(c.coordinatorEpoch, s13);
    DigestRoundTrip(c.policyDigest, s12);
    var s11 := PutBlob(c.policyDigest, s12);
    U64RoundTrip(c.policyGeneration, s11);
    var s10 := PutU64(c.policyGeneration, s11);
    U32RoundTrip(c.appliedPenalty, s10);
    var s9 := PutU32(c.appliedPenalty, s10);
    U32RoundTrip(c.corroborationCount, s9);
    var s8 := PutU32(c.corroborationCount, s9);
    SourceRoundTrip(c.selectedSource, s8);
    var s7 := PutU8(SourceCode(c.selectedSource), s8);
    OptionalRoundTrip(l.maxString, c.selectedEvidence, s7);
    var s6 := PutText(c.selectedEvidence, s7);
    ConfidenceRoundTrip(c.confidence, s6);
    var s5 := PutU32(c.confidence, s6);
    ClassificationStateRoundTrip(c.state, s5);
    var s4 := PutU8(ClassificationStateCode(c.state), s5);
    SemanticRoundTrip(c.semantic, s4);
    var s3 := PutU16(SemanticCode(c.semantic), s4);
    U64RoundTrip(c.flowGeneration, s3);
    var s2 := PutU64(c.flowGeneration, s3);
    FlowIdRoundTrip(c.flowId, s2);
    var s1 := PutFlowId(c.flowId, s2);
    VersionRoundTrip(1, s1);
  }

  // ---- revocations and supersessions --------------------------------------

  function PutRevocation(r: RevocationRecord, rest: Bytes): Bytes {
    var s := PutText(r.reason, rest);
    var s := PutU64(r.revokedTick, s);
    var s := PutU64(r.seqno, s);
    var s := PutU64(r.epoch, s);
    var s := PutText(r.revokedByPublisher, s);
    var s := PutText(r.revokedBySession, s);
    var s := PutText(r.evidenceId, s);
    var s := PutU64(r.flowGeneration, s);
    var s := PutFlowId(r.flowId, s);
    PutU8(1, s)
  }

  function GetRevocation(l: CodecLimits, s: Bytes): Parsed<RevocationRecord> {
    var (_, s) :- GetVersion(1, s);
    var (flowId, s) :- GetFlowId(s);
    var (flowGeneration, s) :- GetU64(s);
    var (evidenceId, s) :- GetOptional(l.maxString, s);
    var (session, s) :- GetOptional(l.maxString, s);
    var (publisher, s) :- GetIdentity(l.maxString, s);
    var (epoch, s) :- GetU64(s);
    var (seqno, s) :- GetU64(s);
    var (tick, s) :- GetU64(s);
    var (reason, s) :- GetText(l.maxString, s);
    Ok((RevocationRecord(flowId, flowGeneration, evidenceId, session, publisher, epoch, seqno, tick, reason), s))
  }

  ghost predicate RevocationInRange(r: RevocationRecord) {
    && IsFlowId(r.flowId)
    && IsU64(r.flowGeneration)
    && IsString(r.evidenceId)
    && IsString(r.revokedBySession)
    && IsString(r.revokedByPublisher)
    && IsU64(r.epoch)
    && IsU64(r.seqno)
    && IsU64(r.revokedTick)
    && IsString(r.reason)
  }

  /** Identities are canonical and every field fits its width. */
  ghost predicate RevocationFits(l: CodecLimits, r: RevocationRecord) {
    && RevocationInRange(r)
    && IsOptional(l.maxString, r.evidenceId)
    && IsOptional(l.maxString, r.revokedBySession)
    && IsIdentity(l.maxString, r.revokedByPublisher)
    && IsText(l.maxString, r.reason)
  }

  lemma RevocationRoundTrip(l: CodecLimits, r: RevocationRecord, rest: Bytes)
    requires RevocationInRange(r)
    ensures Restores(GetRevocation(l, PutRevocation(r, rest)), RevocationFits(l, r), r, rest)
  {
    hide GetFlowId, GetIdentity, GetOptional, GetText, GetU64, GetVersion, IsFlowId, IsIdentity, IsOptional, IsText,
         IsU64, PutFlowId, PutText, PutU64, PutU8, IsString;
    TextRoundTrip(l.maxString, r.reason, rest);
    var s9 := PutText(r.reason, rest);
    U64RoundTrip(r.revokedTick, s9);
    var s8 := PutU64(r.revokedTick, s9);
    U64RoundTrip(r.seqno, s8);
    var s7 := PutU64(r.seqno, s8);
    U64RoundTrip(r.epoch, s7);
    var s6 := PutU64(r.epoch, s7);
    IdentityRoundTrip(l.maxString, r.revokedByPublisher, s6);
    var s5 := PutText(r.revokedByPublisher, s6);
    OptionalRoundTrip(l.maxString, r.revokedBySession, s5);
    var s4 := PutText(r.revokedBySession, s5);
    OptionalRoundTrip(l.maxString, r.evidenceId, s4);
    var s3 := PutText(r.evidenceId, s4);
    U64RoundTrip(r.flowGeneration, s3);
    var s2 := PutU64(r.flowGeneration, s3);
    FlowIdRoundTrip(r.flowId, s2);
    var s1 := PutFlowId(r.flowId, s2);
    VersionRoundTrip(1, s1);
  }

  function PutSupersession(r: SupersessionRecord, rest: Bytes): Bytes {
    var s := PutU64(r.recordedTick, rest);
    var s := PutU64(r.seqno, s);
    var s := PutText(r.publisher, s);
    var s := PutU64(r.replacementGeneration, s);
    var s := PutU64(r.previousGeneration, s);
    var s := PutText(r.replacementId, s);
    var s := PutText(r.previousId, s);
    PutU8(1, s)
  }

  function GetSupersession(l: CodecLimits, s: Bytes): Parsed<SupersessionRecord> {
    var (_, s) :- GetVersion(1, s);
    var (previous, s) :- GetText(l.maxString, s);
    var (replacement, s) :- GetText(l.maxString, s);
    var identities := Policy.IsCanonicalIdentity(previous) && Policy.IsCanonicalIdentity(replacement);
    var (previousGeneration, s) :- if identities then GetU64(s) else Err(MalformedRecord);
    var (replacementGeneration, s) :- GetU64(s);
    var (publisher, s) :- GetIdentity(l.maxString, s);
    var (seqno, s) :- GetU64(s);
    var (tick, s) :- GetU64(s);
    Ok((SupersessionRecord(previous, replacement, previousGeneration, replacementGeneration, publisher, seqno, tick), s))
  }

  ghost predicate SupersessionInRange(r: SupersessionRecord) {
    && IsString(r.previousId)
    && IsString(r.replacementId)
    && IsU64(r.previousGeneration)
    && IsU64(r.replacementGeneration)
    && IsString(r.publisher)
    && IsU64(r.seqno)
    && IsU64(r.recordedTick)
  }

  /** Identities are canonical and every field fits its width. */
  ghost predicate SupersessionFits(l: CodecLimits, r: SupersessionRecord) {
    && SupersessionInRange(r)
    && IsText(l.maxString, r.previousId)
    && IsText(l.maxString, r.replacementId)
    && IsIdentity(l.maxString, r.publisher)
    && Policy.IsCanonicalIdentity(r.previousId)
    && Policy.IsCanonicalIdentity(r.replacementId)
  }

  lemma SupersessionRoundTrip(l: CodecLimits, r: SupersessionRecord, rest: Bytes)
    requires SupersessionInRange(r)
    ensures Restores(GetSupersession(l, PutSupersession(r, rest)), SupersessionFits(l, r), r, rest)
  {
    hide GetIdentity, GetText, GetU64, GetVersion, IsIdentity, IsText, IsU64, Policy.IsCanonicalIdentity, PutText,
         PutU64, PutU8, IsString;
    U64RoundTrip(r.recordedTick, rest);
    var s7 := PutU64(r.recordedTick, rest);
    U64RoundTrip(r.seqno, s7);
    var s6 := PutU64(r.seqno, s7);
    IdentityRoundTrip(l.maxString, r.publisher, s6);
    var s5 := PutText(r.publisher, s6);
    U64RoundTrip(r.replacementGeneration, s5);
    var s4 := PutU64(r.replacementGeneration, s5);
    U64RoundTrip(r.previousGeneration, s4);
    var s3 := PutU64(r.previousGeneration, s4);
    TextRoundTrip(l.maxString, r.replacementId, s3);
    var s2 := PutText(r.replacementId, s3);
    TextRoundTrip(l.maxString, r.previousId, s2);
    var s1 := PutText(r.previousId, s2);
    VersionRoundTrip(1, s1);
  }

  // ---- the policy ---------------------------------------------------------

  function PutAdapter(a: HeuristicAdapter, rest: Bytes): Bytes {
    var s := PutU32(a.priority, rest);
    var s := PutU32(a.maxBasisPoints, s);
    var s := PutFlag(a.enabled, s);
    PutText(a.name, s)
  }

  function GetAdapter(l: CodecLimits, s: Bytes): Parsed<HeuristicAdapter> {
    var (name, s) :- GetText(l.maxString, s);
    var (enabled, s) :- GetFlag(s);
    var (maxBasisPoints, s) :- GetU32(s);
    var (priority, s) :- GetU32(s);
    Ok((HeuristicAdapter(name, enabled, maxBasisPoints, priority), s))
  }

  ghost predicate AdapterInRange(a: HeuristicAdapter) {
    && IsString(a.name)
    && IsU32(a.maxBasisPoints)
    && IsU32(a.priority)
  }

  /** The name is within its bound and every field fits its width. */
  ghost predicate AdapterFits(l: CodecLimits, a: HeuristicAdapter) {
    && AdapterInRange(a)
    && IsText(l.maxString, a.name)
  }

  lemma AdapterRoundTrip(l: CodecLimits, a: HeuristicAdapter, rest: Bytes)
    requires AdapterInRange(a)
    ensures Restores(GetAdapter(l, PutAdapter(a, rest)), AdapterFits(l, a), a, rest)
  {
    hide GetFlag, GetText, GetU32, IsText, IsU32, PutFlag, PutText, PutU32, IsString;
    U32RoundTrip(a.priority, rest);
    var s3 := PutU32(a.priority, rest);
    U32RoundTrip(a.maxBasisPoints, s3);
    var s2 := PutU32(a.maxBasisPoints, s3);
    FlagRoundTrip(a.enabled, s2);
    var s1 := PutFlag(a.enabled, s2);
    TextRoundTrip(l.maxString, a.name, s1);
  }

  function PutHint(h: PortHint, rest: Bytes): Bytes {
    var s := PutText(h.adapter, rest);
    var s := PutU32(h.basisPoints, s);
    var s := PutU16(SemanticCode(h.semantic), s);
    var s := PutU16(h.port, s);
    PutU8(TransportCode(h.transport), s)
  }

  function GetHint(l: CodecLimits, s: Bytes): Parsed<PortHint> {
    var (transport, s) :- GetTransport(s);
    var (port, s) :- GetU16(s);
    var (semantic, s) :- GetSemantic(s);
    var (basisPoints, s) :- GetU32(s);
    var (adapter, s) :- GetText(l.maxString, s);
    Ok((PortHint(transport, port, semantic, basisPoints, adapter), s))
  }

  ghost predicate HintInRange(h: PortHint) {
    && IsU16(h.port)
    && IsU32(h.basisPoints)
    && IsString(h.adapter)
  }

  /** The adapter name is within its bound and every field fits its width. */
  ghost predicate HintFits(l: CodecLimits, h: PortHint) {
    && HintInRange(h)
    && IsText(l.maxString, h.adapter)
  }

  lemma HintRoundTrip(l: CodecLimits, h: PortHint, rest: Bytes)
    requires HintInRange(h)
    ensures Restores(GetHint(l, PutHint(h, rest)), HintFits(l, h), h, rest)
  {
    hide GetSemantic, GetText, GetTransport, GetU16, GetU32, IsText, IsU16, IsU32, PutText, PutU16, PutU32, PutU8,
         IsString;
    TextRoundTrip(l.maxString, h.adapter, rest);
    var s4 := PutText(h.adapter, rest);
    U32RoundTrip(h.basisPoints, s4);
    var s3 := PutU32(h.basisPoints, s4);
    SemanticRoundTrip(h.semantic, s3);
    var s2 := PutU16(SemanticCode(h.semantic), s3);
    U16RoundTrip(h.port, s2);
    var s1 := PutU16(h.port, s2);
    TransportRoundTrip(h.transport, s1);
  }

  function PutAdapterItem(): (HeuristicAdapter, Bytes) -> Bytes {
    (x: HeuristicAdapter, rest: Bytes) => PutAdapter(x, rest)
  }

  function GetAdapterItem(l: CodecLimits): Bytes -> Parsed<HeuristicAdapter> {
    (s: Bytes) => GetAdapter(l, s)
  }

  lemma AdaptersInvert(l: CodecLimits, xs: seq<HeuristicAdapter>)
    requires forall x | x in xs :: AdapterInRange(x)
    ensures Faithful(PutAdapterItem(), GetAdapterItem(l), xs)
    ensures Readable(PutAdapterItem(), GetAdapterItem(l), xs) <==> forall x | x in xs :: AdapterFits(l, x)
  {
    hide PutAdapter, GetAdapter, AdapterFits, AdapterInRange, Readable, Faithful, Restores;
    forall x, rest: Bytes | x in xs
      ensures Restores(GetAdapterItem(l)(PutAdapterItem()(x, rest)), AdapterFits(l, x), x, rest)
    {
      AdapterRoundTrip(l, x, rest);
    }
    Judged(PutAdapterItem(), GetAdapterItem(l), x => AdapterFits(l, x), xs);
  }

  function PutHintItem(): (PortHint, Bytes) -> Bytes {
    (x: PortHint, rest: Bytes) => PutHint(x, rest)
  }

  function GetHintItem(l: CodecLimits): Bytes -> Parsed<PortHint> {
    (s: Bytes) => GetHint(l, s)
  }

  lemma HintsInvert(l: CodecLimits, xs: seq<PortHint>)
    requires forall x | x in xs :: HintInRange(x)
    ensures Faithful(PutHintItem(), GetHintItem(l), xs)
    ensures Readable(PutHintItem(), GetHintItem(l), xs) <==> forall x | x in xs :: HintFits(l, x)
  {
    hide PutHint, GetHint, HintFits, HintInRange, Readable, Faithful, Restores;
    forall x, rest: Bytes | x in xs
      ensures Restores(GetHintItem(l)(PutHintItem()(x, rest)), HintFits(l, x), x, rest)
    {
      HintRoundTrip(l, x, rest);
    }
    Judged(PutHintItem(), GetHintItem(l), x => HintFits(l, x), xs);
  }

  /** The limits in the order they are written. */
  function LimitWords(r: ResourceLimits): (w: seq<nat>)
    ensures |w| == 26
  {
    [r.maxFlows, r.maxPublishers, r.maxWorkloads, r.maxContracts, r.maxPendingContracts, r.maxSessions,
     r.maxConfigOverrides, r.maxEvidencePerFlow, r.maxEvidenceRecords, r.maxDecisionsPerFlow,
     r.maxContradictionsPerFlow, r.maxContradictions, r.maxSupersessions, r.maxRevocations, r.maxFlowKeyIndex,
     r.maxFramePayload, r.maxStringBytes, r.maxBlobBytes, r.maxCollectionCount, r.maxBatchKeys, r.maxWorkers,
     r.maxQueueDepth, r.maxInflightRequests, r.maxRetryAttempts, r.defaultFreshnessWindow, r.maxSessionIdleTicks]
  }

  function LimitsOf(w: seq<nat>): ResourceLimits
    requires |w| == 26
  {
    ResourceLimits(w[0], w[1], w[2], w[3], w[4], w[5], w[6], w[7], w[8], w[9], w[10], w[11], w[12], w[13], w[14],
                       w[15], w[16], w[17], w[18], w[19], w[20], w[21], w[22], w[23], w[24], w[25])
  }

  lemma LimitsOfWords(r: ResourceLimits)
    ensures LimitsOf(LimitWords(r)) == r
  {
  }

  function PutLimit(): (nat, Bytes) -> Bytes {
    (n: nat, rest: Bytes) => PutU64(n, rest)
  }

  function GetLimit(): Bytes -> Parsed<nat> {
    (s: Bytes) => GetU64(s)
  }

  lemma LimitsInvert(w: seq<nat>)
    requires forall n | n in w :: IsU64(n)
    ensures Readable(PutLimit(), GetLimit(), w) && Faithful(PutLimit(), GetLimit(), w)
  {
    hide PutU64, GetU64, IsU64;
    forall n, rest: Bytes | n in w
      ensures GetLimit()(PutLimit()(n, rest)) == Ok((n, rest))
    {
      U64RoundTrip(n, rest);
    }
  }

  /** The first 24 limits are held in 32 bits. */
  predicate LimitsNarrow(w: seq<nat>)
    requires |w| == 26
  {
    forall i | 0 <= i < 24 :: w[i] <= 0xFFFF_FFFF
  }

  function PutLimits(r: ResourceLimits, rest: Bytes): Bytes {
    PutEach(PutLimit(), LimitWords(r), rest)
  }

  function GetLimits(s: Bytes): Parsed<ResourceLimits> {
    var (words, s) :- GetEach(GetLimit(), 26, s);
    if |words| != 26 || !LimitsNarrow(words) then Err(CorruptState) else Ok((LimitsOf(words), s))
  }

  ghost predicate LimitsFit(r: ResourceLimits) {
    LimitsNarrow(LimitWords(r)) && forall n | n in LimitWords(r) :: IsU64(n)
  }

  lemma LimitsRoundTrip(r: ResourceLimits, rest: Bytes)
    requires LimitsFit(r)
    ensures GetLimits(PutLimits(r, rest)) == Ok((r, rest))
  {
    hide PutEach, GetEach, LimitWords, LimitsOf, LimitsNarrow, PutLimit, GetLimit, IsU64, Inverse, Readable, Faithful;
    LimitsInvert(LimitWords(r));
    EachRoundTrip(PutLimit(), GetLimit(), LimitWords(r), rest);
    LimitsOfWords(r);
  }

  function PutPolicy(p: ClassifierPolicy, rest: Bytes): Bytes {
    var s := PutCollection(PutHintItem(), p.portHints, rest);
    var s := PutCollection(PutAdapterItem(), p.heuristicAdapters, s);
    var s := PutLimits(p.limits, s);
    var s := PutU32(p.maxEvidenceConsidered, s);
    var s := PutU32(p.minimumPublishableConfidence, s);
    var s := PutU32(p.contradictionPenalty, s);
    var s := PutU64(p.defaultFreshnessWindow, s);
    var s := PutFlag(p.allowHeuristicEvidence, s);
    var s := PutU64(p.generation, s);
    PutU8(1, s)
  }

  function GetPolicy(l: CodecLimits, s: Bytes): Parsed<ClassifierPolicy> {
    var (_, s) :- GetVersion(1, s);
    var (generation, s) :- GetU64(s);
    var (heuristics, s) :- GetFlag(s);
    var (freshness, s) :- GetU64(s);
    var (penalty, s) :- GetU32(s);
    var (threshold, s) :- GetU32(s);
    var (considered, s) :- GetU32(s);
    var (limits, s) :- GetLimits(s);
    var (adapters, s) :- GetCollection(GetAdapterItem(l), l.maxCollection, s);
    var (hints, s) :- GetCollection(GetHintItem(l), l.maxCollection, s);
    var read := ClassifierPolicy(generation, limits, heuristics, freshness, penalty, threshold, considered, adapters, hints);
    var canonical := Policy.Canonicalized(read);
    if canonical.Err? then Err(CorruptState) else Ok((canonical.value, s))
  }

  ghost predicate PolicyInRange(p: ClassifierPolicy) {
    && IsU64(p.generation)
    && IsU64(p.defaultFreshnessWindow)
    && IsU32(p.contradictionPenalty)
    && IsU32(p.minimumPublishableConfidence)
    && IsU32(p.maxEvidenceConsidered)
    && LimitsFit(p.limits)
    && IsU32(|p.heuristicAdapters|)
    && (forall x | x in p.heuristicAdapters :: AdapterInRange(x))
    && IsU32(|p.portHints|)
    && (forall x | x in p.portHints :: HintInRange(x))
    && Policy.Canonicalized(p) == Ok(p)
  }

  /** The policy is canonical and every field fits its width. */
  ghost predicate PolicyFits(l: CodecLimits, p: ClassifierPolicy) {
    && PolicyInRange(p)
    && |p.heuristicAdapters| <= l.maxCollection
    && (forall x | x in p.heuristicAdapters :: AdapterFits(l, x))
    && |p.portHints| <= l.maxCollection
    && (forall x | x in p.portHints :: HintFits(l, x))
  }

  lemma PolicyRoundTrip(l: CodecLimits, p: ClassifierPolicy, rest: Bytes)
    requires PolicyInRange(p)
    ensures Restores(GetPolicy(l, PutPolicy(p, rest)), PolicyFits(l, p), p, rest)
  {
    hide AdapterFits, GetAdapterItem, GetCollection, GetFlag, GetHintItem, GetLimits, GetU32, GetU64, GetVersion,
         HintFits, Inverse, IsU32, IsU64, LimitsFit, Policy.Canonicalized, PutAdapterItem, PutCollection, PutFlag,
         PutHintItem, PutLimits, PutU32, PutU64, PutU8, AdapterInRange, HintInRange, Readable, Faithful;
    HintsInvert(l, p.portHints);
    CollectionRoundTrip(PutHintItem(), GetHintItem(l), l.maxCollection, p.portHints, rest);
    var s9 := PutCollection(PutHintItem(), p.portHints, rest);
    AdaptersInvert(l, p.heuristicAdapters);
    CollectionRoundTrip(PutAdapterItem(), GetAdapterItem(l), l.maxCollection, p.heuristicAdapters, s9);
    var s8 := PutCollection(PutAdapterItem(), p.heuristicAdapters, s9);
    LimitsRoundTrip(p.limits, s8);
    var s7 := PutLimits(p.limits, s8);
    U32RoundTrip(p.maxEvidenceConsidered, s7);
    var s6 := PutU32(p.maxEvidenceConsidered, s7);
    U32RoundTrip(p.minimumPublishableConfidence, s6);
    var s5 := PutU32(p.minimumPublishableConfidence, s6);
    U32RoundTrip(p.contradictionPenalty, s5);
    var s4 := PutU32(p.contradictionPenalty, s5);
    U64RoundTrip(p.defaultFreshnessWindow, s4);
    var s3 := PutU64(p.defaultFreshnessWindow, s4);
    FlagRoundTrip(p.allowHeuristicEvidence, s3);
    var s2 := PutFlag(p.allowHeuristicEvidence, s3);
    U64RoundTrip(p.generation, s2);
    var s1 := PutU64(p.generation, s2);
    VersionRoundTrip(1, s1);
  }
}
