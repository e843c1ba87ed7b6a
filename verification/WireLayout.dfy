/**
 * The bytes the encoders write, said apart from how: words by their numerals, records by their
 * fields in wire order, headers by their offsets, and the check value of the checksum.
 */
module WireLayout {
  import opened Domain
  import opened LittleEndian
  import opened Wire
  import opened Records
  import opened DigestEncoders
  import opened SnapshotBody
  import opened Restart
  import Crc32
  import Frame
  import Snapshot
  import Sha256

  // ---- words --------------------------------------------------------------

  /** Byte i of a word is its digit at 256 to the i. */
  function Numeral(width: nat, value: nat): (s: Bytes)
    ensures |s| == width
  {
    seq(width, i requires 0 <= i < width => Digit(value, i))
  }

  function Digit(value: nat, i: nat): byte {
    PowerPositive(i);
    value / Power(i) % 256
  }

  lemma {:induction false} PowerPositive(i: nat)
    ensures Power(i) > 0
  {
    if i > 0 {
      PowerPositive(i - 1);
    }
  }

  lemma DivideTwice(value: nat, p: nat)
    requires p > 0
    ensures value / 256 / p == value / (256 * p)
  {
    var q, r := value / 256, value % 256;
    var a, b := q / p, q % p;
    assert value == 256 * (p * a + b) + r;
    assert 256 * b + r < 256 * p;
    assert value == (256 * p) * a + (256 * b + r);
    QuotientIs(value, 256 * p, a, 256 * b + r);
  }

  lemma QuotientIs(value: nat, d: nat, q: nat, r: nat)
    requires d > 0 && r < d && value == d * q + r
    ensures value / d == q
  {
    var k := value / d;
    assert value == d * k + value % d;
    if k < q {
      TimesGrows(d, k + 1, q);
    } else if q < k {
      TimesGrows(d, q + 1, k);
    }
  }

  lemma TimesGrows(d: nat, a: nat, b: nat)
    requires a <= b
    ensures d * a <= d * b
  {
  }

  lemma {:induction false} StoredDigit(width: nat, value: nat, i: nat)
    requires i < width
    ensures StoreLe(width, value)[i] == Digit(value, i)
  {
    if i > 0 {
      StoredDigit(width - 1, value / 256, i - 1);
      PowerPositive(i - 1);
      DivideTwice(value, Power(i - 1));
    }
  }

  /** The little-endian store writes the numeral. */
  lemma StoreIsNumeral(width: nat, value: nat)
    ensures StoreLe(width, value) == Numeral(width, value)
  {
    hide StoreLe, Digit;
    forall i | 0 <= i < width
      ensures StoreLe(width, value)[i] == Digit(value, i)
    {
      StoredDigit(width, value, i);
    }
  }

  // ---- values -------------------------------------------------------------

  function Byte1(value: nat, rest: Bytes): Bytes {
    Numeral(1, value) + rest
  }

  function Byte2(value: nat, rest: Bytes): Bytes {
    Numeral(2, value) + rest
  }

  function Byte4(value: nat, rest: Bytes): Bytes {
    Numeral(4, value) + rest
  }

  function Byte8(value: nat, rest: Bytes): Bytes {
    Numeral(8, value) + rest
  }

  /** A length and the bytes. */
  function Counted(blob: Bytes, rest: Bytes): Bytes {
    Byte4(|blob|, blob + rest)
  }

  /** A length and the characters. */
  function Spelled(s: string, rest: Bytes): Bytes {
    if IsByteText(s) then Counted(seq(|s|, i requires 0 <= i < |s| => s[i] as int), rest) else Counted([], rest)
  }

  function Truth(b: bool, rest: Bytes): Bytes {
    Byte1(if b then 1 else 0, rest)
  }

  function Named(id: FlowId, rest: Bytes): Bytes {
    Byte8(id.hi, Byte8(id.lo, rest))
  }

  lemma WordsAreLaid()
    ensures forall n, s :: PutU8(n, s) == Byte1(n, s) && PutU16(n, s) == Byte2(n, s)
    ensures forall n, s :: PutU32(n, s) == Byte4(n, s) && PutU64(n, s) == Byte8(n, s)
  {
    hide StoreLe, Numeral;
    forall n, s: Bytes
      ensures PutU8(n, s) == Byte1(n, s) && PutU16(n, s) == Byte2(n, s) && PutU32(n, s) == Byte4(n, s)
              && PutU64(n, s) == Byte8(n, s)
    {
      StoreIsNumeral(1, n);
      StoreIsNumeral(2, n);
      StoreIsNumeral(4, n);
      StoreIsNumeral(8, n);
    }
  }

  lemma ValuesAreLaid()
    ensures forall n, s :: PutU8(n, s) == Byte1(n, s) && PutU16(n, s) == Byte2(n, s)
    ensures forall n, s :: PutU32(n, s) == Byte4(n, s) && PutU64(n, s) == Byte8(n, s)
    ensures forall b, s :: PutBlob(b, s) == Counted(b, s)
    ensures forall t, s :: PutText(t, s) == Spelled(t, s)
    ensures forall b, s :: PutFlag(b, s) == Truth(b, s)
    ensures forall id, s :: PutFlowId(id, s) == Named(id, s)
  {
    hide PutU8, PutU16, PutU32, PutU64, Byte1, Byte2, Byte4, Byte8;
    WordsAreLaid();
  }

  /** A collection is its count and its elements, first to last. */
  lemma {:induction false} ElementsInOrder<T(!new)>(put: (T, Bytes) -> Bytes, xs: seq<T>, ys: seq<T>, rest: Bytes)
    ensures PutEach(put, xs + ys, rest) == PutEach(put, xs, PutEach(put, ys, rest))
    ensures forall x :: PutEach(put, [x], rest) == put(x, rest)
    ensures PutCollection(put, xs, rest) == Byte4(|xs|, PutEach(put, xs, rest))
  {
    hide PutU32, Byte4;
    WordsAreLaid();
    if xs == [] {
      assert xs + ys == ys;
    } else {
      ElementsInOrder(put, xs[1..], ys, rest);
      assert (xs + ys)[1..] == xs[1..] + ys;
    }
  }

  // ---- records, field by field -----------------------------------------------

  lemma FlowKeyIsLaid(k: FlowKey, rest: Bytes)
    ensures PutFlowKey(k, rest) ==
            Byte1(TransportCode(k.transport), Counted(k.localAddress, Counted(k.remoteAddress, Byte2(k.localPort,
            Byte2(k.remotePort, rest)))))
  {
    hide PutU8, PutU16, PutU32, PutU64, PutBlob, PutText, PutFlag, PutFlowId, Byte1, Byte2, Byte4, Byte8, Counted,
         Spelled, Truth, Named;
    ValuesAreLaid();
  }

  lemma FlowIsLaid(r: FlowRecord, rest: Bytes)
    ensures PutFlow(r, rest) ==
            Byte1(1, Named(r.id, PutFlowKey(r.key, Byte8(r.generation, Byte8(r.registeredSeq, Byte8(r.registeredTick,
            Byte8(r.lastActivityTick, Spelled(r.registeredBy, Byte8(r.renewals, rest)))))))))
  {
    hide PutU8, PutU16, PutU32, PutU64, PutBlob, PutText, PutFlag, PutFlowId, Byte1, Byte2, Byte4, Byte8, Counted,
         Spelled, Truth, Named, PutFlowKey;
    ValuesAreLaid();
  }

  lemma PublisherIsLaid(r: PublisherRecord, rest: Bytes)
    ensures PutPublisher(r, rest) ==
            Byte1(1, Spelled(r.id, Byte8(r.highestBoot, Byte8(r.highestGeneration, Byte1(SourceCode(r.maxSource),
            Byte8(r.firstSeenTick, Byte8(r.lastSeenWallMillis, Byte8(r.totalEvidenceAccepted, Spelled(r.description,
            rest)))))))))
  {
    hide PutU8, PutU16, PutU32, PutU64, PutBlob, PutText, PutFlag, PutFlowId, Byte1, Byte2, Byte4, Byte8, Counted,
         Spelled, Truth, Named;
    ValuesAreLaid();
  }

  lemma WorkloadIsLaid(r: WorkloadRecord, rest: Bytes)
    ensures PutWorkload(r, rest) ==
            Byte1(1, Spelled(r.id, Spelled(r.owner, Byte8(r.generation, Byte1(WorkloadStateCode(r.state),
            Spelled(r.activeContract, Byte8(r.declaredTick, Byte8(r.activatedTick, Byte8(r.retiredTick,
            Spelled(r.description, rest))))))))))
  {
    hide PutU8, PutU16, PutU32, PutU64, PutBlob, PutText, PutFlag, PutFlowId, Byte1, Byte2, Byte4, Byte8, Counted,
         Spelled, Truth, Named;
    ValuesAreLaid();
  }

  lemma ContractIsLaid(c: WorkloadContract, rest: Bytes)
    ensures PutContract(c, rest) ==
            Byte1(1, Spelled(c.id, Spelled(c.workload, Byte8(c.workloadGeneration, Spelled(c.owner,
            Byte1(ContractStateCode(c.state), Byte2(SemanticCode(c.declaredClass), Truth(c.matchAnyRemoteAddress,
            PutCollection(PutAddressItem(), c.remoteScope, PutCollection(PutPortItem(), c.localPortScope,
            Byte2(c.remotePort, Byte1(TransportCode(c.transport), Byte1(SourceCode(c.derivedSource),
            Counted(c.definitionDigest, Byte8(c.createdTick, Byte8(c.activatedTick, Byte8(c.retiredTick,
            Spelled(c.description, rest))))))))))))))))))
  {
    hide PutU8, PutU16, PutU32, PutU64, PutBlob, PutText, PutFlag, PutFlowId, Byte1, Byte2, Byte4, Byte8, Counted,
         Spelled, Truth, Named, PutCollection;
    ValuesAreLaid();
  }

  lemma EvidenceIsLaid(r: EvidenceRecord, rest: Bytes)
    ensures PutEvidence(r, rest) ==
            Byte1(1, Spelled(r.id, Spelled(r.publisher, Byte8(r.publisherBoot, Spelled(r.session,
            Byte8(r.acceptedEpoch, Byte8(r.acceptedBoot, Spelled(r.workload, Byte8(r.workloadGeneration,
            Spelled(r.contract, Named(r.flowId, Byte8(r.flowGeneration, Byte8(r.generation, Byte8(r.acceptedSeq,
            Byte8(r.acceptedTick, Byte8(r.freshUntil, Byte2(SemanticCode(r.semantic), Byte1(SourceCode(r.source),
            Byte1(EvidenceStateCode(r.state), Byte4(r.confidence, Spelled(r.metadata.topic, Byte8(r.metadata.binding,
            Spelled(r.metadata.reason, Spelled(r.metadata.contract, Counted(r.contentDigest, Spelled(r.stateReason,
            rest))))))))))))))))))))))))))
  {
    hide PutU8, PutU16, PutU32, PutU64, PutBlob, PutText, PutFlag, PutFlowId, Byte1, Byte2, Byte4, Byte8, Counted,
         Spelled, Truth, Named;
    ValuesAreLaid();
  }

  lemma CitationIsLaid(c: EvidenceCitation, rest: Bytes)
    ensures PutCitation(c, rest) ==
            Spelled(c.id, Spelled(c.publisher, Byte1(SourceCode(c.source), Byte1(EvidenceStateCode(c.state),
            Byte2(SemanticCode(c.semantic), Byte1(DispositionCode(c.disposition), Byte4(c.confidence,
            Byte8(c.generation, Byte8(c.acceptedSeq, Byte8(c.acceptedTick, Byte8(c.freshUntil, Spelled(c.detail,
            rest))))))))))))
  {
    hide PutU8, PutU16, PutU32, PutU64, PutBlob, PutText, PutFlag, PutFlowId, Byte1, Byte2, Byte4, Byte8, Counted,
         Spelled, Truth, Named;
    ValuesAreLaid();
  }

  lemma ContradictionIsLaid(c: Contradiction, rest: Bytes)
    ensures PutContradiction(c, rest) ==
            Spelled(c.leftId, Spelled(c.rightId, Byte2(SemanticCode(c.leftClass), Byte1(SourceCode(c.leftSource),
            Byte2(SemanticCode(c.rightClass), Byte1(SourceCode(c.rightSource), Spelled(c.resolvedBy, rest)))))))
  {
    hide PutU8, PutU16, PutU32, PutU64, PutBlob, PutText, PutFlag, PutFlowId, Byte1, Byte2, Byte4, Byte8, Counted,
         Spelled, Truth, Named;
    ValuesAreLaid();
  }

  lemma ClassificationIsLaid(c: Classification, rest: Bytes)
    ensures PutClassification(c, rest) ==
            Byte1(1, Named(c.flowId, Byte8(c.flowGeneration, Byte2(SemanticCode(c.semantic),
            Byte1(ClassificationStateCode(c.state), Byte4(c.confidence, Spelled(c.selectedEvidence,
            Byte1(SourceCode(c.selectedSource), Byte4(c.corroborationCount, Byte4(c.appliedPenalty,
            Byte8(c.policyGeneration, Counted(c.policyDigest, Byte8(c.coordinatorEpoch, Byte8(c.coordinatorBoot,
            Byte8(c.decidedTick, Counted(c.digest, PutCollection(PutCitationItem(), c.citations,
            PutCollection(PutContradictionItem(), c.contradictions, rest))))))))))))))))))
  {
    hide PutU8, PutU16, PutU32, PutU64, PutBlob, PutText, PutFlag, PutFlowId, Byte1, Byte2, Byte4, Byte8, Counted,
         Spelled, Truth, Named, PutCollection;
    ValuesAreLaid();
  }

  lemma RevocationIsLaid(r: RevocationRecord, rest: Bytes)
    ensures PutRevocation(r, rest) ==
            Byte1(1, Named(r.flowId, Byte8(r.flowGeneration, Spelled(r.evidenceId, Spelled(r.revokedBySession,
            Spelled(r.revokedByPublisher, Byte8(r.epoch, Byte8(r.seqno, Byte8(r.revokedTick, Spelled(r.reason,
            rest))))))))))
  {
    hide PutU8, PutU16, PutU32, PutU64, PutBlob, PutText, PutFlag, PutFlowId, Byte1, Byte2, Byte4, Byte8, Counted,
         Spelled, Truth, Named;
    ValuesAreLaid();
  }

  lemma SupersessionIsLaid(r: SupersessionRecord, rest: Bytes)
    ensures PutSupersession(r, rest) ==
            Byte1(1, Spelled(r.previousId, Spelled(r.replacementId, Byte8(r.previousGeneration,
            Byte8(r.replacementGeneration, Spelled(r.publisher, Byte8(r.seqno, Byte8(r.recordedTick, rest))))))))
  {
    hide PutU8, PutU16, PutU32, PutU64, PutBlob, PutText, PutFlag, PutFlowId, Byte1, Byte2, Byte4, Byte8, Counted,
         Spelled, Truth, Named;
    ValuesAreLaid();
  }

  lemma AdapterIsLaid(a: HeuristicAdapter, rest: Bytes)
    ensures PutAdapter(a, rest) ==
            Spelled(a.name, Truth(a.enabled, Byte4(a.maxBasisPoints, Byte4(a.priority, rest))))
  {
    hide PutU8, PutU16, PutU32, PutU64, PutBlob, PutText, PutFlag, PutFlowId, Byte1, Byte2, Byte4, Byte8, Counted,
         Spelled, Truth, Named;
    ValuesAreLaid();
  }

  lemma HintIsLaid(h: PortHint, rest: Bytes)
    ensures PutHint(h, rest) ==
            Byte1(TransportCode(h.transport), Byte2(h.port, Byte2(SemanticCode(h.semantic), Byte4(h.basisPoints,
            Spelled(h.adapter, rest)))))
  {
    hide PutU8, PutU16, PutU32, PutU64, PutBlob, PutText, PutFlag, PutFlowId, Byte1, Byte2, Byte4, Byte8, Counted,
         Spelled, Truth, Named;
    ValuesAreLaid();
  }

  lemma PolicyIsLaid(p: ClassifierPolicy, rest: Bytes)
    ensures PutPolicy(p, rest) ==
            Byte1(1, Byte8(p.generation, Truth(p.allowHeuristicEvidence, Byte8(p.defaultFreshnessWindow,
            Byte4(p.contradictionPenalty, Byte4(p.minimumPublishableConfidence, Byte4(p.maxEvidenceConsidered,
            PutLimits(p.limits, PutCollection(PutAdapterItem(), p.heuristicAdapters,
            PutCollection(PutHintItem(), p.portHints, rest))))))))))
  {
    hide PutU8, PutU16, PutU32, PutU64, PutBlob, PutText, PutFlag, PutFlowId, Byte1, Byte2, Byte4, Byte8, Counted,
         Spelled, Truth, Named, PutCollection, PutLimits;
    ValuesAreLaid();
  }

  lemma DefinitionIsLaid(c: WorkloadContract, rest: Bytes)
    ensures PutDefinition(c, rest) ==
            Byte1(1, Spelled(c.id, Spelled(c.workload, Byte8(c.workloadGeneration, Spelled(c.owner,
            Byte2(SemanticCode(c.declaredClass), Truth(c.matchAnyRemoteAddress,
            PutCollection(PutAddressItem(), c.remoteScope, PutCollection(PutPortItem(), c.localPortScope,
            Byte2(c.remotePort, Byte1(TransportCode(c.transport), Byte1(SourceCode(c.derivedSource),
            Spelled(c.description, rest)))))))))))))
  {
    hide PutU8, PutU16, PutU32, PutU64, PutBlob, PutText, PutFlag, PutFlowId, Byte1, Byte2, Byte4, Byte8, Counted,
         Spelled, Truth, Named, PutCollection;
    ValuesAreLaid();
  }

  lemma ContentIsLaid(r: EvidenceRecord, rest: Bytes)
    ensures PutContent(r, rest) ==
            Byte1(1, Spelled(r.id, Spelled(r.publisher, Byte8(r.publisherBoot, Spelled(r.workload,
            Byte8(r.workloadGeneration, Spelled(r.contract, Named(r.flowId, Byte8(r.flowGeneration,
            Byte8(r.generation, Byte2(SemanticCode(r.semantic), Byte1(SourceCode(r.source), Byte4(r.confidence,
            Spelled(r.metadata.topic, Byte8(r.metadata.binding, Spelled(r.metadata.reason,
            Spelled(r.metadata.contract, Byte8(r.freshUntil, rest))))))))))))))))))
  {
    hide PutU8, PutU16, PutU32, PutU64, PutBlob, PutText, PutFlag, PutFlowId, Byte1, Byte2, Byte4, Byte8, Counted,
         Spelled, Truth, Named;
    ValuesAreLaid();
  }

  lemma BodyIsLaid(d: DurableState, rest: Bytes)
    ensures PutBody(d, rest) ==
            Byte1(1, PutPolicy(d.policy, PutCollection(PutPublisherRecord(), d.publishers,
            PutCollection(PutWorkloadRecord(), d.workloads, PutCollection(PutContractRecord(), d.contracts,
            PutCollection(PutFlowRecord(), d.flows, PutCollection(PutEvidenceRecord(), d.evidence,
            PutCollection(PutClassificationRecord(), d.classifications,
            PutCollection(PutRevocationRecord(), d.revocations,
            PutCollection(PutSupersessionRecord(), d.supersessions, rest))))))))))
  {
    hide PutU8, PutU16, PutU32, PutU64, PutBlob, PutText, PutFlag, PutFlowId, Byte1, Byte2, Byte4, Byte8, Counted,
         Spelled, Truth, Named, PutPolicy, PutCollection;
    ValuesAreLaid();
  }

  /** The limits are twenty-six words, in this order. */
  lemma LimitsAreLaid(r: ResourceLimits, rest: Bytes)
    ensures PutLimits(r, rest) == PutEach(PutLimit(), [
              r.maxFlows, r.maxPublishers, r.maxWorkloads, r.maxContracts, r.maxPendingContracts, r.maxSessions,
              r.maxConfigOverrides, r.maxEvidencePerFlow, r.maxEvidenceRecords, r.maxDecisionsPerFlow,
              r.maxContradictionsPerFlow, r.maxContradictions, r.maxSupersessions, r.maxRevocations, r.maxFlowKeyIndex,
              r.maxFramePayload, r.maxStringBytes, r.maxBlobBytes, r.maxCollectionCount, r.maxBatchKeys, r.maxWorkers,
              r.maxQueueDepth, r.maxInflightRequests, r.maxRetryAttempts, r.defaultFreshnessWindow,
              r.maxSessionIdleTicks], rest)
  {
    hide PutEach;
  }

  // ---- the codes of the enumerations ------------------------------------------

  lemma EvidenceCodes()
    ensures SourceCode(UnknownSource) == 0 && SourceCode(DeclaredAuthenticated) == 1 && SourceCode(ContractDerived) == 2
            && SourceCode(CoordinatorCorrelated) == 3 && SourceCode(TopologyCorrelated) == 4 && SourceCode(Heuristic) == 5
    ensures EvidenceStateCode(EvidenceNone) == 0 && EvidenceStateCode(EvidenceCurrent) == 1
            && EvidenceStateCode(EvidenceStale) == 2 && EvidenceStateCode(EvidenceSuperseded) == 3
            && EvidenceStateCode(EvidenceRevoked) == 4 && EvidenceStateCode(EvidenceInsufficient) == 5
            && EvidenceStateCode(EvidenceRejected) == 6
  {
  }

  lemma DecisionCodes()
    ensures ClassificationStateCode(StateUnknown) == 0 && ClassificationStateCode(Current) == 1
            && ClassificationStateCode(Corroborated) == 2 && ClassificationStateCode(Contradicted) == 3
            && ClassificationStateCode(Stale) == 4 && ClassificationStateCode(Insufficient) == 5
            && ClassificationStateCode(Revoked) == 6
    ensures DispositionCode(Selected) == 0 && DispositionCode(Corroborating) == 1 && DispositionCode(Contradicting) == 2
            && DispositionCode(Subordinate) == 3 && DispositionCode(StaleRecord) == 4 && DispositionCode(Withdrawn) == 5
            && DispositionCode(RevokedRecord) == 6 && DispositionCode(RejectedRecord) == 7
            && DispositionCode(ExcludedByLimit) == 8 && DispositionCode(BelowThreshold) == 9
  {
  }

  lemma ClassCodes()
    ensures SemanticCode(UnknownClass) == 0 && SemanticCode(Collective) == 1 && SemanticCode(TrainingSync) == 2
            && SemanticCode(InferenceRequest) == 3 && SemanticCode(PrefillDecodeHandoff) == 4
            && SemanticCode(KvStateTransfer) == 5 && SemanticCode(ModelStateTransfer) == 6 && SemanticCode(Shuffle) == 7
            && SemanticCode(Checkpoint) == 8 && SemanticCode(StorageData) == 9 && SemanticCode(ControlPlane) == 10
            && SemanticCode(Telemetry) == 11
  {
  }

  lemma TransportCodes()
    ensures TransportCode(UnknownTransport) == 0 && TransportCode(Tcp) == 1 && TransportCode(Udp) == 2
            && TransportCode(Sctp) == 3 && TransportCode(Rdma) == 4
  {
  }

  lemma StageCodes()
    ensures WorkloadStateCode(WorkloadDeclared) == 0 && WorkloadStateCode(WorkloadActive) == 1
            && WorkloadStateCode(WorkloadRetired) == 2
    ensures ContractStateCode(ContractPending) == 0 && ContractStateCode(ContractActive) == 1
            && ContractStateCode(ContractRetired) == 2
  {
  }

  // ---- headers, by offset -----------------------------------------------------

  lemma FrameIsLaid(h: Frame.FrameHeader, payload: Bytes)
    ensures var f := Frame.Encoded(h, payload);
            && |f| == 44 + |payload|
            && f[0..4] == [0x41, 0x49, 0x46, 0x43]
            && f[4..6] == Numeral(2, h.version) && f[6..8] == Numeral(2, h.kind) && f[8..12] == Numeral(4, h.flags)
            && f[12..20] == Numeral(8, h.sequence) && f[20..28] == Numeral(8, h.epoch) && f[28..36] == Numeral(8, h.boot)
            && f[36..40] == Numeral(4, |payload|)
            && f[40..44] == Frame.TagOf(Crc32.Checksum(f[..40] + [0, 0, 0, 0] + payload))
            && f[44..] == payload
  {
    hide StoreLe, Numeral, Frame.Prefix, Frame.TagOf, Crc32.Checksum, Frame.Encoded;
    Frame.PrefixSlices(h, |payload|);
    Frame.EncodedSlices(h, payload, []);
    StoreIsNumeral(2, h.version);
    StoreIsNumeral(2, h.kind);
    StoreIsNumeral(4, h.flags);
    StoreIsNumeral(8, h.sequence);
    StoreIsNumeral(8, h.epoch);
    StoreIsNumeral(8, h.boot);
    StoreIsNumeral(4, |payload|);
    var f, p := Frame.Encoded(h, payload), Frame.Prefix(h, |payload|);
    assert f + [] == f;
    assert f[0..4] == p[0..4] == p[..4];
    assert f[44..] == f[44..44 + |payload|];
  }

  lemma SnapshotIsLaid(s: Snapshot.StateSnapshot, body: Bytes)
    ensures var f := Snapshot.Sealed(Snapshot.Prefix(s, body), body);
            && |f| == 88 + |body|
            && f[0..4] == [0x41, 0x49, 0x46, 0x53]
            && f[4..6] == Numeral(2, s.format) && f[6..8] == Numeral(2, s.generation) && f[8..16] == Numeral(8, |body|)
            && f[16..24] == Numeral(8, s.state.epoch) && f[24..32] == Numeral(8, s.state.boot)
            && f[32..40] == Numeral(8, s.state.sequence) && f[40..48] == Numeral(8, s.writtenAt)
            && f[48..80] == Sha256.Hash(body)
            && f[80..84] == Frame.TagOf(Crc32.Checksum(f[..80] + [0, 0, 0, 0] + [0, 0, 0, 0]))
            && f[84..88] == [0, 0, 0, 0]
            && f[88..] == body
  {
    hide StoreLe, Numeral, Snapshot.Prefix, Snapshot.Sealed, Snapshot.Fields, Frame.TagOf, Crc32.Checksum, Sha256.Hash;
    Snapshot.SealedSlices(s, body);
    Snapshot.FieldSlices(s, |body|);
    StoreIsNumeral(2, s.format);
    StoreIsNumeral(2, s.generation);
    StoreIsNumeral(8, |body|);
    StoreIsNumeral(8, s.state.epoch);
    StoreIsNumeral(8, s.state.boot);
    StoreIsNumeral(8, s.state.sequence);
    StoreIsNumeral(8, s.writtenAt);
    var f, p := Snapshot.Sealed(Snapshot.Prefix(s, body), body), Snapshot.Fields(s, |body|);
    assert f[0..4] == p[0..4] == p[..4];
  }

  // ---- the padding of a hashed message ----------------------------------------

  lemma {:induction false} BigEndianDigit(width: nat, value: nat, i: nat)
    requires i < width
    ensures Sha256.BigEndian(width, value)[width - 1 - i] == Digit(value, i)
  {
    if i > 0 {
      BigEndianDigit(width - 1, value / 256, i - 1);
      PowerPositive(i - 1);
      DivideTwice(value, Power(i - 1));
    }
  }

  /** A one bit, the fewest zeros that fill the block, and the length in bits, highest byte first. */
  lemma PaddingIsLaid(n: nat)
    ensures var p := Sha256.Padding(n);
            && 9 <= |p| <= 72 && (n + |p|) % 64 == 0 && p[0] == 0x80
            && (forall i | 1 <= i < |p| - 8 :: p[i] == 0)
            && (forall i: nat | i < 8 :: p[|p| - 1 - i] == Digit(8 * n, i))
  {
    hide Digit, Sha256.BigEndian;
    var p := Sha256.Padding(n);
    forall i: nat | i < 8
      ensures p[|p| - 1 - i] == Digit(8 * n, i)
    {
      BigEndianDigit(8, 8 * n, i);
    }
  }

  // ---- the check value of the checksum ----------------------------------------

  lemma CheckByte1()
    ensures Crc32.SerialBits(0xffffffff, Crc32.AsBits(49), 8) == 0x7c231048
  {
    hide Crc32.SerialBits, Crc32.Shifts, Crc32.AsBits;
    Crc32.SerialByteShifts(0xffffffff, Crc32.AsBits(49));
    CheckDigits();
    CheckShifts1();
  }

  lemma CheckShifts1()
    ensures Crc32.Shifts(0xffffffce, 8) == 0x7c231048
  {
    assert Crc32.Shifts(0xffffffce, 1) == 0x7fffffe7;
    assert Crc32.Shifts(0xffffffce, 2) == 0xd2477cd3;
    assert Crc32.Shifts(0xffffffce, 3) == 0x849b3d49;
    assert Crc32.Shifts(0xffffffce, 4) == 0xaff51d84;
    assert Crc32.Shifts(0xffffffce, 5) == 0x57fa8ec2;
    assert Crc32.Shifts(0xffffffce, 6) == 0x2bfd4761;
    assert Crc32.Shifts(0xffffffce, 7) == 0xf8462090;
  }

  lemma CheckByte2()
    ensures Crc32.SerialBits(0x7c231048, Crc32.AsBits(50), 8) == 0xb0acbb32
  {
    hide Crc32.SerialBits, Crc32.Shifts, Crc32.AsBits;
    Crc32.SerialByteShifts(0x7c231048, Crc32.AsBits(50));
    CheckDigits();
    CheckShifts2();
  }

  lemma CheckShifts2()
    ensures Crc32.Shifts(0x7c23107a, 8) == 0xb0acbb32
  {
    assert Crc32.Shifts(0x7c23107a, 1) == 0x3e11883d;
    assert Crc32.Shifts(0x7c23107a, 2) == 0xf2b0473e;
    assert Crc32.Shifts(0x7c23107a, 3) == 0x7958239f;
    assert Crc32.Shifts(0x7c23107a, 4) == 0xd11492ef;
    assert Crc32.Shifts(0x7c23107a, 5) == 0x8532ca57;
    assert Crc32.Shifts(0x7c23107a, 6) == 0xaf21e60b;
    assert Crc32.Shifts(0x7c23107a, 7) == 0xba287025;
  }

  lemma CheckByte3()
    ensures Crc32.SerialBits(0xb0acbb32, Crc32.AsBits(51), 8) == 0x77b79c2d
  {
    hide Crc32.SerialBits, Crc32.Shifts, Crc32.AsBits;
    Crc32.SerialByteShifts(0xb0acbb32, Crc32.AsBits(51));
    CheckDigits();
    CheckShifts3();
  }

  lemma CheckShifts3()
    ensures Crc32.Shifts(0xb0acbb01, 8) == 0x77b79c2d
  {
    assert Crc32.Shifts(0xb0acbb01, 1) == 0xb5eedea0;
    assert Crc32.Shifts(0xb0acbb01, 2) == 0x5af76f50;
    assert Crc32.Shifts(0xb0acbb01, 3) == 0x2d7bb7a8;
    assert Crc32.Shifts(0xb0acbb01, 4) == 0x16bddbd4;
    assert Crc32.Shifts(0xb0acbb01, 5) == 0x0b5eedea;
    assert Crc32.Shifts(0xb0acbb01, 6) == 0x05af76f5;
    assert Crc32.Shifts(0xb0acbb01, 7) == 0xef6f385a;
  }

  lemma CheckByte4()
    ensures Crc32.SerialBits(0x77b79c2d, Crc32.AsBits(52), 8) == 0x641c1f5c
  {
    hide Crc32.SerialBits, Crc32.Shifts, Crc32.AsBits;
    Crc32.SerialByteShifts(0x77b79c2d, Crc32.AsBits(52));
    CheckDigits();
    CheckShifts4();
  }

  lemma CheckShifts4()
    ensures Crc32.Shifts(0x77b79c19, 8) == 0x641c1f5c
  {
    assert Crc32.Shifts(0x77b79c19, 1) == 0xd6634d2c;
    assert Crc32.Shifts(0x77b79c19, 2) == 0x6b31a696;
    assert Crc32.Shifts(0x77b79c19, 3) == 0x3598d34b;
    assert Crc32.Shifts(0x77b79c19, 4) == 0xf774ea85;
    assert Crc32.Shifts(0x77b79c19, 5) == 0x9602f662;
    assert Crc32.Shifts(0x77b79c19, 6) == 0x4b017b31;
    assert Crc32.Shifts(0x77b79c19, 7) == 0xc8383eb8;
  }

  lemma CheckByte5()
    ensures Crc32.SerialBits(0x641c1f5c, Crc32.AsBits(53), 8) == 0x340ac5e3
  {
    hide Crc32.SerialBits, Crc32.Shifts, Crc32.AsBits;
    Crc32.SerialByteShifts(0x641c1f5c, Crc32.AsBits(53));
    CheckDigits();
    CheckShifts5();
  }

  lemma CheckShifts5()
    ensures Crc32.Shifts(0x641c1f69, 8) == 0x340ac5e3
  {
    assert Crc32.Shifts(0x641c1f69, 1) == 0xdfb68c94;
    assert Crc32.Shifts(0x641c1f69, 2) == 0x6fdb464a;
    assert Crc32.Shifts(0x641c1f69, 3) == 0x37eda325;
    assert Crc32.Shifts(0x641c1f69, 4) == 0xf64e52b2;
    assert Crc32.Shifts(0x641c1f69, 5) == 0x7b272959;
    assert Crc32.Shifts(0x641c1f69, 6) == 0xd02b178c;
    assert Crc32.Shifts(0x641c1f69, 7) == 0x68158bc6;
  }

  lemma CheckByte6()
    ensures Crc32.SerialBits(0x340ac5e3, Crc32.AsBits(54), 8) == 0xf68d2c9e
  {
    hide Crc32.SerialBits, Crc32.Shifts, Crc32.AsBits;
    Crc32.SerialByteShifts(0x340ac5e3, Crc32.AsBits(54));
    CheckDigits();
    CheckShifts6();
  }

  lemma CheckShifts6()
    ensures Crc32.Shifts(0x340ac5d5, 8) == 0xf68d2c9e
  {
    assert Crc32.Shifts(0x340ac5d5, 1) == 0xf7bde1ca;
    assert Crc32.Shifts(0x340ac5d5, 2) == 0x7bdef0e5;
    assert Crc32.Shifts(0x340ac5d5, 3) == 0xd057fb52;
    assert Crc32.Shifts(0x340ac5d5, 4) == 0x682bfda9;
    assert Crc32.Shifts(0x340ac5d5, 5) == 0xd9ad7df4;
    assert Crc32.Shifts(0x340ac5d5, 6) == 0x6cd6befa;
    assert Crc32.Shifts(0x340ac5d5, 7) == 0x366b5f7d;
  }

  lemma CheckByte7()
    ensures Crc32.SerialBits(0xf68d2c9e, Crc32.AsBits(55), 8) == 0xaffc9660
  {
    hide Crc32.SerialBits, Crc32.Shifts, Crc32.AsBits;
    Crc32.SerialByteShifts(0xf68d2c9e, Crc32.AsBits(55));
    CheckDigits();
    CheckShifts7();
  }

  lemma CheckShifts7()
    ensures Crc32.Shifts(0xf68d2ca9, 8) == 0xaffc9660
  {
    assert Crc32.Shifts(0xf68d2ca9, 1) == 0x96fe1574;
    assert Crc32.Shifts(0xf68d2ca9, 2) == 0x4b7f0aba;
    assert Crc32.Shifts(0xf68d2ca9, 3) == 0x25bf855d;
    assert Crc32.Shifts(0xf68d2ca9, 4) == 0xff67418e;
    assert Crc32.Shifts(0xf68d2ca9, 5) == 0x7fb3a0c7;
    assert Crc32.Shifts(0xf68d2ca9, 6) == 0xd2615343;
    assert Crc32.Shifts(0xf68d2ca9, 7) == 0x84882a81;
  }

  lemma CheckByte8()
    ensures Crc32.SerialBits(0xaffc9660, Crc32.AsBits(56), 8) == 0x651f2550
  {
    hide Crc32.SerialBits, Crc32.Shifts, Crc32.AsBits;
    Crc32.SerialByteShifts(0xaffc9660, Crc32.AsBits(56));
    CheckDigits();
    CheckShifts8();
  }

  lemma CheckShifts8()
    ensures Crc32.Shifts(0xaffc9658, 8) == 0x651f2550
  {
    assert Crc32.Shifts(0xaffc9658, 1) == 0x57fe4b2c;
    assert Crc32.Shifts(0xaffc9658, 2) == 0x2bff2596;
    assert Crc32.Shifts(0xaffc9658, 3) == 0x15ff92cb;
    assert Crc32.Shifts(0xaffc9658, 4) == 0xe7474a45;
    assert Crc32.Shifts(0xaffc9658, 5) == 0x9e1b2602;
    assert Crc32.Shifts(0xaffc9658, 6) == 0x4f0d9301;
    assert Crc32.Shifts(0xaffc9658, 7) == 0xca3e4aa0;
  }

  lemma CheckByte9()
    ensures Crc32.SerialBits(0x651f2550, Crc32.AsBits(57), 8) == 0x340bc6d9
  {
    hide Crc32.SerialBits, Crc32.Shifts, Crc32.AsBits;
    Crc32.SerialByteShifts(0x651f2550, Crc32.AsBits(57));
    CheckDigits();
    CheckShifts9();
  }

  lemma CheckShifts9()
    ensures Crc32.Shifts(0x651f2569, 8) == 0x340bc6d9
  {
    assert Crc32.Shifts(0x651f2569, 1) == 0xdf371194;
    assert Crc32.Shifts(0x651f2569, 2) == 0x6f9b88ca;
    assert Crc32.Shifts(0x651f2569, 3) == 0x37cdc465;
    assert Crc32.Shifts(0x651f2569, 4) == 0xf65e6112;
    assert Crc32.Shifts(0x651f2569, 5) == 0x7b2f3089;
    assert Crc32.Shifts(0x651f2569, 6) == 0xd02f1b64;
    assert Crc32.Shifts(0x651f2569, 7) == 0x68178db2;
  }

  lemma CheckDigits()
    ensures Crc32.AsBits(49) == 49
    ensures Crc32.AsBits(50) == 50
    ensures Crc32.AsBits(51) == 51
    ensures Crc32.AsBits(52) == 52
    ensures Crc32.AsBits(53) == 53
    ensures Crc32.AsBits(54) == 54
    ensures Crc32.AsBits(55) == 55
    ensures Crc32.AsBits(56) == 56
    ensures Crc32.AsBits(57) == 57
  {
  }

  lemma OneMoreByte(data: seq<byte>, b: byte, c: bv32, d: bv32)
    requires Crc32.Serial(Crc32.START, data) == c && Crc32.SerialBits(c, Crc32.AsBits(b), 8) == d
    ensures Crc32.Serial(Crc32.START, data + [b]) == d
  {
    hide Crc32.SerialBits;
    assert (data + [b])[..|data|] == data;
  }

  /** The published check value: the CRC of the digits one to nine. */
  lemma CheckValue()
    ensures Crc32.Checksum([0x31, 0x32, 0x33, 0x34, 0x35, 0x36, 0x37, 0x38, 0x39]) == 0xcbf43926
  {
    hide Crc32.SerialBits, Crc32.AsBits, Crc32.Serial;
    NoBytes();
    CheckByte1();
    OneMoreByte([], 0x31, 0xffffffff, 0x7c231048);
    assert [] + [0x31] == [0x31];
    CheckByte2();
    OneMoreByte([0x31], 0x32, 0x7c231048, 0xb0acbb32);
    assert [0x31] + [0x32] == [0x31, 0x32];
    CheckByte3();
    OneMoreByte([0x31, 0x32], 0x33, 0xb0acbb32, 0x77b79c2d);
    assert [0x31, 0x32] + [0x33] == [0x31, 0x32, 0x33];
    CheckByte4();
    OneMoreByte([0x31, 0x32, 0x33], 0x34, 0x77b79c2d, 0x641c1f5c);
    assert [0x31, 0x32, 0x33] + [0x34] == [0x31, 0x32, 0x33, 0x34];
    CheckByte5();
    OneMoreByte([0x31, 0x32, 0x33, 0x34], 0x35, 0x641c1f5c, 0x340ac5e3);
    assert [0x31, 0x32, 0x33, 0x34] + [0x35] == [0x31, 0x32, 0x33, 0x34, 0x35];
    CheckByte6();
    OneMoreByte([0x31, 0x32, 0x33, 0x34, 0x35], 0x36, 0x340ac5e3, 0xf68d2c9e);
    assert [0x31, 0x32, 0x33, 0x34, 0x35] + [0x36] == [0x31, 0x32, 0x33, 0x34, 0x35, 0x36];
    CheckByte7();
    OneMoreByte([0x31, 0x32, 0x33, 0x34, 0x35, 0x36], 0x37, 0xf68d2c9e, 0xaffc9660);
    assert [0x31, 0x32, 0x33, 0x34, 0x35, 0x36] + [0x37] == [0x31, 0x32, 0x33, 0x34, 0x35, 0x36, 0x37];
    CheckByte8();
    OneMoreByte([0x31, 0x32, 0x33, 0x34, 0x35, 0x36, 0x37], 0x38, 0xaffc9660, 0x651f2550);
    assert [0x31, 0x32, 0x33, 0x34, 0x35, 0x36, 0x37] + [0x38] == [0x31, 0x32, 0x33, 0x34, 0x35, 0x36, 0x37, 0x38];
    CheckByte9();
    OneMoreByte([0x31, 0x32, 0x33, 0x34, 0x35, 0x36, 0x37, 0x38], 0x39, 0x651f2550, 0x340bc6d9);
    assert [0x31, 0x32, 0x33, 0x34, 0x35, 0x36, 0x37, 0x38] + [0x39] == [0x31, 0x32, 0x33, 0x34, 0x35, 0x36, 0x37, 0x38, 0x39];
  }

  lemma NoBytes()
    ensures Crc32.Serial(Crc32.START, []) == 0xffffffff
  {
  }

  /** The checksum is stored low byte first. */
  lemma CheckTag()
    ensures Frame.TagOf(0xcbf43926) == [0x26, 0x39, 0xf4, 0xcb]
  {
  }
}
