/**
 * The body of a durable image: the policy and eight collections of records.
 */
module SnapshotBody {
  import opened Domain
  import opened Wire
  import opened Records
  import opened Restart

  const BODY_SCHEMA: nat := 1

  datatype SnapshotLimits = SnapshotLimits(maxFileBytes: nat, maxRecords: nat, codec: CodecLimits)

  // ---- a collection of records --------------------------------------------

  /** A declared count larger than the bytes that remain is refused before any record is read. */
  function GetRecords<T>(get: Bytes -> Parsed<T>, bound: nat, s: Bytes): Parsed<seq<T>> {
    var (count, s) :- GetU32(s);
    if count > bound then Err(CapacityExceeded)
    else if count > |s| then Err(MalformedRecord)
    else GetEach(get, count, s)
  }

  ghost predicate AllGrow<T(!new)>(put: (T, Bytes) -> Bytes) {
    forall x: T :: Grows(put, x)
  }

  lemma RecordsRoundTrip<T(!new)>(put: (T, Bytes) -> Bytes, get: Bytes -> Parsed<T>, bound: nat, xs: seq<T>, rest: Bytes)
    requires IsU32(|xs|) && Faithful(put, get, xs) && AllGrow(put)
    ensures Restores(GetRecords(get, bound, PutCollection(put, xs, rest)), |xs| <= bound && Readable(put, get, xs), xs, rest)
  {
    hide PutU32, GetU32, PutEach, GetEach, Readable, Faithful, Grows;
    EachRoundTrip(put, get, xs, rest);
    EachGrows(put, xs, rest);
    U32RoundTrip(|xs|, PutEach(put, xs, rest));
  }

  lemma AddressesGrow(xs: seq<IpAddress>)
    ensures forall x | x in xs :: Grows(PutAddressItem(), x)
  {
  }

  lemma PortsGrow(xs: seq<nat>)
    ensures forall x | x in xs :: Grows(PutPortItem(), x)
  {
  }

  lemma CitationsGrow(xs: seq<EvidenceCitation>)
    ensures forall x | x in xs :: Grows(PutCitationItem(), x)
  {
  }

  lemma ContradictionsGrow(xs: seq<Contradiction>)
    ensures forall x | x in xs :: Grows(PutContradictionItem(), x)
  {
  }

  // ---- publishers ----

  function PutPublisherRecord(): (PublisherRecord, Bytes) -> Bytes {
    (x: PublisherRecord, rest: Bytes) => PutPublisher(x, rest)
  }

  function GetPublisherRecord(l: CodecLimits): Bytes -> Parsed<PublisherRecord> {
    (s: Bytes) => GetPublisher(l, s)
  }

  lemma PublisherGrows()
    ensures AllGrow(PutPublisherRecord())
  {
    hide PutU8, PutU16, PutU32, PutU64, PutFlag, PutText, PutBlob, PutFlowId;
  }

  lemma PublisherRecordsInvert(l: CodecLimits, xs: seq<PublisherRecord>)
    requires forall x | x in xs :: PublisherInRange(x)
    ensures Faithful(PutPublisherRecord(), GetPublisherRecord(l), xs)
    ensures Readable(PutPublisherRecord(), GetPublisherRecord(l), xs) <==> forall x | x in xs :: PublisherFits(l, x)
  {
    hide PutPublisher, GetPublisher, PublisherFits, PublisherInRange, Readable, Faithful, Restores;
    forall x, rest: Bytes | x in xs
      ensures Restores(GetPublisherRecord(l)(PutPublisherRecord()(x, rest)), PublisherFits(l, x), x, rest)
    {
      PublisherRoundTrip(l, x, rest);
    }
    Judged(PutPublisherRecord(), GetPublisherRecord(l), x => PublisherFits(l, x), xs);
  }

  // ---- workloads ----

  function PutWorkloadRecord(): (WorkloadRecord, Bytes) -> Bytes {
    (x: WorkloadRecord, rest: Bytes) => PutWorkload(x, rest)
  }

  function GetWorkloadRecord(l: CodecLimits): Bytes -> Parsed<WorkloadRecord> {
    (s: Bytes) => GetWorkload(l, s)
  }

  lemma WorkloadGrows()
    ensures AllGrow(PutWorkloadRecord())
  {
    hide PutU8, PutU16, PutU32, PutU64, PutFlag, PutText, PutBlob, PutFlowId;
  }

  lemma WorkloadRecordsInvert(l: CodecLimits, xs: seq<WorkloadRecord>)
    requires forall x | x in xs :: WorkloadInRange(x)
    ensures Faithful(PutWorkloadRecord(), GetWorkloadRecord(l), xs)
    ensures Readable(PutWorkloadRecord(), GetWorkloadRecord(l), xs) <==> forall x | x in xs :: WorkloadFits(l, x)
  {
    hide PutWorkload, GetWorkload, WorkloadFits, WorkloadInRange, Readable, Faithful, Restores;
    forall x, rest: Bytes | x in xs
      ensures Restores(GetWorkloadRecord(l)(PutWorkloadRecord()(x, rest)), WorkloadFits(l, x), x, rest)
    {
      WorkloadRoundTrip(l, x, rest);
    }
    Judged(PutWorkloadRecord(), GetWorkloadRecord(l), x => WorkloadFits(l, x), xs);
  }

  // ---- contracts ----

  function PutContractRecord(): (WorkloadContract, Bytes) -> Bytes {
    (x: WorkloadContract, rest: Bytes) => PutContract(x, rest)
  }

  function GetContractRecord(o: Oracles, l: CodecLimits): Bytes -> Parsed<WorkloadContract> {
    (s: Bytes) => GetContract(o, l, s)
  }

  /** What follows the scopes of a contract. */
  function ContractTail(c: WorkloadContract, rest: Bytes): (s: Bytes)
    ensures |s| > |rest|
  {
    var s := PutText(c.description, rest);
    var s := PutU64(c.retiredTick, s);
    var s := PutU64(c.activatedTick, s);
    var s := PutU64(c.createdTick, s);
    var s := PutBlob(c.definitionDigest, s);
    var s := PutU8(SourceCode(c.derivedSource), s);
    var s := PutU8(TransportCode(c.transport), s);
    PutU16(c.remotePort, s)
  }

  lemma ContractGrows()
    ensures AllGrow(PutContractRecord())
  {
    hide PutU8, PutU16, PutU32, PutU64, PutFlag, PutText, PutBlob, PutFlowId, PutCollection;
    forall x: WorkloadContract, rest: Bytes
      ensures |PutContractRecord()(x, rest)| > |rest|
    {
      AddressesGrow(x.remoteScope);
      PortsGrow(x.localPortScope);
      CollectionGrows(PutPortItem(), x.localPortScope, ContractTail(x, rest));
      CollectionGrows(PutAddressItem(), x.remoteScope, PutCollection(PutPortItem(), x.localPortScope, ContractTail(x, rest)));
    }
  }

  lemma ContractRecordsInvert(o: Oracles, l: CodecLimits, xs: seq<WorkloadContract>)
    requires forall x | x in xs :: ContractInRange(o, x)
    ensures Faithful(PutContractRecord(), GetContractRecord(o, l), xs)
    ensures Readable(PutContractRecord(), GetContractRecord(o, l), xs) <==> forall x | x in xs :: ContractFits(o, l, x)
  {
    hide PutContract, GetContract, ContractFits, ContractInRange, Readable, Faithful, Restores;
    forall x, rest: Bytes | x in xs
      ensures Restores(GetContractRecord(o, l)(PutContractRecord()(x, rest)), ContractFits(o, l, x), x, rest)
    {
      ContractRoundTrip(o, l, x, rest);
    }
    Judged(PutContractRecord(), GetContractRecord(o, l), x => ContractFits(o, l, x), xs);
  }

  // ---- flows ----

  function PutFlowRecord(): (FlowRecord, Bytes) -> Bytes {
    (x: FlowRecord, rest: Bytes) => PutFlow(x, rest)
  }

  function GetFlowRecord(o: Oracles, l: CodecLimits): Bytes -> Parsed<FlowRecord> {
    (s: Bytes) => GetFlow(o, l, s)
  }

  lemma FlowGrows()
    ensures AllGrow(PutFlowRecord())
  {
    hide PutU8, PutU16, PutU32, PutU64, PutFlag, PutText, PutBlob, PutFlowId;
  }

  lemma FlowRecordsInvert(o: Oracles, l: CodecLimits, xs: seq<FlowRecord>)
    requires forall x | x in xs :: FlowInRange(x)
    ensures Faithful(PutFlowRecord(), GetFlowRecord(o, l), xs)
    ensures Readable(PutFlowRecord(), GetFlowRecord(o, l), xs) <==> forall x | x in xs :: FlowFits(o, l, x)
  {
    hide PutFlow, GetFlow, FlowFits, FlowInRange, Readable, Faithful, Restores;
    forall x, rest: Bytes | x in xs
      ensures Restores(GetFlowRecord(o, l)(PutFlowRecord()(x, rest)), FlowFits(o, l, x), x, rest)
    {
      FlowRoundTrip(o, l, x, rest);
    }
    Judged(PutFlowRecord(), GetFlowRecord(o, l), x => FlowFits(o, l, x), xs);
  }

  // ---- evidence ----

  function PutEvidenceRecord(): (EvidenceRecord, Bytes) -> Bytes {
    (x: EvidenceRecord, rest: Bytes) => PutEvidence(x, rest)
  }

  function GetEvidenceRecord(o: Oracles, l: CodecLimits): Bytes -> Parsed<EvidenceRecord> {
    (s: Bytes) => GetEvidence(o, l, s)
  }

  lemma EvidenceGrows()
    ensures AllGrow(PutEvidenceRecord())
  {
    hide PutU8, PutU16, PutU32, PutU64, PutFlag, PutText, PutBlob, PutFlowId;
  }

  lemma EvidenceRecordsInvert(o: Oracles, l: CodecLimits, xs: seq<EvidenceRecord>)
    requires forall x | x in xs :: EvidenceInRange(x)
    ensures Faithful(PutEvidenceRecord(), GetEvidenceRecord(o, l), xs)
    ensures Readable(PutEvidenceRecord(), GetEvidenceRecord(o, l), xs) <==> forall x | x in xs :: EvidenceFits(o, l, x)
  {
    hide PutEvidence, GetEvidence, EvidenceFits, EvidenceInRange, Readable, Faithful, Restores;
    forall x, rest: Bytes | x in xs
      ensures Restores(GetEvidenceRecord(o, l)(PutEvidenceRecord()(x, rest)), EvidenceFits(o, l, x), x, rest)
    {
      EvidenceRoundTrip(o, l, x, rest);
    }
    Judged(PutEvidenceRecord(), GetEvidenceRecord(o, l), x => EvidenceFits(o, l, x), xs);
  }

  // ---- classifications ----

  function PutClassificationRecord(): (Classification, Bytes) -> Bytes {
    (x: Classification, rest: Bytes) => PutClassification(x, rest)
  }

  function GetClassificationRecord(l: CodecLimits): Bytes -> Parsed<Classification> {
    (s: Bytes) => GetClassification(l, s)
  }

  lemma ClassificationGrows()
    ensures AllGrow(PutClassificationRecord())
  {
    hide PutU8, PutU16, PutU32, PutU64, PutFlag, PutText, PutBlob, PutFlowId, PutCollection;
    forall x: Classification, rest: Bytes
      ensures |PutClassificationRecord()(x, rest)| > |rest|
    {
      CitationsGrow(x.citations);
      ContradictionsGrow(x.contradictions);
      CollectionGrows(PutContradictionItem(), x.contradictions, rest);
      CollectionGrows(PutCitationItem(), x.citations, PutCollection(PutContradictionItem(), x.contradictions, rest));
    }
  }

  lemma ClassificationRecordsInvert(l: CodecLimits, xs: seq<Classification>)
    requires forall x | x in xs :: ClassificationInRange(x)
    ensures Faithful(PutClassificationRecord(), GetClassificationRecord(l), xs)
    ensures Readable(PutClassificationRecord(), GetClassificationRecord(l), xs) <==> forall x | x in xs ::
            ClassificationFits(l, x)
  {
    hide PutClassification, GetClassification, ClassificationFits, ClassificationInRange, Readable, Faithful, Restores;
    forall x, rest: Bytes | x in xs
      ensures Restores(GetClassificationRecord(l)(PutClassificationRecord()(x, rest)), ClassificationFits(l, x), x, rest)
    {
      ClassificationRoundTrip(l, x, rest);
    }
    Judged(PutClassificationRecord(), GetClassificationRecord(l), x => ClassificationFits(l, x), xs);
  }

  // ---- revocations ----

  function PutRevocationRecord(): (RevocationRecord, Bytes) -> Bytes {
    (x: RevocationRecord, rest: Bytes) => PutRevocation(x, rest)
  }

  function GetRevocationRecord(l: CodecLimits): Bytes -> Parsed<RevocationRecord> {
    (s: Bytes) => GetRevocation(l, s)
  }

  lemma RevocationGrows()
    ensures AllGrow(PutRevocationRecord())
  {
    hide PutU8, PutU16, PutU32, PutU64, PutFlag, PutText, PutBlob, PutFlowId;
  }

  lemma RevocationRecordsInvert(l: CodecLimits, xs: seq<RevocationRecord>)
    requires forall x | x in xs :: RevocationInRange(x)
    ensures Faithful(PutRevocationRecord(), GetRevocationRecord(l), xs)
    ensures Readable(PutRevocationRecord(), GetRevocationRecord(l), xs) <==> forall x | x in xs :: RevocationFits(l, x)
  {
    hide PutRevocation, GetRevocation, RevocationFits, RevocationInRange, Readable, Faithful, Restores;
    forall x, rest: Bytes | x in xs
      ensures Restores(GetRevocationRecord(l)(PutRevocationRecord()(x, rest)), RevocationFits(l, x), x, rest)
    {
      RevocationRoundTrip(l, x, rest);
    }
    Judged(PutRevocationRecord(), GetRevocationRecord(l), x => RevocationFits(l, x), xs);
  }

  // ---- supersessions ----

  function PutSupersessionRecord(): (SupersessionRecord, Bytes) -> Bytes {
    (x: SupersessionRecord, rest: Bytes) => PutSupersession(x, rest)
  }

  function GetSupersessionRecord(l: CodecLimits): Bytes -> Parsed<SupersessionRecord> {
    (s: Bytes) => GetSupersession(l, s)
  }

  lemma SupersessionGrows()
    ensures AllGrow(PutSupersessionRecord())
  {
    hide PutU8, PutU16, PutU32, PutU64, PutFlag, PutText, PutBlob, PutFlowId;
  }

  lemma SupersessionRecordsInvert(l: CodecLimits, xs: seq<SupersessionRecord>)
    requires forall x | x in xs :: SupersessionInRange(x)
    ensures Faithful(PutSupersessionRecord(), GetSupersessionRecord(l), xs)
    ensures Readable(PutSupersessionRecord(), GetSupersessionRecord(l), xs) <==> forall x | x in xs :: SupersessionFits(l, x)
  {
    hide PutSupersession, GetSupersession, SupersessionFits, SupersessionInRange, Readable, Faithful, Restores;
    forall x, rest: Bytes | x in xs
      ensures Restores(GetSupersessionRecord(l)(PutSupersessionRecord()(x, rest)), SupersessionFits(l, x), x, rest)
    {
      SupersessionRoundTrip(l, x, rest);
    }
    Judged(PutSupersessionRecord(), GetSupersessionRecord(l), x => SupersessionFits(l, x), xs);
  }

  // ---- the body -----------------------------------------------------------

  function PutBody(d: DurableState, rest: Bytes): Bytes {
    var s := PutCollection(PutSupersessionRecord(), d.supersessions, rest);
    var s := PutCollection(PutRevocationRecord(), d.revocations, s);
    var s := PutCollection(PutClassificationRecord(), d.classifications, s);
    var s := PutCollection(PutEvidenceRecord(), d.evidence, s);
    var s := PutCollection(PutFlowRecord(), d.flows, s);
    var s := PutCollection(PutContractRecord(), d.contracts, s);
    var s := PutCollection(PutWorkloadRecord(), d.workloads, s);
    var s := PutCollection(PutPublisherRecord(), d.publishers, s);
    var s := PutPolicy(d.policy, s);
    PutU8(BODY_SCHEMA, s)
  }

  /** The version of the body; one this build does not write is refused as an unsupported format. */
  function GetSchema(s: Bytes): Parsed<()> {
    var (schema, s) :- GetU8(s);
    if schema != BODY_SCHEMA then Err(UnsupportedFormatVersion) else Ok(((), s))
  }

  lemma SchemaRoundTrip(rest: Bytes)
    ensures GetSchema(PutU8(BODY_SCHEMA, rest)) == Ok(((), rest))
  {
    hide PutU8, GetU8;
    U8RoundTrip(BODY_SCHEMA, rest);
  }

  function GetBody(o: Oracles, l: SnapshotLimits, epoch: nat, boot: nat, sequence: nat, s: Bytes): Parsed<DurableState> {
    var (_, s) :- GetSchema(s);
    var (policy, s) :- GetPolicy(l.codec, s);
    var (publishers, s) :- GetRecords(GetPublisherRecord(l.codec), l.maxRecords, s);
    var (workloads, s) :- GetRecords(GetWorkloadRecord(l.codec), l.maxRecords, s);
    var (contracts, s) :- GetRecords(GetContractRecord(o, l.codec), l.maxRecords, s);
    var (flows, s) :- GetRecords(GetFlowRecord(o, l.codec), l.maxRecords, s);
    var (evidence, s) :- GetRecords(GetEvidenceRecord(o, l.codec), l.maxRecords, s);
    var (classifications, s) :- GetRecords(GetClassificationRecord(l.codec), l.maxRecords, s);
    var (revocations, s) :- GetRecords(GetRevocationRecord(l.codec), l.maxRecords, s);
    var (supersessions, s) :- GetRecords(GetSupersessionRecord(l.codec), l.maxRecords, s);
    Ok((DurableState(policy, epoch, boot, sequence, publishers, workloads, contracts, flows, evidence, classifications,
                     revocations,
                     supersessions), s))
  }

  ghost predicate Few<T>(l: SnapshotLimits, xs: seq<T>) {
    |xs| <= l.maxRecords
  }

  /** Every number and text is one the running process can hold. */
  ghost predicate BodyInRange(o: Oracles, d: DurableState) {
    && PolicyInRange(d.policy)
    && IsU32(|d.publishers|) && (forall x | x in d.publishers :: PublisherInRange(x))
    && IsU32(|d.workloads|) && (forall x | x in d.workloads :: WorkloadInRange(x))
    && IsU32(|d.contracts|) && (forall x | x in d.contracts :: ContractInRange(o, x))
    && IsU32(|d.flows|) && (forall x | x in d.flows :: FlowInRange(x))
    && IsU32(|d.evidence|) && (forall x | x in d.evidence :: EvidenceInRange(x))
    && IsU32(|d.classifications|) && (forall x | x in d.classifications :: ClassificationInRange(x))
    && IsU32(|d.revocations|) && (forall x | x in d.revocations :: RevocationInRange(x))
    && IsU32(|d.supersessions|) && (forall x | x in d.supersessions :: SupersessionInRange(x))
  }

  /** Every record is within the bounds the reader puts on it, and no collection is over its own. */
  ghost predicate BodyFits(o: Oracles, l: SnapshotLimits, d: DurableState) {
    && PolicyFits(l.codec, d.policy)
    && Few(l, d.publishers) && (forall x | x in d.publishers :: PublisherFits(l.codec, x))
    && Few(l, d.workloads) && (forall x | x in d.workloads :: WorkloadFits(l.codec, x))
    && Few(l, d.contracts) && (forall x | x in d.contracts :: ContractFits(o, l.codec, x))
    && Few(l, d.flows) && (forall x | x in d.flows :: FlowFits(o, l.codec, x))
    && Few(l, d.evidence) && (forall x | x in d.evidence :: EvidenceFits(o, l.codec, x))
    && Few(l, d.classifications) && (forall x | x in d.classifications :: ClassificationFits(l.codec, x))
    && Few(l, d.revocations) && (forall x | x in d.revocations :: RevocationFits(l.codec, x))
    && Few(l, d.supersessions) && (forall x | x in d.supersessions :: SupersessionFits(l.codec, x))
  }

  lemma TableRoundTrip<T(!new)>(l: SnapshotLimits, put: (T, Bytes) -> Bytes, get: Bytes -> Parsed<T>, xs: seq<T>, rest: Bytes)
    requires IsU32(|xs|) && Faithful(put, get, xs) && AllGrow(put)
    ensures Restores(GetRecords(get, l.maxRecords, PutCollection(put, xs, rest)), Few(l, xs) && Readable(put, get, xs), xs,
                     rest)
  {
    hide PutCollection, GetRecords, IsU32, Readable, Faithful, AllGrow;
    RecordsRoundTrip(put, get, l.maxRecords, xs, rest);
  }

  /**
   * Decoding a body gives back what was encoded and leaves exactly what followed it, if every
   * record fits; otherwise it is refused, and never read as anything else.
   */
  lemma BodyRoundTrip(o: Oracles, l: SnapshotLimits, d: DurableState, rest: Bytes)
    requires BodyInRange(o, d)
    ensures Restores(GetBody(o, l, d.epoch, d.boot, d.sequence, PutBody(d, rest)), BodyFits(o, l, d), d, rest)
  {
    hide PutU8, GetSchema, PutPolicy, GetPolicy, PolicyFits, PutCollection, GetRecords, Readable, Faithful, AllGrow,
         IsU32, Few, PublisherFits, WorkloadFits, ContractFits, FlowFits, EvidenceFits, ClassificationFits,
         RevocationFits, SupersessionFits, PutPublisherRecord, PutWorkloadRecord, PutContractRecord, PutFlowRecord,
         PutEvidenceRecord, PutClassificationRecord, PutRevocationRecord, PutSupersessionRecord, GetPublisherRecord,
         GetWorkloadRecord, GetContractRecord, GetFlowRecord, GetEvidenceRecord, GetClassificationRecord,
         GetRevocationRecord, GetSupersessionRecord, PolicyInRange, PublisherInRange, WorkloadInRange, ContractInRange,
         FlowInRange, EvidenceInRange, ClassificationInRange, RevocationInRange, SupersessionInRange;
    SupersessionRecordsInvert(l.codec, d.supersessions);
    SupersessionGrows();
    TableRoundTrip(l, PutSupersessionRecord(), GetSupersessionRecord(l.codec), d.supersessions, rest);
    var s8 := PutCollection(PutSupersessionRecord(), d.supersessions, rest);
    RevocationRecordsInvert(l.codec, d.revocations);
    RevocationGrows();
    TableRoundTrip(l, PutRevocationRecord(), GetRevocationRecord(l.codec), d.revocations, s8);
    var s7 := PutCollection(PutRevocationRecord(), d.revocations, s8);
    ClassificationRecordsInvert(l.codec, d.classifications);
    ClassificationGrows();
    TableRoundTrip(l, PutClassificationRecord(), GetClassificationRecord(l.codec), d.classifications, s7);
    var s6 := PutCollection(PutClassificationRecord(), d.classifications, s7);
    EvidenceRecordsInvert(o, l.codec, d.evidence);
    EvidenceGrows();
    TableRoundTrip(l, PutEvidenceRecord(), GetEvidenceRecord(o, l.codec), d.evidence, s6);
    var s5 := PutCollection(PutEvidenceRecord(), d.evidence, s6);
    FlowRecordsInvert(o, l.codec, d.flows);
    FlowGrows();
    TableRoundTrip(l, PutFlowRecord(), GetFlowRecord(o, l.codec), d.flows, s5);
    var s4 := PutCollection(PutFlowRecord(), d.flows, s5);
    ContractRecordsInvert(o, l.codec, d.contracts);
    ContractGrows();
    TableRoundTrip(l, PutContractRecord(), GetContractRecord(o, l.codec), d.contracts, s4);
    var s3 := PutCollection(PutContractRecord(), d.contracts, s4);
    WorkloadRecordsInvert(l.codec, d.workloads);
    WorkloadGrows();
    TableRoundTrip(l, PutWorkloadRecord(), GetWorkloadRecord(l.codec), d.workloads, s3);
    var s2 := PutCollection(PutWorkloadRecord(), d.workloads, s3);
    PublisherRecordsInvert(l.codec, d.publishers);
    PublisherGrows();
    TableRoundTrip(l, PutPublisherRecord(), GetPublisherRecord(l.codec), d.publishers, s2);
    var s1 := PutCollection(PutPublisherRecord(), d.publishers, s2);
    PolicyRoundTrip(l.codec, d.policy, s1);
    SchemaRoundTrip(PutPolicy(d.policy, s1));
  }
}
