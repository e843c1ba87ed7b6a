/**
 * Identities, generations, evidence, contracts, policy and classifications.
 *
 * Text identities are strings, generations, sequences and ticks are natural numbers.  A
 * zero generation, boot or tick means "absent", as in the program.
 */
module Domain {

  type byte = b: int | 0 <= b < 256
  type Tick = nat
  type Digest = seq<byte>

  const MAX_U64: nat := 0xFFFF_FFFF_FFFF_FFFF

  // ---- results ------------------------------------------------------------

  datatype ErrorCode =
    | InvalidArgument
    | MalformedInput
    | MalformedRecord
    | MalformedFrame
    | UnsupportedVersion
    | UnsupportedFormatVersion
    | TruncatedState
    | CorruptState
    | TrailingGarbage
    | IntegrityFailure
    | CapacityExceeded
    | CounterExhausted
    | OutOfRange
    | NotFound
    | AlreadyExists
    | DuplicateIdentity
    | Unauthenticated
    | Unauthorized
    | UnknownPublisher
    | UnknownWorkload
    | UnknownContract
    | UnknownFlow
    | DeadPublisher
    | StaleEpoch
    | StaleBootId
    | StaleGeneration
    | ReplayDetected
    | RetiredContract
    | MismatchedContract
    | HeuristicDisabled
    | InternalError

  datatype Result<+T> = Ok(value: T) | Err(code: ErrorCode) {
    predicate IsFailure() {
      Err?
    }

    function PropagateFailure<U>(): Result<U>
      requires Err?
    {
      Err(code)
    }

    function Extract(): T
      requires Ok?
    {
      value
    }
  }

  datatype Option<+T> = None | Some(value: T)

  // ---- flows --------------------------------------------------------------

  type IpAddress = a: seq<byte> | |a| == 16 witness [0, 0, 0, 0, 0, 0, 0, 0, 0, 0, 0, 0, 0, 0, 0, 0]

  datatype Transport = UnknownTransport | Tcp | Udp | Sctp | Rdma

  datatype FlowKey = FlowKey(
    localAddress: IpAddress,
    remoteAddress: IpAddress,
    localPort: nat,
    remotePort: nat,
    transport: Transport)

  datatype FlowId = FlowId(hi: nat, lo: nat)

  datatype FlowRecord = FlowRecord(
    id: FlowId,
    key: FlowKey,
    generation: nat,
    registeredSeq: nat,
    registeredTick: Tick,
    lastActivityTick: Tick,
    registeredBy: string,
    renewals: nat)

  datatype FlowRegistration = FlowRegistration(
    record: FlowRecord,
    created: bool,
    fencedPrevious: bool,
    previousGeneration: nat)

  // ---- semantic classes and evidence sources ------------------------------

  datatype SemanticClass =
    | UnknownClass
    | Collective
    | TrainingSync
    | InferenceRequest
    | PrefillDecodeHandoff
    | KvStateTransfer
    | ModelStateTransfer
    | Shuffle
    | Checkpoint
    | StorageData
    | ControlPlane
    | Telemetry

  datatype EvidenceSource =
    | UnknownSource
    | DeclaredAuthenticated
    | ContractDerived
    | CoordinatorCorrelated
    | TopologyCorrelated
    | Heuristic

  type Confidence = n: nat | n <= CONFIDENCE_SCALE

  const CONFIDENCE_SCALE: nat := 10000

  function SourceRank(source: EvidenceSource): nat {
    match source
    case UnknownSource => 0
    case Heuristic => 1
    case TopologyCorrelated => 2
    case CoordinatorCorrelated => 3
    case ContractDerived => 4
    case DeclaredAuthenticated => 5
  }

  function SourceConfidence(source: EvidenceSource): Confidence {
    match source
    case UnknownSource => 0
    case Heuristic => 2000
    case TopologyCorrelated => 5000
    case CoordinatorCorrelated => 7000
    case ContractDerived => 8000
    case DeclaredAuthenticated => 9000
  }

  /** Records from these sources stand or fall with the session that published them. */
  predicate RequiresLiveSession(source: EvidenceSource) {
    source.DeclaredAuthenticated? || source.CoordinatorCorrelated? || source.TopologyCorrelated?
  }

  function WeakerConfidence(a: Confidence, b: Confidence): Confidence {
    if a < b then a else b
  }

  function ReducedBy(a: Confidence, penalty: nat): Confidence {
    if a > penalty then a - penalty else 0
  }

  // ---- evidence -----------------------------------------------------------

  datatype EvidenceState =
    | EvidenceNone
    | EvidenceCurrent
    | EvidenceStale
    | EvidenceSuperseded
    | EvidenceRevoked
    | EvidenceInsufficient
    | EvidenceRejected

  datatype EvidenceMetadata = EvidenceMetadata(
    topic: string,
    binding: nat,
    reason: string,
    contract: string)

  datatype EvidenceRecord = EvidenceRecord(
    id: string,
    publisher: string,
    publisherBoot: nat,
    session: string,
    acceptedEpoch: nat,
    acceptedBoot: nat,
    workload: string,
    workloadGeneration: nat,
    contract: string,
    flowId: FlowId,
    flowGeneration: nat,
    generation: nat,
    acceptedSeq: nat,
    acceptedTick: Tick,
    freshUntil: Tick,
    semantic: SemanticClass,
    source: EvidenceSource,
    state: EvidenceState,
    confidence: Confidence,
    metadata: EvidenceMetadata,
    contentDigest: Digest,
    stateReason: string)

  /** What the content digest covers: everything but acceptance bookkeeping and state. */
  function EvidenceContent(r: EvidenceRecord): EvidenceRecord {
    r.(session := "", acceptedEpoch := 0, acceptedBoot := 0, acceptedSeq := 0, acceptedTick := 0,
       state := EvidenceNone, contentDigest := [], stateReason := "")
  }

  // ---- workloads and contracts --------------------------------------------

  datatype WorkloadState = WorkloadDeclared | WorkloadActive | WorkloadRetired

  datatype WorkloadRecord = WorkloadRecord(
    id: string,
    owner: string,
    generation: nat,
    state: WorkloadState,
    activeContract: string,
    declaredTick: Tick,
    activatedTick: Tick,
    retiredTick: Tick,
    description: string)

  datatype ContractState = ContractPending | ContractActive | ContractRetired

  datatype WorkloadContract = WorkloadContract(
    id: string,
    workload: string,
    workloadGeneration: nat,
    owner: string,
    state: ContractState,
    declaredClass: SemanticClass,
    remoteScope: seq<IpAddress>,
    localPortScope: seq<nat>,
    remotePort: nat,
    transport: Transport,
    matchAnyRemoteAddress: bool,
    derivedSource: EvidenceSource,
    definitionDigest: Digest,
    createdTick: Tick,
    activatedTick: Tick,
    retiredTick: Tick,
    description: string)

  /** What the definition digest covers: everything but state, digest and lifecycle ticks. */
  function ContractContent(c: WorkloadContract): WorkloadContract {
    c.(state := ContractPending, definitionDigest := [], createdTick := 0, activatedTick := 0, retiredTick := 0)
  }

  predicate ContractCovers(c: WorkloadContract, key: FlowKey) {
    && (c.transport == UnknownTransport || c.transport == key.transport)
    && (c.remotePort == 0 || c.remotePort == key.remotePort)
    && (c.matchAnyRemoteAddress || key.remoteAddress in c.remoteScope)
    && (c.localPortScope == [] || key.localPort in c.localPortScope)
  }

  // ---- publishers ---------------------------------------------------------

  datatype PublisherState = PublisherRegistered | PublisherLive | PublisherIdle | PublisherDead

  datatype PublisherRegistration = PublisherRegistration(
    id: string,
    boot: nat,
    registeredEpoch: nat,
    registeredBoot: nat,
    session: string,
    state: PublisherState,
    maxSource: EvidenceSource,
    liveSessions: seq<string>,
    registeredTick: Tick,
    lastSeenTick: Tick,
    highestGeneration: nat,
    sessionsOpened: nat,
    description: string)

  datatype PublisherRecord = PublisherRecord(
    id: string,
    highestBoot: nat,
    highestGeneration: nat,
    maxSource: EvidenceSource,
    firstSeenTick: Tick,
    lastSeenWallMillis: nat,
    totalEvidenceAccepted: nat,
    description: string)

  // ---- policy -------------------------------------------------------------

  datatype HeuristicAdapter = HeuristicAdapter(
    name: string,
    enabled: bool,
    maxBasisPoints: nat,
    priority: nat)

  datatype PortHint = PortHint(
    transport: Transport,
    port: nat,
    semantic: SemanticClass,
    basisPoints: nat,
    adapter: string)

  datatype ResourceLimits = ResourceLimits(
    maxFlows: nat,
    maxPublishers: nat,
    maxWorkloads: nat,
    maxContracts: nat,
    maxPendingContracts: nat,
    maxSessions: nat,
    maxConfigOverrides: nat,
    maxEvidencePerFlow: nat,
    maxEvidenceRecords: nat,
    maxDecisionsPerFlow: nat,
    maxContradictionsPerFlow: nat,
    maxContradictions: nat,
    maxSupersessions: nat,
    maxRevocations: nat,
    maxFlowKeyIndex: nat,
    maxFramePayload: nat,
    maxStringBytes: nat,
    maxBlobBytes: nat,
    maxCollectionCount: nat,
    maxBatchKeys: nat,
    maxWorkers: nat,
    maxQueueDepth: nat,
    maxInflightRequests: nat,
    maxRetryAttempts: nat,
    defaultFreshnessWindow: nat,
    maxSessionIdleTicks: nat)

  datatype ClassifierPolicy = ClassifierPolicy(
    generation: nat,
    limits: ResourceLimits,
    allowHeuristicEvidence: bool,
    defaultFreshnessWindow: nat,
    contradictionPenalty: nat,
    minimumPublishableConfidence: nat,
    maxEvidenceConsidered: nat,
    heuristicAdapters: seq<HeuristicAdapter>,
    portHints: seq<PortHint>)

  // ---- classifications ----------------------------------------------------

  datatype ClassificationState =
    | StateUnknown
    | Current
    | Corroborated
    | Contradicted
    | Stale
    | Insufficient
    | Revoked

  datatype Disposition =
    | Selected
    | Corroborating
    | Contradicting
    | Subordinate
    | StaleRecord
    | Withdrawn
    | RevokedRecord
    | RejectedRecord
    | ExcludedByLimit
    | BelowThreshold

  function DispositionCode(d: Disposition): (code: nat)
    ensures code <= 9
  {
    match d
    case Selected => 0
    case Corroborating => 1
    case Contradicting => 2
    case Subordinate => 3
    case StaleRecord => 4
    case Withdrawn => 5
    case RevokedRecord => 6
    case RejectedRecord => 7
    case ExcludedByLimit => 8
    case BelowThreshold => 9
  }

  datatype EvidenceCitation = EvidenceCitation(
    id: string,
    publisher: string,
    source: EvidenceSource,
    state: EvidenceState,
    semantic: SemanticClass,
    disposition: Disposition,
    confidence: Confidence,
    generation: nat,
    acceptedSeq: nat,
    acceptedTick: Tick,
    freshUntil: Tick,
    detail: string)

  datatype Contradiction = Contradiction(
    leftId: string,
    rightId: string,
    leftClass: SemanticClass,
    leftSource: EvidenceSource,
    rightClass: SemanticClass,
    rightSource: EvidenceSource,
    resolvedBy: string)

  datatype Classification = Classification(
    flowId: FlowId,
    flowGeneration: nat,
    semantic: SemanticClass,
    state: ClassificationState,
    confidence: Confidence,
    selectedEvidence: string,
    selectedSource: EvidenceSource,
    citations: seq<EvidenceCitation>,
    contradictions: seq<Contradiction>,
    corroborationCount: nat,
    appliedPenalty: nat,
    policyGeneration: nat,
    policyDigest: Digest,
    coordinatorEpoch: nat,
    coordinatorBoot: nat,
    decidedTick: Tick,
    digest: Digest)

  datatype RevocationRecord = RevocationRecord(
    flowId: FlowId,
    flowGeneration: nat,
    evidenceId: string,
    revokedBySession: string,
    revokedByPublisher: string,
    epoch: nat,
    seqno: nat,
    revokedTick: Tick,
    reason: string)

  datatype SupersessionRecord = SupersessionRecord(
    previousId: string,
    replacementId: string,
    previousGeneration: nat,
    replacementGeneration: nat,
    publisher: string,
    seqno: nat,
    recordedTick: Tick)

  // ---- numeric codes ------------------------------------------------------

  function TransportCode(t: Transport): (code: nat)
    ensures code <= 4
  {
    match t
    case UnknownTransport => 0
    case Tcp => 1
    case Udp => 2
    case Sctp => 3
    case Rdma => 4
  }

  function SemanticCode(c: SemanticClass): (code: nat)
    ensures code <= 11
  {
    match c
    case UnknownClass => 0
    case Collective => 1
    case TrainingSync => 2
    case InferenceRequest => 3
    case PrefillDecodeHandoff => 4
    case KvStateTransfer => 5
    case ModelStateTransfer => 6
    case Shuffle => 7
    case Checkpoint => 8
    case StorageData => 9
    case ControlPlane => 10
    case Telemetry => 11
  }

  function EvidenceStateCode(s: EvidenceState): (code: nat)
    ensures code <= 6
  {
    match s
    case EvidenceNone => 0
    case EvidenceCurrent => 1
    case EvidenceStale => 2
    case EvidenceSuperseded => 3
    case EvidenceRevoked => 4
    case EvidenceInsufficient => 5
    case EvidenceRejected => 6
  }

  function ContractStateCode(s: ContractState): (code: nat)
    ensures code <= 2
  {
    match s
    case ContractPending => 0
    case ContractActive => 1
    case ContractRetired => 2
  }

  // ---- text order ---------------------------------------------------------

  /** Byte-wise lexicographic order, the order of identities. */
  predicate TextLess(a: string, b: string) {
    if b == [] then false
    else if a == [] then true
    else if a[0] != b[0] then a[0] < b[0]
    else TextLess(a[1..], b[1..])
  }

  lemma {:induction false} TextLessIrreflexive(a: string)
    ensures !TextLess(a, a)
  {
    if a != [] {
      TextLessIrreflexive(a[1..]);
    }
  }

  lemma {:induction false} TextLessAsymmetric(a: string, b: string)
    requires TextLess(a, b)
    ensures !TextLess(b, a)
  {
    if a != [] && a[0] == b[0] {
      TextLessAsymmetric(a[1..], b[1..]);
    }
  }

  lemma {:induction false} TextLessTransitive(a: string, b: string, c: string)
    requires TextLess(a, b) && TextLess(b, c)
    ensures TextLess(a, c)
  {
    if a != [] && a[0] == b[0] && b[0] == c[0] {
      TextLessTransitive(a[1..], b[1..], c[1..]);
    }
  }

  lemma {:induction false} TextLessTotal(a: string, b: string)
    requires a != b
    ensures TextLess(a, b) || TextLess(b, a)
  {
    if a != [] && b != [] && a[0] == b[0] {
      assert a == [a[0]] + a[1..] && b == [b[0]] + b[1..];
      TextLessTotal(a[1..], b[1..]);
    }
  }

  // ---- hash-derived identities, digests and message text ------------------

  /** One value in a canonical encoding, with the width it is written at. */
  datatype Field =
    | U8(value: nat)
    | U32(value: nat)
    | U64(value: nat)
    | Flag(on: bool)
    | Blob(bytes: Digest)

  /** What a minted evidence identity is derived from. */
  datatype EvidenceIdentity = EvidenceIdentity(
    publisher: string,
    boot: nat,
    topic: string,
    generation: nat,
    flowId: FlowId,
    flowGeneration: nat)

  /** What a contract-derived evidence identity is derived from. */
  datatype ContractIdentity = ContractIdentity(
    contract: string,
    workloadGeneration: nat,
    flowId: FlowId,
    flowGeneration: nat,
    definitionDigest: Digest)

  /** The messages whose text ends up inside a record, a citation or a contradiction. */
  datatype Phrase =
    | DuplicateIdentityPhrase
    | OtherGenerationReason
    | OtherGenerationDetail(bound: nat, asked: nat)
    | OtherEpoch(accepted: nat, current: nat)
    | HeuristicsNotPermitted
    | PublisherNotLive(publisher: string, boot: nat)
    | PublisherNotRegistered(publisher: string)
    | FreshnessExpired(freshUntil: nat)
    | HeuristicNote
    | DerivedFromContract(contract: string)
    | PrecedenceNote(winner: nat, loser: nat)
    | BelowThresholdNote
    | LimitNote(cap: nat)
    | IncarnationEnded(publisher: string, boot: nat)
    | SessionEnded(session: string, publisher: string, boot: nat)
    | LivenessLost
    | WorkloadAdvanced(workload: string, contract: string)
    | ContractReplaced(previous: string, replacement: string)
    | ContractRetiredPhrase(contract: string)
    | WorkloadRetiredPhrase(workload: string)
    | FlowReplaced
    | FlowAdvanced(generation: nat)
    | SupersededBy(replacement: string, generation: nat)
    | EpochAdvanced(accepted: nat, current: nat)
    | Reloaded
    | WithdrawnByPublisher
    | RevokedByRequest

  /**
   * Everything derived with SHA-256, and the rendering of messages.  Each is a parameter of
   * the model: the results hold for every choice, or for every collision-free choice where
   * `CollisionFree` is required.
   */
  datatype Oracles = Oracles(
    flowId: FlowKey -> FlowId,
    evidenceId: EvidenceIdentity -> string,
    contractEvidenceId: ContractIdentity -> string,
    evidenceDigest: EvidenceRecord -> Digest,
    contractDigest: WorkloadContract -> Digest,
    policyDigest: ClassifierPolicy -> Digest,
    decisionDigest: Classification -> Digest,
    sha256: seq<Field> -> Digest,
    render: Phrase -> string)

  /** The digest an exhausted encoder falls back to. */
  const ZERO_DIGEST: Digest :=
    [0, 0, 0, 0, 0, 0, 0, 0, 0, 0, 0, 0, 0, 0, 0, 0, 0, 0, 0, 0, 0, 0, 0, 0, 0, 0, 0, 0, 0, 0, 0, 0]

  /** How many bytes a digest encoder holds. */
  const MAX_BLOB_BYTES: nat := 65536

  function TextWidth(s: string): nat {
    4 + |s|
  }

  /** How many bytes the content of a record takes in its digest encoder. */
  function ContentWidth(r: EvidenceRecord): nat {
    72 + TextWidth(r.id) + TextWidth(r.publisher) + TextWidth(r.workload) + TextWidth(r.contract) + TextWidth(r.metadata.topic)
    + TextWidth(r.metadata.reason) + TextWidth(r.metadata.contract)
  }

  predicate ContentFits(r: EvidenceRecord) {
    ContentWidth(r) <= MAX_BLOB_BYTES
  }

  /** How many bytes the definition of a contract takes in its digest encoder. */
  function DefinitionWidth(c: WorkloadContract): nat {
    24 + TextWidth(c.id) + TextWidth(c.workload) + TextWidth(c.owner) + 20 * |c.remoteScope| + 2 * |c.localPortScope|
    + TextWidth(c.description)
  }

  predicate DefinitionFits(c: WorkloadContract) {
    DefinitionWidth(c) <= MAX_BLOB_BYTES
  }

  /** The content digest of a record: zero when its encoder is exhausted. */
  function EvidenceDigest(o: Oracles, r: EvidenceRecord): Digest {
    if ContentFits(r) then o.evidenceDigest(EvidenceContent(r)) else ZERO_DIGEST
  }

  /** The definition digest of a contract: zero when its encoder is exhausted. */
  function ContractDigest(o: Oracles, c: WorkloadContract): Digest {
    if DefinitionFits(c) then o.contractDigest(ContractContent(c)) else ZERO_DIGEST
  }

  ghost predicate DistinctFlowIds(o: Oracles) {
    forall a, b :: o.flowId(a) == o.flowId(b) ==> a == b
  }

  /** Minted evidence identities are distinct, not empty, and never those of derived evidence. */
  ghost predicate DistinctEvidenceIds(o: Oracles) {
    && (forall a, b :: o.evidenceId(a) == o.evidenceId(b) ==> a == b)
    && (forall a :: o.evidenceId(a) != "")
    && (forall a, b :: o.evidenceId(a) != o.contractEvidenceId(b))
  }

  ghost predicate DistinctDerivedIds(o: Oracles) {
    forall a, b :: o.contractEvidenceId(a) == o.contractEvidenceId(b) ==> a == b
  }

  /** No two contents that are hashed share a digest, and none has that of an exhausted encoder. */
  ghost predicate DistinctDigests(o: Oracles) {
    && (forall a, b | ContentFits(a) && ContentFits(b) :: o.evidenceDigest(a) == o.evidenceDigest(b) ==> a == b)
    && (forall a | ContentFits(a) :: o.evidenceDigest(a) != ZERO_DIGEST)
    && (forall a, b | DefinitionFits(a) && DefinitionFits(b) :: o.contractDigest(a) == o.contractDigest(b) ==> a == b)
    && (forall a | DefinitionFits(a) :: o.contractDigest(a) != ZERO_DIGEST)
    && (forall a, b :: o.sha256(a) == o.sha256(b) ==> a == b)
    && (forall a :: o.sha256(a) != ZERO_DIGEST)
  }

  ghost predicate CollisionFree(o: Oracles) {
    DistinctFlowIds(o) && DistinctEvidenceIds(o) && DistinctDerivedIds(o) && DistinctDigests(o)
  }
}
