/**
 * The classifier as a state machine.  Every public operation runs under one lock, so each is
 * one step: a function from the state and its arguments to the next state and the answer.
 */
module ClassifierState {
  import opened Domain
  import opened Enumeration
  import opened DecisionEngine
  import DecisionDigest
  import Policy
  import E = EvidenceStore
  import P = PublisherRegistry
  import W = WorkloadRegistry
  import F = FlowRegistry
  import D = ClassificationIndex

  datatype State = State(
    policy: ClassifierPolicy,
    flows: F.Flows,
    publishers: P.Publishers,
    workloads: W.Workloads,
    evidence: E.Evidence,
    decisions: D.Decisions,
    epoch: nat,
    boot: nat,
    sequence: nat,
    authoritySequence: nat)

  /** A new classifier; the stores take their capacities from the policy it is built with. */
  function Initial(policy: ClassifierPolicy, epoch: nat, boot: nat): State {
    State(policy, F.EmptyFlows(policy.limits), P.EmptyPublishers(policy.limits), W.EmptyWorkloads(policy.limits),
          E.EmptyEvidence(policy.limits), D.EmptyDecisions(policy.limits), epoch, boot, 0, 1)
  }

  // ---- lifecycle and policy -----------------------------------------------

  function AdvanceEpoch(o: Oracles, s: State, boot: nat): (State, Result<nat>) {
    if s.sequence >= MAX_U64 then
      (s, Err(CounterExhausted))
    else if s.epoch >= MAX_U64 then
      (s.(sequence := s.sequence + 1), Err(CounterExhausted))
    else
      (Advanced(o, s, boot), Ok(s.epoch + 1))
  }

  /** The next epoch: every session dropped, every record of an earlier epoch stale. */
  function Advanced(o: Oracles, s: State, boot: nat): State {
    s.(sequence := s.sequence + 1, epoch := s.epoch + 1, boot := boot,
       publishers := P.ClearedSessions(s.publishers),
       evidence := E.MarkEpochStale(o, s.evidence, s.epoch + 1),
       authoritySequence := s.authoritySequence + 1)
  }

  function PolicyDigest(o: Oracles, p: ClassifierPolicy): Digest {
    o.policyDigest(p.(generation := 0))
  }

  function SetPolicy(o: Oracles, s: State, policy: ClassifierPolicy): (State, Result<nat>) {
    var canonical := Policy.Canonicalized(policy);
    if canonical.Err? then
      (s, Err(canonical.code))
    else if PolicyDigest(o, canonical.value) == PolicyDigest(o, s.policy) && s.policy.generation != 0 then
      (s, Ok(s.policy.generation))
    else if s.policy.generation >= MAX_U64 then
      (s, Err(CounterExhausted))
    else
      (Installed(s, canonical.value), Ok(s.policy.generation + 1))
  }

  /** A changed policy takes the next generation and empties the decision index. */
  function Installed(s: State, next: ClassifierPolicy): State {
    s.(policy := next.(generation := s.policy.generation + 1), decisions := D.Cleared(s.decisions))
  }

  // ---- publishers ---------------------------------------------------------

  /** A session being opened, before the coordinator stamps it with its epoch and boot. */
  datatype Hello = Hello(
    id: string,
    boot: nat,
    maxSource: EvidenceSource,
    session: string,
    description: string)

  function BindingOf(s: State, h: Hello, tick: Tick, wall: nat): P.Binding {
    P.Binding(h.id, h.boot, s.epoch, s.boot, h.maxSource, h.session, tick, wall, h.description)
  }

  function RegisterPublisher(s: State, h: Hello, tick: Tick, wall: nat): (State, Result<PublisherRegistration>) {
    var (p, r) := P.Bound(s.publishers, BindingOf(s, h, tick, wall));
    (s.(publishers := p, authoritySequence := s.authoritySequence + if r.Ok? then 1 else 0), r)
  }

  function OfIncarnation(id: string, boot: nat): EvidenceRecord -> bool {
    (r: EvidenceRecord) => r.publisher == id && r.publisherBoot == boot
  }

  function OfSession(id: string, boot: nat, session: string): EvidenceRecord -> bool {
    (r: EvidenceRecord) => r.publisher == id && r.publisherBoot == boot && (r.session == "" || r.session == session)
  }

  /** What ending a session does to the evidence, given the registry afterwards. */
  function Disowned(o: Oracles, e: E.Evidence, p: P.Publishers, id: string, boot: nat, session: string): E.Evidence {
    if id !in p.live || p.live[id].liveSessions == [] then
      E.MarkStale(e, OfIncarnation(id, boot), o.render(IncarnationEnded(id, boot)))
    else if session != "" then
      E.MarkStale(e, OfSession(id, boot, session), o.render(SessionEnded(session, id, boot)))
    else
      e
  }

  function EndSession(o: Oracles, s: State, id: string, boot: nat, session: string, tick: Tick): (State, Result<()>) {
    var (p, r) := P.Ended(s.publishers, id, boot, session, tick);
    if r.Err? then
      (s.(publishers := p), r)
    else
      (s.(publishers := p, evidence := Disowned(o, s.evidence, p, id, boot, session),
          authoritySequence := s.authoritySequence + 1),
       Ok(()))
  }

  function Heartbeat(s: State, id: string, boot: nat, tick: Tick, wall: nat): (State, Result<()>) {
    var (p, r) := P.Touched(s.publishers, id, boot, tick, wall);
    (s.(publishers := p, authoritySequence := s.authoritySequence + if r.Ok? then 1 else 0), r)
  }

  function Unattended(p: P.Publishers): EvidenceRecord -> bool {
    (r: EvidenceRecord) => !P.HoldsSession(p, r.publisher, r.publisherBoot)
  }

  function ExpireLiveness(o: Oracles, s: State, tick: Tick): State {
    var p := P.Expire(s.publishers, tick);
    if P.ExpiredIds(s.publishers, tick) == {} then
      s.(publishers := p)
    else
      s.(publishers := p, evidence := E.MarkStale(s.evidence, Unattended(p), o.render(LivenessLost)),
         authoritySequence := s.authoritySequence + 1)
  }

  // ---- workloads and contracts --------------------------------------------

  /** Stales the evidence that cites one of the contracts, with a reason naming it. */
  function StaleContracts(e: E.Evidence, ids: set<string>, reason: string -> string): E.Evidence {
    e.(byId := map id | id in e.byId ::
                 E.StaledIf(e.byId[id].contract in ids, e.byId[id], reason(e.byId[id].contract)))
  }

  function AdvancedReason(o: Oracles, workload: string): string -> string {
    contract => o.render(WorkloadAdvanced(workload, contract))
  }

  function ReplacedReason(o: Oracles, replacement: string): string -> string {
    contract => o.render(ContractReplaced(contract, replacement))
  }

  function DeclareWorkload(o: Oracles, s: State, id: string, owner: string, generation: nat, tick: Tick, description: string)
    : (State, Result<WorkloadRecord>)
  {
    var (w, r) := W.Declared(s.workloads, id, owner, generation, tick, description);
    if r.Err? then
      (s.(workloads := w), r)
    else
      (s.(workloads := w,
          evidence := StaleContracts(s.evidence, W.RetiredByDeclaring(s.workloads, id, owner, generation),
                                     AdvancedReason(o, id))),
       r)
  }

  function ProposeContract(o: Oracles, s: State, c: WorkloadContract, tick: Tick): (State, Result<WorkloadContract>) {
    var (w, r) := W.Proposed(o, s.workloads, c, tick);
    (s.(workloads := w), r)
  }

  function ActivateContract(o: Oracles, s: State, id: string, caller: string, tick: Tick): (State, Result<WorkloadContract>) {
    var (w, r) := W.Activated(s.workloads, id, caller, tick);
    if r.Err? then
      (s.(workloads := w), r)
    else
      (s.(workloads := w,
          evidence := StaleContracts(s.evidence, W.RetiredByActivating(s.workloads, id, caller), ReplacedReason(o, id))),
       r)
  }

  function CitesContract(id: string): EvidenceRecord -> bool {
    (r: EvidenceRecord) => r.contract == id
  }

  function CitesWorkload(id: string): EvidenceRecord -> bool {
    (r: EvidenceRecord) => r.workload == id
  }

  function RetireContract(o: Oracles, s: State, id: string, caller: string, tick: Tick): (State, Result<()>) {
    var (w, r) := W.ContractRetirement(s.workloads, id, caller, tick);
    if r.Err? then
      (s.(workloads := w), r)
    else
      (s.(workloads := w,
          evidence := E.MarkStale(s.evidence, CitesContract(id), o.render(ContractRetiredPhrase(id)))), r)
  }

  function RetireWorkload(o: Oracles, s: State, id: string, generation: nat, tick: Tick): (State, Result<()>) {
    var (w, r) := W.WorkloadRetirement(s.workloads, id, generation, tick);
    if r.Err? then
      (s.(workloads := w), r)
    else
      (s.(workloads := w,
          evidence := E.MarkStale(s.evidence, CitesWorkload(id), o.render(WorkloadRetiredPhrase(id)))), r)
  }

  // ---- flows --------------------------------------------------------------

  function OnFlow(flow: FlowId): EvidenceRecord -> bool {
    (r: EvidenceRecord) => r.flowId == flow
  }

  function OnEarlier(flow: FlowId, generation: nat): EvidenceRecord -> bool {
    (r: EvidenceRecord) => r.flowId == flow && r.flowGeneration < generation
  }

  /** What a registration does to the evidence. */
  function Fence(o: Oracles, e: E.Evidence, r: FlowRegistration): E.Evidence {
    var replaced := if r.created then E.MarkStale(e, OnFlow(r.record.id), o.render(FlowReplaced)) else e;
    if r.fencedPrevious then
      E.MarkStale(replaced, OnEarlier(r.record.id, r.record.generation), o.render(FlowAdvanced(r.record.generation)))
    else
      replaced
  }

  function RegisterFlow(o: Oracles, s: State, key: FlowKey, requested: nat, session: string, tick: Tick)
    : (State, Result<FlowRegistration>)
  {
    var (f, r) := F.Registered(o, s.flows, key, requested, session, tick);
    if r.Err? then
      (s.(flows := f), r)
    else
      (s.(flows := f, evidence := Fence(o, s.evidence, r.value),
          decisions := if r.value.fencedPrevious
                       then D.GenerationSuperseded(s.decisions, r.value.record.id, r.value.record.generation)
                       else s.decisions),
       r)
  }

  // ---- evidence -----------------------------------------------------------

  datatype SessionEnvelope = SessionEnvelope(
    publisher: string,
    publisherBoot: nat,
    session: string,
    epoch: nat,
    coordinatorBoot: nat,
    maxSource: EvidenceSource)

  datatype EvidencePayload = EvidencePayload(
    workload: string,
    workloadGeneration: nat,
    contract: string,
    flowKey: FlowKey,
    flowGeneration: nat,
    evidenceGeneration: nat,
    semantic: SemanticClass,
    claimedSource: EvidenceSource,
    freshnessWindow: nat,
    metadata: EvidenceMetadata)

  /** What a successful submission reports. */
  datatype Submission = Submission(
    record: EvidenceRecord,
    supersededId: Option<string>,
    fencedFlow: bool,
    previousFlowGeneration: nat)

  function SessionFault(s: State, env: SessionEnvelope): Option<ErrorCode> {
    if env.epoch != s.epoch then Some(StaleEpoch)
    else if env.coordinatorBoot != s.boot then Some(StaleBootId)
    else if env.publisherBoot == 0 then Some(Unauthenticated)
    else if env.publisher !in s.publishers.live then Some(UnknownPublisher)
    else if s.publishers.live[env.publisher].boot != env.publisherBoot then Some(StaleBootId)
    else if s.publishers.live[env.publisher].session != env.session then Some(Unauthenticated)
    else if !P.HoldsSession(s.publishers, env.publisher, env.publisherBoot) then Some(DeadPublisher)
    else None
  }

  /** The weaker of the envelope's and the registration's ceiling. */
  function Ceiling(s: State, env: SessionEnvelope): EvidenceSource
    requires env.publisher in s.publishers.live
  {
    var registered := s.publishers.live[env.publisher].maxSource;
    if SourceRank(env.maxSource) < SourceRank(registered) then env.maxSource else registered
  }

  function ClampSource(claimed: EvidenceSource, ceiling: EvidenceSource): EvidenceSource {
    if SourceRank(claimed) <= SourceRank(ceiling) then claimed else ceiling
  }

  function SourceFault(policy: ClassifierPolicy, source: EvidenceSource, binding: nat): Option<ErrorCode> {
    if source.Heuristic? then
      var (transport, port) := Policy.ClaimOf(binding);
      if !policy.allowHeuristicEvidence then Some(HeuristicDisabled)
      else if !Policy.AnyEnabled(policy.heuristicAdapters) then Some(HeuristicDisabled)
      else if !Policy.HintUsable(policy, transport, port) then Some(HeuristicDisabled)
      else None
    else if SourceRank(source) == 0 then Some(Unauthorized)
    else None
  }

  function WorkloadFault(w: W.Workloads, publisher: string, p: EvidencePayload): Option<ErrorCode> {
    if p.workload == "" then None
    else if p.workload !in w.workloads then Some(UnknownWorkload)
    else if w.workloads[p.workload].owner != publisher then Some(Unauthorized)
    else if w.workloads[p.workload].generation != p.workloadGeneration then Some(StaleGeneration)
    else if w.workloads[p.workload].state == WorkloadRetired then Some(RetiredContract)
    else None
  }

  function ContractFault(w: W.Workloads, publisher: string, p: EvidencePayload): Option<ErrorCode> {
    if p.contract == "" then None
    else if p.contract !in w.contracts then Some(UnknownContract)
    else if w.contracts[p.contract].owner != publisher then Some(Unauthorized)
    else if w.contracts[p.contract].state != ContractActive then Some(RetiredContract)
    else if w.contracts[p.contract].workload != p.workload
         || w.contracts[p.contract].workloadGeneration != p.workloadGeneration then Some(MismatchedContract)
    else None
  }

  /** Why a submission is refused before it touches anything, if it is. */
  function AdmissionFault(s: State, env: SessionEnvelope, p: EvidencePayload): Option<ErrorCode> {
    var session := SessionFault(s, env);
    if session.Some? then session
    else
      var source := SourceFault(s.policy, ClampSource(p.claimedSource, Ceiling(s, env)), p.metadata.binding);
      if source.Some? then source
      else if p.semantic == UnknownClass then Some(InvalidArgument)
      else if WorkloadFault(s.workloads, env.publisher, p).Some? then WorkloadFault(s.workloads, env.publisher, p)
      else ContractFault(s.workloads, env.publisher, p)
  }

  function IdentityOf(r: EvidenceRecord): EvidenceIdentity {
    EvidenceIdentity(r.publisher, r.publisherBoot, r.metadata.topic, r.generation, r.flowId, r.flowGeneration)
  }

  /** The record minted for an admitted submission. */
  function Mint(o: Oracles, s: State, env: SessionEnvelope, p: EvidencePayload, flow: FlowRecord, seqno: nat, tick: Tick)
    : EvidenceRecord
    requires env.publisher in s.publishers.live
  {
    var source := ClampSource(p.claimedSource, Ceiling(s, env));
    var window := if p.freshnessWindow != 0 then p.freshnessWindow else s.policy.defaultFreshnessWindow;
    var draft := EvidenceRecord(
                   o.evidenceId(EvidenceIdentity(env.publisher, env.publisherBoot, p.metadata.topic,
                                                 p.evidenceGeneration, flow.id, flow.generation)),
                   env.publisher, env.publisherBoot, env.session, s.epoch, s.boot, p.workload, p.workloadGeneration,
                   p.contract, flow.id, flow.generation, p.evidenceGeneration, seqno, tick, tick + window,
                   p.semantic, source, EvidenceCurrent, SourceConfidence(source),
                   p.metadata.(contract := p.contract), [], "");
    draft.(contentDigest := EvidenceDigest(o, draft))
  }

  /** Whether publishing `r` displaces `other`. */
  predicate Displaces(r: EvidenceRecord, other: EvidenceRecord) {
    && other.publisher == r.publisher
    && other.publisherBoot == r.publisherBoot
    && other.metadata.topic == r.metadata.topic
    && other.generation < r.generation
  }

  function SupersessionOf(r: EvidenceRecord, other: EvidenceRecord, tick: Tick): SupersessionRecord {
    SupersessionRecord(other.id, r.id, other.generation, r.generation, r.publisher, r.acceptedSeq, tick)
  }

  datatype Displacement = Displacement(evidence: E.Evidence, decisions: D.Decisions, last: Option<string>)

  function DisplaceOne(o: Oracles, x: Displacement, r: EvidenceRecord, id: string, tick: Tick): Displacement {
    if id in x.evidence.byId && Displaces(r, x.evidence.byId[id]) then
      var other := x.evidence.byId[id];
      Displacement(E.WithState(x.evidence, other.id, EvidenceSuperseded, o.render(SupersededBy(r.id, r.generation))).0,
                   D.WithSupersession(x.decisions, SupersessionOf(r, other, tick)),
                   Some(other.id))
    else
      x
  }

  /** Marks everything `r` displaces among the identities, in turn. */
  function Displace(o: Oracles, x: Displacement, r: EvidenceRecord, ids: seq<string>, tick: Tick): Displacement {
    if ids == [] then x
    else DisplaceOne(o, Displace(o, x, r, ids[..|ids| - 1], tick), r, ids[|ids| - 1], tick)
  }

  /** The flow and the generation have been admitted: number, mint, displace, insert. */
  function Publish(o: Oracles, s: State, env: SessionEnvelope, p: EvidencePayload, flow: FlowRegistration, tick: Tick,
                   later: Tick, wall: nat)
    : (State, Result<Submission>)
    requires env.publisher in s.publishers.live
  {
    if s.sequence >= MAX_U64 then
      (s, Err(CounterExhausted))
    else
      var r := Mint(o, s, env, p, flow.record, s.sequence + 1, tick);
      var x := Displace(o, Displacement(s.evidence, s.decisions, None), r,
                        E.IdsOf(E.FlowRecords(s.evidence, r.flowId)), tick);
      var (e, inserted) := E.Inserted(x.evidence, r);
      var t := s.(sequence := s.sequence + 1, evidence := e, decisions := x.decisions);
      if inserted.Err? then
        (t, Err(inserted.code))
      else
        (t.(publishers := P.Touched(s.publishers, env.publisher, env.publisherBoot, later, wall).0),
         Ok(Submission(r, x.last, flow.fencedPrevious, if flow.fencedPrevious then flow.previousGeneration else 0)))
  }

  function SubmitEvidence(o: Oracles, s: State, env: SessionEnvelope, p: EvidencePayload, tick: Tick, later: Tick, wall: nat)
    : (State, Result<Submission>)
  {
    var fault := AdmissionFault(s, env, p);
    if fault.Some? then
      (s, Err(fault.value))
    else
      var (s1, flow) := RegisterFlow(o, s, p.flowKey, p.flowGeneration, env.session, tick);
      if flow.Err? then
        (s1, Err(flow.code))
      else
        var (p2, observed) := P.Observed(s1.publishers, env.publisher, env.publisherBoot, p.evidenceGeneration);
        if observed.Err? then
          (s1.(publishers := p2), Err(observed.code))
        else
          Publish(o, s1.(publishers := p2), env, p, flow.value, tick, later, wall)
  }

  function AppliedReason(o: Oracles, reason: string, fallback: Phrase): string {
    if reason == "" then o.render(fallback) else reason
  }

  function WithdrawEvidence(o: Oracles, s: State, env: SessionEnvelope, id: string, reason: string, tick: Tick): (State,
          Result<()>) {
    if env.epoch != s.epoch then
      (s, Err(StaleEpoch))
    else if id !in s.evidence.byId then
      (s, Err(NotFound))
    else
      var r := s.evidence.byId[id];
      if r.publisher != env.publisher || r.publisherBoot != env.publisherBoot then
        (s, Err(Unauthorized))
      else
        var applied := AppliedReason(o, reason, WithdrawnByPublisher);
        var s1 := s.(evidence := E.WithState(s.evidence, id, EvidenceSuperseded, applied).0);
        if s.sequence >= MAX_U64 then
          (s1, Err(CounterExhausted))
        else
          (s1.(sequence := s.sequence + 1,
               decisions := D.WithRevocation(s.decisions,
                              RevocationRecord(r.flowId, r.flowGeneration, id, env.session, env.publisher, s.epoch,
                                               s.sequence + 1, tick, applied))),
           Ok(()))
  }

  function RevokeGeneration(o: Oracles, s: State, env: SessionEnvelope, flow: FlowId, generation: nat, reason: string,
                            tick: Tick)
    : (State, Result<()>)
  {
    if env.epoch != s.epoch then
      (s, Err(StaleEpoch))
    else if !F.HasGeneration(s.flows, flow, generation) then
      (s, Err(UnknownFlow))
    else if s.sequence >= MAX_U64 then
      (s, Err(CounterExhausted))
    else
      (s.(sequence := s.sequence + 1,
          decisions := D.WithRevocation(s.decisions,
                         RevocationRecord(flow, generation, "", env.session, env.publisher, s.epoch, s.sequence + 1, tick,
                                          AppliedReason(o, reason, RevokedByRequest)))),
       Ok(()))
  }

  // ---- classification -----------------------------------------------------

  datatype Query = Query(flowKey: FlowKey, flowGeneration: nat, acceptCurrent: bool)

  datatype Answer = Answer(classification: Classification, memoHit: bool, historical: bool)

  ghost function Authority(s: State, tick: Tick): AuthorityContext {
    AuthorityContext(s.epoch, s.boot, tick, s.authoritySequence, P.LiveIncarnations(s.publishers), s.publishers.live.Keys)
  }

  /** Everything the engine is asked about one incarnation of a flow. */
  ghost function Question(s: State, flow: FlowRecord, generation: nat, tick: Tick): DecisionInput {
    DecisionInput(flow.(generation := generation), E.FlowRecords(s.evidence, flow.id), W.ActiveContracts(s.workloads),
                  Entries(s.workloads.workloads), Authority(s, tick), s.policy,
                  D.IsRevoked(s.decisions, flow.id, generation))
  }

  ghost function KeyOf(o: Oracles, q: DecisionInput): D.DecisionKey {
    D.DecisionKey(q.flow.id, q.flow.generation, DecisionDigest.EvidenceSetDigest(o, q), q.policy.generation)
  }

  /** The generation a query is about, or why it cannot be answered. */
  function Subject(s: State, q: Query): Result<nat> {
    if q.flowKey !in s.flows.current then Err(UnknownFlow)
    else
      var flow := s.flows.current[q.flowKey];
      if q.flowGeneration == 0 then if q.acceptCurrent then Ok(flow.generation) else Err(InvalidArgument)
      else if q.flowGeneration == flow.generation || F.HasGeneration(s.flows, flow.id, q.flowGeneration)
      then Ok(q.flowGeneration)
      else Err(UnknownFlow)
  }

  /** Answers a question from the memo, or decides it, remembers and files the decision. */
  ghost function Answered(o: Oracles, s: State, input: DecisionInput): (State, Classification, bool) {
    var key := KeyOf(o, input);
    if key in s.decisions.memo then
      (s, s.decisions.memo[key], true)
    else
      var c := Decision(o, input);
      (s.(decisions := D.Recorded(D.MemoStored(s.decisions, key, c), c)), c, false)
  }

  ghost function Classify(o: Oracles, s: State, q: Query, tick: Tick): (State, Result<Answer>) {
    var subject := Subject(s, q);
    if subject.Err? then
      (s, Err(subject.code))
    else
      var flow := s.flows.current[q.flowKey];
      var (t, c, hit) := Answered(o, s, Question(s, flow, subject.value, tick));
      (t, Ok(Answer(c, hit, subject.value != flow.generation)))
  }
}
