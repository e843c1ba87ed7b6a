/**
 * The decision engine: which class a flow incarnation carries, decided from the evidence
 * about it, the active contracts and the authority context.
 *
 * `Decision` is the value the engine computes; DecisionMethod.dfy holds the imperative
 * form, DecisionTheorems.dfy what every decision satisfies.
 */
module DecisionEngine {
  import opened Domain
  import opened Sorting

  datatype AuthorityContext = AuthorityContext(
    epoch: nat,
    coordinatorBoot: nat,
    tick: Tick,
    authoritySequence: nat,
    live: set<(string, nat)>,
    known: set<string>)

  datatype DecisionInput = DecisionInput(
    flow: FlowRecord,
    evidence: seq<EvidenceRecord>,
    contracts: seq<WorkloadContract>,
    workloads: seq<WorkloadRecord>,
    authority: AuthorityContext,
    policy: ClassifierPolicy,
    revoked: bool)

  datatype Candidate = Candidate(record: EvidenceRecord, disposition: Disposition, detail: string)

  // ---- precedence ---------------------------------------------------------

  predicate RanksAbove(left: EvidenceRecord, right: EvidenceRecord) {
    if SourceRank(left.source) != SourceRank(right.source) then
      SourceRank(left.source) > SourceRank(right.source)
    else if left.workloadGeneration != right.workloadGeneration then
      left.workloadGeneration > right.workloadGeneration
    else if left.acceptedSeq != right.acceptedSeq then
      left.acceptedSeq > right.acceptedSeq
    else
      TextLess(left.id, right.id)
  }

  predicate CandidateRanksAbove(a: Candidate, b: Candidate) {
    RanksAbove(a.record, b.record)
  }

  /** Eligible candidates first, then by precedence. */
  predicate CandidateBefore(a: Candidate, b: Candidate) {
    if a.disposition.Selected? != b.disposition.Selected? then
      a.disposition.Selected?
    else
      RanksAbove(a.record, b.record)
  }

  // ---- 1. the candidate pool ----------------------------------------------

  predicate SeenBefore(records: seq<EvidenceRecord>, i: nat)
    requires i < |records|
  {
    exists j | 0 <= j < i :: records[j].id == records[i].id
  }

  function EvidenceCandidate(o: Oracles, records: seq<EvidenceRecord>, i: nat): Candidate
    requires i < |records|
  {
    if SeenBefore(records, i) then
      Candidate(records[i], RejectedRecord, o.render(DuplicateIdentityPhrase))
    else
      Candidate(records[i], Selected, "")
  }

  function EvidenceCandidates(o: Oracles, records: seq<EvidenceRecord>): seq<Candidate> {
    seq(|records|, i requires 0 <= i < |records| => EvidenceCandidate(o, records, i))
  }

  /** The generation of the first workload record with this identity. */
  function WorkloadGeneration(workloads: seq<WorkloadRecord>, id: string): Option<nat> {
    if workloads == [] then None
    else if workloads[0].id == id then Some(workloads[0].generation)
    else WorkloadGeneration(workloads[1..], id)
  }

  predicate ContractApplies(input: DecisionInput, c: WorkloadContract) {
    && c.state == ContractActive
    && ContractCovers(c, input.flow.key)
    && WorkloadGeneration(input.workloads, c.workload) == Some(c.workloadGeneration)
  }

  /** The identity encoder holds 256 bytes, 93 of which are not the contract identity. */
  const MAX_HASHED_CONTRACT_ID: nat := 163

  function DerivedId(o: Oracles, c: WorkloadContract, flow: FlowRecord): string {
    if |c.id| <= MAX_HASHED_CONTRACT_ID then
      o.contractEvidenceId(ContractIdentity(c.id, c.workloadGeneration, flow.id, flow.generation, c.definitionDigest))
    else
      ""
  }

  function FreshnessWindow(policy: ClassifierPolicy): nat {
    if policy.defaultFreshnessWindow == 0 then 1 else policy.defaultFreshnessWindow
  }

  function DerivedRecord(o: Oracles, input: DecisionInput, c: WorkloadContract): EvidenceRecord {
    var tick := input.authority.tick;
    var draft := EvidenceRecord(
                   DerivedId(o, c, input.flow), c.owner, 0, "", input.authority.epoch, 0,
                   c.workload, c.workloadGeneration, c.id, input.flow.id, input.flow.generation,
                   c.workloadGeneration, 0, tick,
                   if tick == 0 then 0 else tick + FreshnessWindow(input.policy),
                   c.declaredClass, c.derivedSource, EvidenceCurrent, SourceConfidence(c.derivedSource),
                   EvidenceMetadata("contract", 0, o.render(DerivedFromContract(c.id)), c.id), [], "");
    draft.(contentDigest := EvidenceDigest(o, draft))
  }

  predicate IdIn(records: seq<EvidenceRecord>, id: string) {
    exists j | 0 <= j < |records| :: records[j].id == id
  }

  /** The records derived from the first `n` contracts. */
  function DerivedRecords(o: Oracles, input: DecisionInput, n: nat): seq<EvidenceRecord>
    requires n <= |input.contracts|
  {
    if n == 0 then
      []
    else
      var before := DerivedRecords(o, input, n - 1);
      var c := input.contracts[n - 1];
      var id := DerivedId(o, c, input.flow);
      if ContractApplies(input, c) && !IdIn(input.evidence, id) && !IdIn(before, id) then
        before + [DerivedRecord(o, input, c)]
      else
        before
  }

  function Fresh(r: EvidenceRecord): Candidate {
    Candidate(r, Selected, "")
  }

  function DerivedCandidates(o: Oracles, input: DecisionInput): seq<Candidate> {
    var derived := DerivedRecords(o, input, |input.contracts|);
    seq(|derived|, i requires 0 <= i < |derived| => Fresh(derived[i]))
  }

  // ---- 2. currentness -----------------------------------------------------

  predicate MatchesFlow(r: EvidenceRecord, flow: FlowRecord) {
    r.flowId == flow.id && r.flowGeneration == flow.generation
  }

  predicate IsLive(a: AuthorityContext, r: EvidenceRecord) {
    (r.publisher, r.publisherBoot) in a.live
  }

  predicate Expired(a: AuthorityContext, r: EvidenceRecord) {
    a.tick != 0 && r.freshUntil != 0 && a.tick > r.freshUntil
  }

  /** The verdict on a record that claims to be current. */
  function Reassessed(o: Oracles, input: DecisionInput, r: EvidenceRecord): (EvidenceState, string) {
    var a := input.authority;
    if r.acceptedEpoch != a.epoch then
      (EvidenceStale, o.render(OtherEpoch(r.acceptedEpoch, a.epoch)))
    else if r.source.Heuristic? && !input.policy.allowHeuristicEvidence then
      (EvidenceRejected, o.render(HeuristicsNotPermitted))
    else if RequiresLiveSession(r.source) && !IsLive(a, r) then
      (EvidenceStale,
       if r.publisher in a.known then o.render(PublisherNotLive(r.publisher, r.publisherBoot))
       else o.render(PublisherNotRegistered(r.publisher)))
    else if Expired(a, r) then
      (EvidenceStale, o.render(FreshnessExpired(r.freshUntil)))
    else
      (r.state, r.stateReason)
  }

  function DispositionForState(state: EvidenceState): Disposition {
    match state
    case EvidenceCurrent => Corroborating
    case EvidenceStale => StaleRecord
    case EvidenceSuperseded => Withdrawn
    case EvidenceRevoked => RevokedRecord
    case EvidenceInsufficient => BelowThreshold
    case EvidenceRejected => RejectedRecord
    case EvidenceNone => RejectedRecord
  }

  function AssessedRecord(o: Oracles, input: DecisionInput, r: EvidenceRecord): EvidenceRecord {
    if r.state == EvidenceCurrent then
      var (state, reason) := Reassessed(o, input, r);
      r.(state := state, stateReason := reason)
    else
      r
  }

  function Assess(o: Oracles, input: DecisionInput, c: Candidate): Candidate {
    if c.disposition == RejectedRecord then
      c
    else if !MatchesFlow(c.record, input.flow) then
      Candidate(c.record.(state := EvidenceStale, stateReason := o.render(OtherGenerationReason)), StaleRecord,
                o.render(OtherGenerationDetail(c.record.flowGeneration, input.flow.generation)))
    else
      var r := AssessedRecord(o, input, c.record);
      if r.state != EvidenceCurrent then
        Candidate(r,
                  if c.disposition.Selected? then DispositionForState(r.state) else c.disposition,
                  if c.detail == "" then r.stateReason else c.detail)
      else if r.source.Heuristic? then
        Candidate(r, Subordinate, o.render(HeuristicNote))
      else
        c.(record := r)
  }

  function AssessAll(o: Oracles, input: DecisionInput, cs: seq<Candidate>): seq<Candidate> {
    seq(|cs|, i requires 0 <= i < |cs| => Assess(o, input, cs[i]))
  }

  function Pool(o: Oracles, input: DecisionInput): seq<Candidate> {
    AssessAll(o, input, EvidenceCandidates(o, input.evidence) + DerivedCandidates(o, input))
  }

  // ---- 3. the winner ------------------------------------------------------

  predicate CanWin(c: Candidate) {
    c.disposition.Selected? && c.record.semantic != UnknownClass
  }

  /** Index of the first candidate that can win, or the length when there is none. */
  function FirstWinner(cs: seq<Candidate>): (i: nat)
    ensures i <= |cs|
    ensures i < |cs| ==> CanWin(cs[i])
    ensures forall j | 0 <= j < i :: !CanWin(cs[j])
  {
    if cs == [] then 0
    else if CanWin(cs[0]) then 0
    else 1 + FirstWinner(cs[1..])
  }

  function WinnerIndex(revoked: bool, cs: seq<Candidate>): (i: nat)
    ensures i <= |cs|
  {
    if revoked then |cs| else FirstWinner(cs)
  }

  // ---- 4. citations, corroboration and contradictions ---------------------

  /** Current and authoritative: may corroborate or contradict. */
  predicate Standing(c: Candidate) {
    c.record.state == EvidenceCurrent && !c.record.source.Heuristic?
  }

  predicate Agrees(w: EvidenceRecord, c: Candidate) {
    Standing(c) && c.record.semantic == w.semantic
  }

  predicate Disagrees(w: EvidenceRecord, c: Candidate) {
    Standing(c) && c.record.semantic != w.semantic && c.record.semantic != UnknownClass
  }

  function AgreesWith(w: EvidenceRecord): Candidate -> bool {
    c => Agrees(w, c)
  }

  function DisagreesWith(w: EvidenceRecord): Candidate -> bool {
    c => Disagrees(w, c)
  }

  function CitedDisposition(cs: seq<Candidate>, wi: nat, i: nat): Disposition
    requires wi <= |cs| && i < |cs|
  {
    if i == wi then Selected
    else if cs[i].record.state != EvidenceCurrent then cs[i].disposition
    else if cs[i].record.source.Heuristic? || wi == |cs| then Subordinate
    else if Agrees(cs[wi].record, cs[i]) then Corroborating
    else if Disagrees(cs[wi].record, cs[i]) then Contradicting
    else Subordinate
  }

  function Cite(c: Candidate, disposition: Disposition): EvidenceCitation {
    EvidenceCitation(c.record.id, c.record.publisher, c.record.source, c.record.state, c.record.semantic,
                     disposition, c.record.confidence, c.record.generation, c.record.acceptedSeq,
                     c.record.acceptedTick, c.record.freshUntil, c.detail)
  }

  function AllCitations(cs: seq<Candidate>, wi: nat): seq<EvidenceCitation>
    requires wi <= |cs|
  {
    seq(|cs|, i requires 0 <= i < |cs| => Cite(cs[i], CitedDisposition(cs, wi, i)))
  }

  predicate CitationBefore(a: EvidenceCitation, b: EvidenceCitation) {
    if a.disposition != b.disposition then
      DispositionCode(a.disposition) < DispositionCode(b.disposition)
    else
      TextLess(a.id, b.id)
  }

  /** How many others agree with the winner, which is itself among those that agree. */
  function Corroboration(cs: seq<Candidate>, w: EvidenceRecord): nat {
    var agreeing := |Filter(AgreesWith(w), cs)|;
    if agreeing == 0 then 0 else agreeing - 1
  }

  function ContradictionOf(o: Oracles, w: EvidenceRecord, r: EvidenceRecord): Contradiction {
    Contradiction(w.id, r.id, w.semantic, w.source, r.semantic, r.source,
                  o.render(PrecedenceNote(SourceRank(w.source), SourceRank(r.source))))
  }

  function Opponents(cs: seq<Candidate>, w: EvidenceRecord): seq<Candidate> {
    Sort(CandidateRanksAbove, Filter(DisagreesWith(w), cs))
  }

  function Contradictions(o: Oracles, cs: seq<Candidate>, w: EvidenceRecord): seq<Contradiction> {
    var opponents := Opponents(cs, w);
    seq(|opponents|, i requires 0 <= i < |opponents| => ContradictionOf(o, w, opponents[i].record))
  }

  /** The part of a decision that says what was decided, as opposed to what was cited. */
  datatype Verdict = Verdict(
    semantic: SemanticClass,
    state: ClassificationState,
    confidence: Confidence,
    selectedEvidence: string,
    selectedSource: EvidenceSource,
    corroborationCount: nat,
    contradictions: seq<Contradiction>,
    appliedPenalty: nat)

  function NothingDecided(state: ClassificationState): Verdict {
    Verdict(UnknownClass, state, 0, "", UnknownSource, 0, [], 0)
  }

  /** The verdict for a winner, before the publishable threshold. */
  function WinnerVerdict(o: Oracles, policy: ClassifierPolicy, cs: seq<Candidate>, w: EvidenceRecord): Verdict {
    var base := WeakerConfidence(w.confidence, SourceConfidence(w.source));
    var corroboration := Corroboration(cs, w);
    var contradictions := Contradictions(o, cs, w);
    if contradictions != [] then
      Verdict(w.semantic, Contradicted, ReducedBy(base, policy.contradictionPenalty), w.id, w.source,
              corroboration, contradictions, policy.contradictionPenalty)
    else
      Verdict(w.semantic, if corroboration > 0 then Corroborated else Current, base, w.id, w.source,
              corroboration, [], 0)
  }

  predicate IsCurrentCandidate(c: Candidate) {
    c.record.state == EvidenceCurrent
  }

  predicate IsFormerCandidate(c: Candidate) {
    c.record.state == EvidenceStale || c.record.state == EvidenceSuperseded
  }

  function NoWinnerState(cs: seq<Candidate>): ClassificationState {
    if exists i | 0 <= i < |cs| :: IsCurrentCandidate(cs[i]) then Insufficient
    else if exists i | 0 <= i < |cs| :: IsFormerCandidate(cs[i]) then Stale
    else Insufficient
  }

  predicate FallsShort(o: Oracles, policy: ClassifierPolicy, cs: seq<Candidate>, wi: nat) {
    wi < |cs| && WinnerVerdict(o, policy, cs, cs[wi].record).confidence < policy.minimumPublishableConfidence
  }

  function Judge(o: Oracles, policy: ClassifierPolicy, revoked: bool, cs: seq<Candidate>): Verdict {
    var wi := WinnerIndex(revoked, cs);
    if revoked then NothingDecided(Revoked)
    else if wi == |cs| then NothingDecided(NoWinnerState(cs))
    else if FallsShort(o, policy, cs, wi) then NothingDecided(Insufficient)
    else WinnerVerdict(o, policy, cs, cs[wi].record)
  }

  function Demoted(o: Oracles, id: string, c: EvidenceCitation): EvidenceCitation {
    if c.id == id then c.(disposition := BelowThreshold, detail := o.render(BelowThresholdNote)) else c
  }

  function DemoteWinner(o: Oracles, id: string, cites: seq<EvidenceCitation>): seq<EvidenceCitation> {
    seq(|cites|, i requires 0 <= i < |cites| => Demoted(o, id, cites[i]))
  }

  /** The citations in canonical order, the winner demoted when it fell short. */
  function OrderedCitations(o: Oracles, policy: ClassifierPolicy, revoked: bool, cs: seq<Candidate>): seq<EvidenceCitation> {
    var wi := WinnerIndex(revoked, cs);
    var cites := Sort(CitationBefore, AllCitations(cs, wi));
    if FallsShort(o, policy, cs, wi) then DemoteWinner(o, cs[wi].record.id, cites) else cites
  }

  // ---- 5. the consideration cap -------------------------------------------

  predicate IsDecisive(c: EvidenceCitation) {
    c.disposition.Selected? || c.disposition.Contradicting? || c.disposition.Corroborating?
  }

  predicate IsIncidental(c: EvidenceCitation) {
    !IsDecisive(c)
  }

  function Excluded(o: Oracles, cap: nat, c: EvidenceCitation): EvidenceCitation {
    c.(disposition := ExcludedByLimit, detail := o.render(LimitNote(cap)))
  }

  function ExcludeAll(o: Oracles, cap: nat, cites: seq<EvidenceCitation>): seq<EvidenceCitation> {
    seq(|cites|, i requires 0 <= i < |cites| => Excluded(o, cap, cites[i]))
  }

  /** How many of `incidental` citations stay when `decisive` ones are always kept. */
  function Kept(cap: nat, decisive: nat, incidental: nat): (k: nat)
    ensures k <= incidental
  {
    var budget := if decisive + incidental > cap then if cap > decisive then cap - decisive else 0 else incidental;
    if incidental < budget then incidental else budget
  }

  function Capped(o: Oracles, cap: nat, cites: seq<EvidenceCitation>): seq<EvidenceCitation> {
    var decisive := Filter(IsDecisive, cites);
    var incidental := Filter(IsIncidental, cites);
    var k := Kept(cap, |decisive|, |incidental|);
    Sort(CitationBefore, decisive + incidental[..k] + ExcludeAll(o, cap, incidental[k..]))
  }

  // ---- 6. the final guard -------------------------------------------------

  predicate Justifies(semantic: SemanticClass, c: EvidenceCitation) {
    c.disposition.Selected? && c.state == EvidenceCurrent && c.semantic == semantic
  }

  function Guarded(v: Verdict, cites: seq<EvidenceCitation>): Verdict {
    if && v.semantic != UnknownClass
       && v.state != Revoked
       && !(exists i | 0 <= i < |cites| :: Justifies(v.semantic, cites[i]))
    then
      v.(semantic := UnknownClass, state := Insufficient, confidence := 0, selectedEvidence := "",
         selectedSource := UnknownSource)
    else
      v
  }

  // ---- the decision -------------------------------------------------------

  function CitationContent(c: EvidenceCitation): EvidenceCitation {
    c.(acceptedSeq := 0, acceptedTick := 0, freshUntil := 0, detail := "")
  }

  predicate CitationIdLess(a: EvidenceCitation, b: EvidenceCitation) {
    TextLess(a.id, b.id)
  }

  /** What the decision digest covers: not the tick, epoch or boot, and citations by identity. */
  function DecisionContent(c: Classification): Classification {
    var cites := Sort(CitationIdLess, c.citations);
    c.(citations := seq(|cites|, i requires 0 <= i < |cites| => CitationContent(cites[i])),
       coordinatorEpoch := 0, coordinatorBoot := 0, decidedTick := 0, digest := [])
  }

  function Assemble(o: Oracles, input: DecisionInput, v: Verdict, cites: seq<EvidenceCitation>): Classification {
    var draft := Classification(
                   input.flow.id, input.flow.generation, v.semantic, v.state, v.confidence,
                   v.selectedEvidence, v.selectedSource, cites, v.contradictions, v.corroborationCount,
                   v.appliedPenalty, input.policy.generation, o.policyDigest(input.policy.(generation := 0)),
                   input.authority.epoch, input.authority.coordinatorBoot, input.authority.tick, []);
    draft.(digest := o.decisionDigest(DecisionContent(draft)))
  }

  /** The decision taken over the candidates in precedence order. */
  function DecideOver(o: Oracles, input: DecisionInput, cs: seq<Candidate>): Classification {
    var cites := Capped(o, input.policy.maxEvidenceConsidered, OrderedCitations(o, input.policy, input.revoked, cs));
    Assemble(o, input, Guarded(Judge(o, input.policy, input.revoked, cs), cites), cites)
  }

  function Ranked(o: Oracles, input: DecisionInput): seq<Candidate> {
    Sort(CandidateBefore, Pool(o, input))
  }

  function Decision(o: Oracles, input: DecisionInput): Classification {
    DecideOver(o, input, Ranked(o, input))
  }

  function VerdictOf(c: Classification): Verdict {
    Verdict(c.semantic, c.state, c.confidence, c.selectedEvidence, c.selectedSource, c.corroborationCount,
            c.contradictions, c.appliedPenalty)
  }
}
