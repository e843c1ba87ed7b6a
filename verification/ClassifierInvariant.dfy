/**
 * What every classifier step keeps, and how the state may evolve.
 */
module ClassifierInvariant {
  import opened Domain
  import opened DecisionEngine
  import opened ClassifierState
  import DecisionDigest
  import E = EvidenceStore
  import P = PublisherRegistry
  import W = WorkloadRegistry
  import F = FlowRegistry
  import D = ClassificationIndex

  // ---- how one record may change ------------------------------------------

  /** States are only ever left for states further on. */
  function StateRank(s: EvidenceState): nat {
    match s
    case EvidenceCurrent => 0
    case EvidenceStale => 1
    case EvidenceInsufficient => 2
    case EvidenceRejected => 3
    case EvidenceRevoked => 4
    case EvidenceNone => 5
    case EvidenceSuperseded => 6
  }

  /** The same record, at the same or a later state; a state is entered once. */
  ghost predicate Ages(a: EvidenceRecord, b: EvidenceRecord) {
    && b == a.(state := b.state, stateReason := b.stateReason)
    && StateRank(a.state) <= StateRank(b.state)
    && (a.state == b.state ==> a == b)
  }

  lemma AgesTransitive(a: EvidenceRecord, b: EvidenceRecord, c: EvidenceRecord)
    requires Ages(a, b) && Ages(b, c)
    ensures Ages(a, c)
  {
  }

  lemma CurrentIsUntouched(a: EvidenceRecord, b: EvidenceRecord)
    requires Ages(a, b) && b.state == EvidenceCurrent
    ensures a == b
  {
  }

  /** The store with some of its records aged and nothing else changed. */
  ghost predicate Relabelled(e: E.Evidence, f: E.Evidence) {
    && f == e.(byId := f.byId)
    && f.byId.Keys == e.byId.Keys
    && forall id | id in e.byId :: Ages(e.byId[id], f.byId[id])
  }

  lemma RelabelledRefl(e: E.Evidence)
    ensures Relabelled(e, e)
  {
  }

  lemma RelabelledTransitive(e: E.Evidence, f: E.Evidence, g: E.Evidence)
    requires Relabelled(e, f) && Relabelled(f, g)
    ensures Relabelled(e, g)
  {
    forall id | id in e.byId
      ensures Ages(e.byId[id], g.byId[id])
    {
      AgesTransitive(e.byId[id], f.byId[id], g.byId[id]);
    }
  }

  lemma MarkStaleRelabels(e: E.Evidence, p: EvidenceRecord -> bool, reason: string)
    ensures Relabelled(e, E.MarkStale(e, p, reason))
  {
  }

  lemma MarkEpochStaleRelabels(o: Oracles, e: E.Evidence, epoch: nat)
    ensures Relabelled(e, E.MarkEpochStale(o, e, epoch))
  {
  }

  lemma StaleContractsRelabels(e: E.Evidence, ids: set<string>, reason: string -> string)
    ensures Relabelled(e, StaleContracts(e, ids, reason))
  {
  }

  lemma SupersedeRelabels(e: E.Evidence, id: string, reason: string)
    ensures Relabelled(e, E.WithState(e, id, EvidenceSuperseded, reason).0)
  {
  }

  // ---- the invariant ------------------------------------------------------

  ghost predicate WellFormed(o: Oracles, r: EvidenceRecord) {
    && r.id == o.evidenceId(IdentityOf(r))
    && r.contentDigest == EvidenceDigest(o, r)
  }

  ghost predicate WasUsed(p: P.Publishers, r: EvidenceRecord) {
    P.Used(p, r.publisher, r.publisherBoot, r.generation)
  }

  /** The publisher is registered, and either live in the record's boot or past it. */
  ghost predicate Attended(p: P.Publishers, r: EvidenceRecord) {
    && r.publisher in p.live
    && (|| p.live[r.publisher].boot > r.publisherBoot
        || (p.live[r.publisher].boot == r.publisherBoot && p.live[r.publisher].state == PublisherLive))
  }

  ghost predicate OnCurrentFlow(f: F.Flows, r: EvidenceRecord) {
    exists k :: k in f.current && f.current[k].id == r.flowId && f.current[k].generation == r.flowGeneration
  }

  /** What stands behind a record whose stored state is CURRENT. */
  ghost predicate Grounded(s: State, r: EvidenceRecord) {
    r.acceptedEpoch == s.epoch && Attended(s.publishers, r) && OnCurrentFlow(s.flows, r)
  }

  ghost predicate RecordInvariant(o: Oracles, s: State, r: EvidenceRecord) {
    && WellFormed(o, r)
    && WasUsed(s.publishers, r)
    && r.acceptedEpoch <= s.epoch
    && r.acceptedSeq <= s.sequence
    && (r.state == EvidenceCurrent ==> Grounded(s, r))
  }

  ghost predicate RecordsInvariant(o: Oracles, s: State) {
    forall id | id in s.evidence.byId :: RecordInvariant(o, s, s.evidence.byId[id])
  }

  predicate SameTopic(a: EvidenceRecord, b: EvidenceRecord) {
    a.publisher == b.publisher && a.publisherBoot == b.publisherBoot && a.metadata.topic == b.metadata.topic
  }

  /** If `a` is CURRENT then `b`, on the same topic, is an older generation. */
  ghost predicate Leads(e: E.Evidence, a: string, b: string) {
    a in e.byId && b in e.byId && e.byId[a].state == EvidenceCurrent && SameTopic(e.byId[a], e.byId[b]) ==>
      e.byId[b].generation < e.byId[a].generation
  }

  /** Among the records a flow reaches, a CURRENT one has the highest generation of its topic. */
  ghost predicate TopicInvariant(e: E.Evidence) {
    forall flow, a, b | flow in e.byFlow && a in e.byFlow[flow] && b in e.byFlow[flow] && a != b :: Leads(e, a, b)
  }

  /** Acceptance numbers are used once and never run ahead of the counter. */
  ghost predicate Numbered(s: State) {
    && (forall a, b | a in s.evidence.byId && b in s.evidence.byId && a != b ::
          s.evidence.byId[a].acceptedSeq != s.evidence.byId[b].acceptedSeq)
    && (forall i | 0 <= i < |s.decisions.revocations| :: s.decisions.revocations[i].seqno <= s.sequence)
    && (forall i | 0 <= i < |s.decisions.supersessions| :: s.decisions.supersessions[i].seqno <= s.sequence)
  }

  /** A record seen earlier: its generation stays used, and if stored it has only aged. */
  ghost predicate Recalled(o: Oracles, s: State, x: EvidenceRecord) {
    && WellFormed(o, x)
    && WasUsed(s.publishers, x)
    && (x.id in s.evidence.byId ==> Ages(x, s.evidence.byId[x.id]))
  }

  /** The remembered decision was taken on a question whose parts still bind the state. */
  ghost predicate Backs(o: Oracles, s: State, key: D.DecisionKey, a: DecisionInput) {
    && key in s.decisions.memo
    && s.decisions.memo[key] == Decision(o, a)
    && key == KeyOf(o, a)
    && DecisionDigest.Sealed(o, a)
    && a.policy == s.policy
    && a.authority.authoritySequence <= s.authoritySequence
    && (a.authority.authoritySequence == s.authoritySequence ==>
          a.authority.live == P.LiveIncarnations(s.publishers) && a.authority.known == s.publishers.live.Keys)
    && forall i | 0 <= i < |a.evidence| :: Recalled(o, s, a.evidence[i])
  }

  ghost predicate MemoBacked(o: Oracles, s: State) {
    forall key | key in s.decisions.memo :: exists a :: Backs(o, s, key, a)
  }

  ghost predicate StoresInvariant(o: Oracles, s: State) {
    && P.RegistryInvariant(s.publishers)
    && W.ContractInvariant(o, s.workloads)
    && F.FlowInvariant(o, s.flows)
  }

  ghost predicate Inv(o: Oracles, s: State) {
    && StoresInvariant(o, s)
    && E.IndexInvariant(s.evidence)
    && D.MemoInvariant(s.decisions)
    && RecordsInvariant(o, s)
    && TopicInvariant(s.evidence)
    && Numbered(s)
  }

  // ---- how the state may evolve -------------------------------------------

  /** A change to who is live always advances the authority sequence. */
  ghost predicate AuthorityForward(s: State, t: State) {
    && s.authoritySequence <= t.authoritySequence
    && (s.authoritySequence == t.authoritySequence ==>
          && P.LiveIncarnations(s.publishers) == P.LiveIncarnations(t.publishers)
          && s.publishers.live.Keys == t.publishers.live.Keys)
  }

  /** What may only move forward, restarts included. */
  ghost predicate DurableForward(s: State, t: State) {
    && s.epoch <= t.epoch
    && s.sequence <= t.sequence
    && P.Forward(s.publishers, t.publishers)
    && F.FlowsForward(s.flows, t.flows)
    && W.ContractsForward(s.workloads, t.workloads)
  }

  ghost predicate MovesForward(s: State, t: State) {
    DurableForward(s, t) && AuthorityForward(s, t)
  }

  /** A stored record continues one that was stored before, or its generation is new. */
  ghost predicate Continues(o: Oracles, s: State, id: string, r: EvidenceRecord) {
    if id in s.evidence.byId then Ages(s.evidence.byId[id], r)
    else WellFormed(o, r) && r.id == id && !WasUsed(s.publishers, r)
  }

  ghost predicate Evolves(o: Oracles, s: State, t: State) {
    && MovesForward(s, t)
    && forall id | id in t.evidence.byId :: Continues(o, s, id, t.evidence.byId[id])
  }

  lemma DurableForwardTransitive(s: State, t: State, u: State)
    requires DurableForward(s, t) && DurableForward(t, u)
    ensures DurableForward(s, u)
  {
    P.ForwardTransitive(s.publishers, t.publishers, u.publishers);
  }

  lemma MovesForwardTransitive(s: State, t: State, u: State)
    requires MovesForward(s, t) && MovesForward(t, u)
    ensures MovesForward(s, u)
  {
    DurableForwardTransitive(s, t, u);
  }

  /** An identity whose generation was used cannot be minted again. */
  lemma MintedOnce(o: Oracles, p: P.Publishers, x: EvidenceRecord, r: EvidenceRecord)
    requires DistinctEvidenceIds(o) && WellFormed(o, x) && WellFormed(o, r) && x.id == r.id
    requires WasUsed(p, x)
    ensures WasUsed(p, r)
  {
    assert IdentityOf(x) == IdentityOf(r);
  }

  lemma ContinuesTransitive(o: Oracles, s: State, t: State, id: string, r: EvidenceRecord)
    requires DistinctEvidenceIds(o) && Evolves(o, s, t) && Continues(o, t, id, r)
    requires id in s.evidence.byId ==> s.evidence.byId[id].id == id && RecordInvariant(o, s, s.evidence.byId[id])
    ensures Continues(o, s, id, r)
  {
    if id in t.evidence.byId {
      var m := t.evidence.byId[id];
      assert Continues(o, s, id, m);
      if id in s.evidence.byId {
        AgesTransitive(s.evidence.byId[id], m, r);
      } else {
        assert EvidenceContent(r) == EvidenceContent(m);
      }
    } else {
      if WasUsed(s.publishers, r) {
        P.ForwardKeepsUsed(s.publishers, t.publishers, r.publisher, r.publisherBoot, r.generation);
      }
      if id in s.evidence.byId {
        MintedOnce(o, s.publishers, s.evidence.byId[id], r);
      }
    }
  }

  lemma EvolvesTransitive(o: Oracles, s: State, t: State, u: State)
    requires DistinctEvidenceIds(o) && Inv(o, s) && Evolves(o, s, t) && Evolves(o, t, u)
    ensures Evolves(o, s, u)
  {
    MovesForwardTransitive(s, t, u);
    forall id | id in u.evidence.byId
      ensures Continues(o, s, id, u.evidence.byId[id])
    {
      ContinuesTransitive(o, s, t, id, u.evidence.byId[id]);
    }
  }

  lemma RecalledCarries(o: Oracles, s: State, t: State, x: EvidenceRecord)
    requires DistinctEvidenceIds(o) && Recalled(o, s, x) && Evolves(o, s, t)
    ensures Recalled(o, t, x)
  {
    P.ForwardKeepsUsed(s.publishers, t.publishers, x.publisher, x.publisherBoot, x.generation);
    if x.id in t.evidence.byId {
      var r := t.evidence.byId[x.id];
      assert Continues(o, s, x.id, r);
      if x.id in s.evidence.byId {
        AgesTransitive(x, s.evidence.byId[x.id], r);
      } else {
        MintedOnce(o, s.publishers, x, r);
      }
    }
  }

  /** What backs a remembered decision keeps backing it while the policy stands. */
  lemma BacksCarries(o: Oracles, s: State, t: State, key: D.DecisionKey, a: DecisionInput)
    requires DistinctEvidenceIds(o) && Backs(o, s, key, a) && Evolves(o, s, t)
    requires t.policy == s.policy
    requires key in t.decisions.memo && t.decisions.memo[key] == s.decisions.memo[key]
    ensures Backs(o, t, key, a)
  {
    forall i | 0 <= i < |a.evidence|
      ensures Recalled(o, t, a.evidence[i])
    {
      RecalledCarries(o, s, t, a.evidence[i]);
    }
  }

  /** The memo keeps its entries under one policy, or is emptied. */
  ghost predicate MemoShrinks(s: State, t: State) {
    && D.MemoInvariant(t.decisions)
    && forall key | key in t.decisions.memo ::
         t.policy == s.policy && key in s.decisions.memo && t.decisions.memo[key] == s.decisions.memo[key]
  }

  lemma MemoCarries(o: Oracles, s: State, t: State)
    requires DistinctEvidenceIds(o) && MemoBacked(o, s) && Evolves(o, s, t) && MemoShrinks(s, t)
    ensures MemoBacked(o, t)
  {
    forall key | key in t.decisions.memo
      ensures exists a :: Backs(o, t, key, a)
    {
      var a :| Backs(o, s, key, a);
      BacksCarries(o, s, t, key, a);
    }
  }

  // ---- steps that relabel records -----------------------------------------

  ghost predicate GroundsKept(t: State) {
    forall id | id in t.evidence.byId && t.evidence.byId[id].state == EvidenceCurrent :: Grounded(t, t.evidence.byId[id])
  }

  ghost predicate RingsNumbered(t: State) {
    && (forall i | 0 <= i < |t.decisions.revocations| :: t.decisions.revocations[i].seqno <= t.sequence)
    && (forall i | 0 <= i < |t.decisions.supersessions| :: t.decisions.supersessions[i].seqno <= t.sequence)
  }

  lemma AgedRecordInvariant(o: Oracles, s: State, t: State, a: EvidenceRecord, b: EvidenceRecord)
    requires RecordInvariant(o, s, a) && Ages(a, b) && DurableForward(s, t)
    requires b.state == EvidenceCurrent ==> Grounded(t, b)
    ensures RecordInvariant(o, t, b)
  {
    assert EvidenceContent(a) == EvidenceContent(b);
    P.ForwardKeepsUsed(s.publishers, t.publishers, a.publisher, a.publisherBoot, a.generation);
  }

  lemma RelabelledRecords(o: Oracles, s: State, t: State)
    requires RecordsInvariant(o, s) && Relabelled(s.evidence, t.evidence) && MovesForward(s, t) && GroundsKept(t)
    ensures RecordsInvariant(o, t)
    ensures Evolves(o, s, t)
  {
    forall id | id in t.evidence.byId
      ensures RecordInvariant(o, t, t.evidence.byId[id])
    {
      AgedRecordInvariant(o, s, t, s.evidence.byId[id], t.evidence.byId[id]);
    }
  }

  lemma RelabelledTopics(e: E.Evidence, f: E.Evidence)
    requires TopicInvariant(e) && Relabelled(e, f)
    ensures TopicInvariant(f)
  {
    forall flow, a, b | flow in f.byFlow && a in f.byFlow[flow] && b in f.byFlow[flow] && a != b
      ensures Leads(f, a, b)
    {
      assert Leads(e, a, b);
      if a in f.byId && f.byId[a].state == EvidenceCurrent {
        CurrentIsUntouched(e.byId[a], f.byId[a]);
      }
    }
  }

  lemma RelabelledIndex(e: E.Evidence, f: E.Evidence)
    requires E.IndexInvariant(e) && Relabelled(e, f)
    ensures E.IndexInvariant(f)
  {
    E.RelabelKeepsIndex(e, f);
  }

  lemma RelabelledNumbers(s: State, t: State)
    requires Numbered(s) && Relabelled(s.evidence, t.evidence) && RingsNumbered(t)
    ensures Numbered(t)
  {
  }

  /** A step that only ages records, moves counters forward and keeps the stores sound. */
  ghost predicate QuietStep(o: Oracles, s: State, t: State) {
    && StoresInvariant(o, t)
    && Relabelled(s.evidence, t.evidence)
    && MovesForward(s, t)
    && MemoShrinks(s, t)
    && RingsNumbered(t)
    && GroundsKept(t)
  }

  lemma QuietStepKeepsInv(o: Oracles, s: State, t: State)
    requires DistinctEvidenceIds(o) && Inv(o, s) && QuietStep(o, s, t)
    ensures Inv(o, t) && Evolves(o, s, t)
  {
    RelabelledRecords(o, s, t);
    RelabelledTopics(s.evidence, t.evidence);
    RelabelledIndex(s.evidence, t.evidence);
    RelabelledNumbers(s, t);
  }

  /** Grounds stand when epoch, publishers and flows are untouched. */
  lemma GroundsUnchanged(o: Oracles, s: State, t: State)
    requires Inv(o, s) && Relabelled(s.evidence, t.evidence)
    requires t.epoch == s.epoch && t.publishers == s.publishers && t.flows == s.flows
    ensures GroundsKept(t)
  {
    forall id | id in t.evidence.byId && t.evidence.byId[id].state == EvidenceCurrent
      ensures Grounded(t, t.evidence.byId[id])
    {
      CurrentIsUntouched(s.evidence.byId[id], t.evidence.byId[id]);
      assert RecordInvariant(o, s, s.evidence.byId[id]);
    }
  }
}
