/**
 * What a query is about, what the engine is asked on its behalf, and what comes back: spelled
 * out over the state, memo or no memo.
 */
module ClassifyMeaning {
  import opened Domain
  import opened Sorting
  import opened Enumeration
  import opened DecisionEngine
  import opened DecisionOrder
  import opened DecisionTheorems
  import opened DecisionMeaning
  import opened ContractMeaning
  import opened ClassifierState
  import opened ClassifierInvariant
  import opened ClassifierSteps
  import opened ClassifierMemo
  import opened ClassifierRuns
  import opened RunTheorems
  import E = EvidenceStore
  import P = PublisherRegistry
  import W = WorkloadRegistry
  import F = FlowRegistry
  import D = ClassificationIndex

  // ---- what a query is about ----------------------------------------------

  /** The key's current incarnation, or one still in its history. */
  ghost predicate Incarnation(f: F.Flows, key: FlowKey, generation: nat) {
    && key in f.current
    && (|| f.current[key].generation == generation
        || (&& f.current[key].id in f.history
            && exists i | 0 <= i < |f.history[f.current[key].id]| :: f.history[f.current[key].id][i].generation == generation))
  }

  /** A query names an incarnation by its generation, or asks for the current one with zero. */
  ghost predicate Concerns(s: State, q: Query, r: Result<nat>) {
    if q.flowKey !in s.flows.current then
      r == Err(UnknownFlow)
    else if q.flowGeneration == 0 then
      r == if q.acceptCurrent then Ok(s.flows.current[q.flowKey].generation) else Err(InvalidArgument)
    else
      r == if Incarnation(s.flows, q.flowKey, q.flowGeneration) then Ok(q.flowGeneration) else Err(UnknownFlow)
  }

  lemma SubjectMeans(o: Oracles, s: State, q: Query)
    requires DistinctFlowIds(o) && F.FlowInvariant(o, s.flows)
    ensures Concerns(s, q, Subject(s, q))
  {
    if q.flowKey in s.flows.current {
      var flow := s.flows.current[q.flowKey];
      assert F.Fenced(o, s.flows, q.flowKey);
      forall k | k in s.flows.current && s.flows.current[k].id == flow.id
        ensures k == q.flowKey
      {
        assert F.Fenced(o, s.flows, k);
      }
    }
  }

  // ---- what the engine is asked -------------------------------------------

  /** The stored record is one the flow's list names. */
  ghost predicate Listed(e: E.Evidence, flow: FlowId, r: EvidenceRecord) {
    flow in e.byFlow && r.id in e.byFlow[flow] && r.id in e.byId && e.byId[r.id] == r
  }

  ghost predicate ActiveIn(w: W.Workloads, c: WorkloadContract) {
    c.id in w.contracts && w.contracts[c.id] == c && c.state == ContractActive
  }

  ghost predicate DeclaredIn(w: W.Workloads, r: WorkloadRecord) {
    exists k :: k in w.workloads && w.workloads[k] == r
  }

  ghost predicate LiveIn(p: P.Publishers, id: string, boot: nat) {
    id in p.live && p.live[id].state == PublisherLive && p.live[id].boot == boot
  }

  /** The whole incarnation was revoked, and the revocation is still remembered. */
  ghost predicate RevokedIn(d: D.Decisions, flow: FlowId, generation: nat) {
    exists i | 0 <= i < |d.revocations| ::
      && d.revocations[i].flowId == flow && d.revocations[i].flowGeneration == generation
      && d.revocations[i].evidenceId == ""
  }

  /** The incarnation, the flow's records, the contracts in force, the workloads, who is live, and now. */
  ghost predicate Puts(s: State, flow: FlowRecord, generation: nat, tick: Tick, q: DecisionInput) {
    && q.flow == flow.(generation := generation)
    && DistinctIds(q.evidence)
    && (forall r :: r in q.evidence <==> Listed(s.evidence, flow.id, r))
    && (forall c :: c in q.contracts <==> ActiveIn(s.workloads, c))
    && (forall w :: w in q.workloads <==> DeclaredIn(s.workloads, w))
    && q.authority.epoch == s.epoch && q.authority.coordinatorBoot == s.boot && q.authority.tick == tick
    && q.authority.authoritySequence == s.authoritySequence
    && (forall id: string, boot: nat :: (id, boot) in q.authority.live <==> LiveIn(s.publishers, id, boot))
    && q.policy == s.policy
    && (q.revoked <==> RevokedIn(s.decisions, flow.id, generation))
  }

  lemma EvidenceIsListed(e: E.Evidence, flow: FlowId, r: EvidenceRecord)
    requires E.IndexInvariant(e)
    ensures r in E.FlowRecords(e, flow) <==> Listed(e, flow, r)
  {
    hide E.FlowRecords, E.FlowIndexed;
    E.FlowReachesItsList(e, flow);
    if r in E.FlowRecords(e, flow) {
      RecordIsListed(e, flow, r);
    }
  }

  lemma RecordIsListed(e: E.Evidence, flow: FlowId, r: EvidenceRecord)
    requires E.IndexInvariant(e) && r in E.FlowRecords(e, flow)
    ensures flow in e.byFlow && r.id in e.byFlow[flow]
  {
    var ids := e.byFlow[flow];
    E.IndexedIdsAreStored(e, flow);
    E.RecordsOfComplete(e, ids);
    var rs := E.RecordsOf(e, ids);
    MultisetMembership(E.FlowRecords(e, flow), rs);
    var i :| 0 <= i < |rs| && rs[i] == r;
    assert ids[i] in ids;
  }

  lemma ContractsInForce(o: Oracles, w: W.Workloads, c: WorkloadContract)
    requires W.ContractInvariant(o, w)
    ensures c in W.ActiveContracts(w) <==> ActiveIn(w, c)
  {
    EntriesAreValues(W.ActiveTable(w), c);
    if c in W.ActiveContracts(w) {
      var k :| k in W.ActiveTable(w) && W.ActiveTable(w)[k] == c;
      assert W.Bound(o, w, w.contracts[k]);
    }
    if ActiveIn(w, c) {
      assert c.id in W.ActiveTable(w);
    }
  }

  lemma QuestionMeans(o: Oracles, s: State, flow: FlowRecord, generation: nat, tick: Tick)
    requires Inv(o, s) && flow.id == o.flowId(flow.key)
    ensures Puts(s, flow, generation, tick, Question(s, flow, generation, tick))
  {
    hide Inv, E.FlowRecords, W.ActiveContracts, E.IndexInvariant, W.ContractInvariant, RecordsInvariant,
         WorkloadGeneration, P.RegistryInvariant, F.FlowInvariant, D.MemoInvariant, TopicInvariant, Numbered, Recalled,
         Entries, Listed, ActiveIn, DeclaredIn;
    PartsOf(o, s);
    QuestionSealed(o, s, flow, generation, tick);
    var q := Question(s, flow, generation, tick);
    forall r
      ensures r in q.evidence <==> Listed(s.evidence, flow.id, r)
    {
      EvidenceIsListed(s.evidence, flow.id, r);
    }
    forall c
      ensures c in q.contracts <==> ActiveIn(s.workloads, c)
    {
      ContractsInForce(o, s.workloads, c);
    }
    forall w
      ensures w in q.workloads <==> DeclaredIn(s.workloads, w)
    {
      EntriesAreDeclared(s.workloads, w);
    }
    RevokedMeans(s.decisions, flow.id, generation);
  }

  lemma EntriesAreDeclared(w: W.Workloads, r: WorkloadRecord)
    ensures r in Entries(w.workloads) <==> DeclaredIn(w, r)
  {
    EntriesAreValues(w.workloads, r);
  }

  lemma RevokedMeans(d: D.Decisions, flow: FlowId, generation: nat)
    ensures D.IsRevoked(d, flow, generation) <==> RevokedIn(d, flow, generation)
  {
  }

  // ---- what comes back ----------------------------------------------------

  /** The records the engine weighs: those put to it, then a statement of each contract that speaks of the flow. */
  ghost predicate Weighed(o: Oracles, q: DecisionInput, all: seq<EvidenceRecord>) {
    && |q.evidence| <= |all| && all[..|q.evidence|] == q.evidence
    && (forall r | r in all[|q.evidence|..] :: exists c | c in q.contracts :: Speaks(q, c) && Statement(q, c, r))
    && ((forall c | c in q.contracts :: |c.id| <= MAX_HASHED_CONTRACT_ID) ==>
          forall c | c in q.contracts && Speaks(q, c) && !IdIn(q.evidence, DerivedId(o, c, q.flow)) ::
            exists r | r in all[|q.evidence|..] :: Statement(q, c, r))
  }

  /** What a classification filed under its flow does to the index. */
  ghost predicate Files(d: D.Decisions, e: D.Decisions, c: Classification) {
    && e.revocations == d.revocations && e.supersessions == d.supersessions && e.bounds == d.bounds
    && e.history.Keys == d.history.Keys + {c.flowId}
    && (forall k | k in d.history && k != c.flowId :: e.history[k] == d.history[k])
    && var past := if c.flowId in d.history then d.history[c.flowId].decisions else [];
       var now := e.history[c.flowId].decisions;
       && |now| == Lesser(|past| + 1, d.bounds.decisionsPerFlow)
       && now == (past + [c])[|past| + 1 - |now|..]
  }

  ghost predicate Answers(o: Oracles, s: State, query: Query, tick: Tick, t: State, r: Result<Answer>) {
    exists subject ::
      && Concerns(s, query, subject)
      && (subject.Err? ==> r == Err(subject.code) && t == s)
      && (subject.Ok? ==>
            && r.Ok? && query.flowKey in s.flows.current
            && AnswersAbout(o, s, s.flows.current[query.flowKey], subject.value, tick, t, r.value))
  }

  ghost predicate AnswersAbout(o: Oracles, s: State, flow: FlowRecord, generation: nat, tick: Tick, t: State, a: Answer) {
    && (a.historical <==> generation != flow.generation)
    && (a.memoHit ==> t == s)
    && (!a.memoHit ==> t == s.(decisions := t.decisions) && Files(s.decisions, t.decisions, a.classification))
    && exists q, all :: Puts(s, flow, generation, tick, q) && Weighed(o, q, all) && Says(o, q, all, a.classification)
  }

  // ---- the classifier says it ---------------------------------------------

  lemma ActiveContractsDiffer(o: Oracles, w: W.Workloads)
    requires W.ContractInvariant(o, w)
    ensures var cs := W.ActiveContracts(w); forall i, j | 0 <= i < j < |cs| :: cs[i].id != cs[j].id
  {
    var key := (c: WorkloadContract) => c.id;
    var cs := W.ActiveContracts(w);
    EntriesAscending(W.ActiveTable(w), key);
    forall i, j | 0 <= i < j < |cs|
      ensures cs[i].id != cs[j].id
    {
      assert ByKey(key)(cs[i], cs[j]);
      TextLessIrreflexive(cs[i].id);
    }
  }

  lemma ConsideredIsWeighed(o: Oracles, q: DecisionInput)
    requires DistinctDerivedIds(o) && forall i, j | 0 <= i < j < |q.contracts| :: q.contracts[i].id != q.contracts[j].id
    ensures Weighed(o, q, Considered(o, q))
  {
    hide DistinctDerivedIds, Speaks, Statement, DerivedId, DerivedRecords, IdIn;
    var derived := DerivedRecords(o, q, |q.contracts|);
    assert Considered(o, q)[|q.evidence|..] == derived;
    assert q.contracts[..|q.contracts|] == q.contracts;
    forall r | r in derived
      ensures exists c | c in q.contracts :: Speaks(q, c) && Statement(q, c, r)
    {
      DerivedMeans(o, q, |q.contracts|, r);
    }
    if forall c | c in q.contracts :: |c.id| <= MAX_HASHED_CONTRACT_ID {
      forall c | c in q.contracts && Speaks(q, c) && !IdIn(q.evidence, DerivedId(o, c, q.flow))
        ensures exists r | r in derived :: Statement(q, c, r)
      {
        SpeakersAreHeard(o, q, c);
      }
    }
  }

  lemma RecordedFiles(d: D.Decisions, key: D.DecisionKey, c: Classification)
    ensures Files(d, D.Recorded(D.MemoStored(d, key, c), c), c)
  {
    hide D.MemoStored;
    D.MemoStoredContents(d, key, c);
  }

  lemma AnsweredFiles(o: Oracles, s: State, q: DecisionInput)
    ensures var e := Answered(o, s, q);
            && (e.2 ==> e.0 == s)
            && (!e.2 ==> e.0 == s.(decisions := e.0.decisions) && Files(s.decisions, e.0.decisions, e.1))
  {
    hide Decision, KeyOf, D.Recorded, D.MemoStored, Files;
    RecordedFiles(s.decisions, KeyOf(o, q), Decision(o, q));
  }

  lemma ClassifyStages(o: Oracles, s: State, query: Query, tick: Tick)
    ensures var e := Classify(o, s, query, tick);
            if Subject(s, query).Err? then
              e.0 == s && e.1 == Err(Subject(s, query).code)
            else
              && query.flowKey in s.flows.current
              && var flow := s.flows.current[query.flowKey];
                 var a := Answered(o, s, Question(s, flow, Subject(s, query).value, tick));
                 e.0 == a.0 && e.1 == Ok(Answer(a.1, a.2, Subject(s, query).value != flow.generation))
  {
    hide Answered, Question, F.HasGeneration;
  }

  lemma QuestionSays(o: Oracles, s: State, flow: FlowRecord, generation: nat, tick: Tick)
    requires CollisionFree(o) && Inv(o, s) && flow.id == o.flowId(flow.key)
    ensures var q := Question(s, flow, generation, tick);
            Puts(s, flow, generation, tick, q) && Weighed(o, q, Considered(o, q))
                && Says(o, q, Considered(o, q), Decision(o, q))
  {
    hide Inv, Decision, Says, Weighed, Considered, Puts, W.ActiveContracts, E.FlowRecords, Authority, DistinctIds;
    PartsOf(o, s);
    var q := Question(s, flow, generation, tick);
    QuestionMeans(o, s, flow, generation, tick);
    ActiveContractsDiffer(o, s.workloads);
    ConsideredIsWeighed(o, q);
    PutsDistinct(s, flow, generation, tick, q);
    DecisionMeans(o, q);
  }

  lemma PutsDistinct(s: State, flow: FlowRecord, generation: nat, tick: Tick, q: DecisionInput)
    requires Puts(s, flow, generation, tick, q)
    ensures DistinctIds(q.evidence)
  {
  }

  lemma AnswersAboutMeans(o: Oracles, s: State, query: Query, tick: Tick)
    requires CollisionFree(o) && Inv(o, s) && AnswersTruly(o, s, query, tick)
    ensures var e := Classify(o, s, query, tick);
            AnswersAbout(o, s, s.flows.current[query.flowKey], Subject(s, query).value, tick, e.0, e.1.value)
  {
    hide Inv, CollisionFree, Subject, Classify, Question, Decision, Considered, Puts, Weighed, Says, Files, Answered;
    ClassifyStages(o, s, query, tick);
    var flow := s.flows.current[query.flowKey];
    CurrentFlowIdentity(o, s, query.flowKey);
    QuestionSays(o, s, flow, Subject(s, query).value, tick);
    AnsweredFiles(o, s, Question(s, flow, Subject(s, query).value, tick));
  }

  /**
   * In every life, each query is answered about the incarnation it names, or refused, and an
   * answer says what the engine decides on the state as it stands, memo hit or not.
   */
  lemma AnswersMean(o: Oracles, life: Life, s: State, query: Query, tick: Tick)
    requires CollisionFree(o) && Lived(o, life, s)
    requires Subject(s, query).Ok? ==> Encodable(s, query, tick)
    ensures var e := Classify(o, s, query, tick); Answers(o, s, query, tick, e.0, e.1)
  {
    hide Subject, Classify, Question, Decision, AnswersAbout, Lived, CollisionFree, Inv, Concerns, Encodable,
         AnswersTruly;
    SoundState(o, life, s);
    SubjectMeans(o, s, query);
    ClassifyStages(o, s, query, tick);
    if Subject(s, query).Ok? {
      MemoAgreesInEveryLife(o, life, s, query, tick);
      AnswersAboutMeans(o, s, query, tick);
    }
  }

  lemma SoundState(o: Oracles, life: Life, s: State)
    requires CollisionFree(o) && Lived(o, life, s)
    ensures Inv(o, s) && DistinctFlowIds(o) && F.FlowInvariant(o, s.flows)
  {
    hide StateOf, Valid, Inv, MemoBacked, DistinctIdentities, Stands;
    CollisionFreeIdentities(o);
    LivesAreSound(o, life);
    PartsOf(o, s);
  }
}
