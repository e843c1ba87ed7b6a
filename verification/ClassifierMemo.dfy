/**
 * The decision memo agrees with the engine: whatever the memo answers is what the engine
 * would decide now.
 */
module ClassifierMemo {
  import opened Domain
  import opened Sorting
  import opened Enumeration
  import opened DecisionEngine
  import opened DecisionTheorems
  import opened DecisionDigest
  import opened ClassifierState
  import opened ClassifierInvariant
  import opened ClassifierSteps
  import E = EvidenceStore
  import P = PublisherRegistry
  import W = WorkloadRegistry
  import F = FlowRegistry
  import D = ClassificationIndex

  // ---- a question put to the engine is sealed -----------------------------

  lemma ActiveContractsSorted(o: Oracles, w: W.Workloads)
    requires W.ContractInvariant(o, w)
    ensures Sort(ContractIdLess, W.ActiveContracts(w)) == W.ActiveContracts(w)
  {
    var key := (c: WorkloadContract) => c.id;
    var cs := W.ActiveContracts(w);
    EntriesAscending(W.ActiveTable(w), key);
    assert Ascending(ContractIdLess, cs) by {
      forall i, j | 0 <= i < j < |cs|
        ensures ContractIdLess(cs[i], cs[j])
      {
        assert ByKey(key)(cs[i], cs[j]);
      }
    }
    ContractOrder();
    SortOfAscending(ContractIdLess, cs);
  }

  lemma WorkloadsListed(o: Oracles, w: W.Workloads, id: string)
    requires W.ContractInvariant(o, w) && id in w.workloads
    ensures WorkloadGeneration(Entries(w.workloads), id) == Some(w.workloads[id].generation)
  {
    var ws := Entries(w.workloads);
    EntriesMembers(w.workloads);
    SortedIdsProperties(w.workloads.Keys);
    var ids := SortedIds(w.workloads.Keys);
    assert DistinctWorkloads(ws) by {
      forall i, j | 0 <= i < j < |ws|
        ensures ws[i].id != ws[j].id
      {
        assert TextLess(ids[i], ids[j]);
        TextLessIrreflexive(ids[i]);
      }
    }
    WorkloadLookup(ws, id, w.workloads[id].generation);
  }

  lemma ActiveContractSealed(o: Oracles, w: W.Workloads, c: WorkloadContract)
    requires W.ContractInvariant(o, w) && c in W.ActiveContracts(w)
    ensures c.definitionDigest == ContractDigest(o, c)
    ensures c.state == ContractActive
    ensures WorkloadGeneration(Entries(w.workloads), c.workload) == Some(c.workloadGeneration)
  {
    EntriesAreValues(W.ActiveTable(w), c);
    var k :| k in W.ActiveTable(w) && W.ActiveTable(w)[k] == c;
    assert W.Bound(o, w, w.contracts[k]) && W.Backed(w, w.contracts[k]);
    WorkloadsListed(o, w, c.workload);
  }

  lemma ReachedRecord(o: Oracles, s: State, flow: FlowId, r: EvidenceRecord)
    requires E.IndexInvariant(s.evidence) && RecordsInvariant(o, s) && r in E.FlowRecords(s.evidence, flow)
    ensures r.id in s.evidence.byId && s.evidence.byId[r.id] == r
    ensures WellFormed(o, r) && Recalled(o, s, r)
  {
    hide E.IndexInvariant, E.FlowRecords;
    E.FlowReachesItsList(s.evidence, flow);
    assert RecordInvariant(o, s, s.evidence.byId[r.id]);
  }

  lemma QuestionSealed(o: Oracles, s: State, flow: FlowRecord, generation: nat, tick: Tick)
    requires Inv(o, s) && flow.id == o.flowId(flow.key)
    ensures Sealed(o, Question(s, flow, generation, tick))
  {
    hide Inv, E.FlowRecords, W.ActiveContracts, E.IndexInvariant, W.ContractInvariant, RecordsInvariant,
         WorkloadGeneration, P.RegistryInvariant, F.FlowInvariant, D.MemoInvariant, TopicInvariant, Numbered, Recalled,
         D.IsRevoked;
    PartsOf(o, s);
    var input := Question(s, flow, generation, tick);
    E.FlowReachesItsList(s.evidence, flow.id);
    forall i | 0 <= i < |input.evidence|
      ensures input.evidence[i].contentDigest == EvidenceDigest(o, input.evidence[i])
    {
      ReachedRecord(o, s, flow.id, input.evidence[i]);
    }
    forall i | 0 <= i < |input.contracts|
      ensures input.contracts[i].definitionDigest == ContractDigest(o, input.contracts[i])
      ensures input.contracts[i].state == ContractActive
      ensures WorkloadGeneration(input.workloads, input.contracts[i].workload) == Some(input.contracts[i].workloadGeneration)
    {
      ActiveContractSealed(o, s.workloads, input.contracts[i]);
    }
    ActiveContractsSorted(o, s.workloads);
  }

  // ---- a memo hit equals a fresh decision ---------------------------------

  lemma BackedIsConsistent(o: Oracles, s: State, key: D.DecisionKey, a: DecisionInput, flow: FlowRecord, generation: nat,
                           tick: Tick)
    requires Inv(o, s) && Backs(o, s, key, a)
    ensures Consistent(Question(s, flow, generation, tick), a)
  {
    hide Inv, E.FlowRecords, W.ActiveContracts, E.IndexInvariant, W.ContractInvariant, RecordsInvariant, Decision,
         KeyOf, Sealed, P.RegistryInvariant, F.FlowInvariant, D.MemoInvariant, TopicInvariant, Numbered, D.IsRevoked,
         P.LiveIncarnations;
    PartsOf(o, s);
    var q := Question(s, flow, generation, tick);
    forall i, j | 0 <= i < |q.evidence| && 0 <= j < |a.evidence| && q.evidence[i].id == a.evidence[j].id
                  && q.evidence[i].state == a.evidence[j].state
      ensures q.evidence[i] == a.evidence[j]
    {
      ReachedRecord(o, s, flow.id, q.evidence[i]);
      assert Recalled(o, s, a.evidence[j]);
    }
  }

  /** A memo hit is what the engine would decide now, for every question whose digest fits. */
  lemma MemoHitAgrees(o: Oracles, s: State, flow: FlowRecord, generation: nat, tick: Tick)
    requires CollisionFree(o) && Inv(o, s) && MemoBacked(o, s) && flow.id == o.flowId(flow.key)
    requires Fits(Question(s, flow, generation, tick)) && Legible(Question(s, flow, generation, tick))
    requires KeyOf(o, Question(s, flow, generation, tick)) in s.decisions.memo
    ensures s.decisions.memo[KeyOf(o, Question(s, flow, generation, tick))] == Decision(o, Question(s, flow, generation, tick))
  {
    hide Inv, Question, Decision, Sealed, Fits, Legible, EvidenceSetDigest, CollisionFree, Consistent, Recalled,
         P.LiveIncarnations;
    var q := Question(s, flow, generation, tick);
    var key := KeyOf(o, q);
    var a :| Backs(o, s, key, a);
    QuestionSealed(o, s, flow, generation, tick);
    BackedIsConsistent(o, s, key, a, flow, generation, tick);
    EqualDigestsEqualDecisions(o, q, a);
  }

  // ---- classification keeps the memo backed -------------------------------

  lemma ReindexRecords(o: Oracles, s: State, d: D.Decisions)
    requires RecordsInvariant(o, s)
    ensures RecordsInvariant(o, s.(decisions := d))
    ensures Evolves(o, s, s.(decisions := d))
  {
    hide WellFormed, WasUsed;
    var t := s.(decisions := d);
    forall id | id in t.evidence.byId
      ensures RecordInvariant(o, t, t.evidence.byId[id])
    {
      assert RecordInvariant(o, s, s.evidence.byId[id]);
    }
    assert MovesForward(s, t);
  }

  /** Filing a decision touches the index and nothing else. */
  lemma ReindexKeepsInv(o: Oracles, s: State, d: D.Decisions)
    requires Inv(o, s) && D.MemoInvariant(d)
    requires d.revocations == s.decisions.revocations && d.supersessions == s.decisions.supersessions
    ensures Inv(o, s.(decisions := d)) && Evolves(o, s, s.(decisions := d))
  {
    hide RecordsInvariant, Evolves, P.RegistryInvariant, W.ContractInvariant, F.FlowInvariant, E.IndexInvariant,
         D.MemoInvariant, TopicInvariant;
    ReindexRecords(o, s, d);
  }

  /** The index after a decision that the memo did not hold. */
  function Filed(d: D.Decisions, key: D.DecisionKey, c: Classification): D.Decisions {
    D.Recorded(D.MemoStored(d, key, c), c)
  }

  lemma FiledIndex(d: D.Decisions, key: D.DecisionKey, c: Classification)
    requires D.MemoInvariant(d)
    ensures D.MemoInvariant(Filed(d, key, c))
    ensures Filed(d, key, c).revocations == d.revocations && Filed(d, key, c).supersessions == d.supersessions
    ensures forall k | k in Filed(d, key, c).memo ::
              (k == key && Filed(d, key, c).memo[k] == c) || (k in d.memo && Filed(d, key, c).memo[k] == d.memo[k])
  {
    D.MemoStoredKeepsInvariant(d, key, c);
    D.MemoStoredContents(d, key, c);
  }

  lemma AnsweredCases(o: Oracles, s: State, input: DecisionInput)
    ensures var t := Answered(o, s, input).0;
            t == s || (t == s.(decisions := Filed(s.decisions, KeyOf(o, input), Decision(o, input))))
  {
    hide Decision, KeyOf, D.Recorded, D.MemoStored;
  }

  lemma AnsweredKeepsInv(o: Oracles, s: State, input: DecisionInput)
    requires DistinctIdentities(o) && Inv(o, s)
    ensures Inv(o, Answered(o, s, input).0) && Evolves(o, s, Answered(o, s, input).0)
  {
    hide *;
    AnsweredCases(o, s, input);
    PartsOf(o, s);
    FiledIndex(s.decisions, KeyOf(o, input), Decision(o, input));
    ReindexKeepsInv(o, s, Filed(s.decisions, KeyOf(o, input), Decision(o, input)));
    ReindexKeepsInv(o, s, s.decisions);
  }

  lemma FreshlyBacked(o: Oracles, s: State, flow: FlowRecord, generation: nat, tick: Tick, t: State)
    requires Inv(o, s) && flow.id == o.flowId(flow.key) && t == s.(decisions := t.decisions)
    requires var q := Question(s, flow, generation, tick);
             KeyOf(o, q) in t.decisions.memo && t.decisions.memo[KeyOf(o, q)] == Decision(o, q)
    ensures Backs(o, t, KeyOf(o, Question(s, flow, generation, tick)), Question(s, flow, generation, tick))
  {
    hide Inv, E.FlowRecords, W.ActiveContracts, E.IndexInvariant, W.ContractInvariant, RecordsInvariant, Decision,
         KeyOf, Sealed, P.RegistryInvariant, F.FlowInvariant, D.MemoInvariant, TopicInvariant, Numbered, D.IsRevoked,
         P.LiveIncarnations, WellFormed, WasUsed;
    PartsOf(o, s);
    QuestionSealed(o, s, flow, generation, tick);
    var q := Question(s, flow, generation, tick);
    forall i | 0 <= i < |q.evidence|
      ensures Recalled(o, t, q.evidence[i])
    {
      ReachedRecord(o, s, flow.id, q.evidence[i]);
    }
  }

  lemma FiledKeepsMemo(o: Oracles, s: State, flow: FlowRecord, generation: nat, tick: Tick)
    requires DistinctIdentities(o) && Inv(o, s) && MemoBacked(o, s) && flow.id == o.flowId(flow.key)
    ensures var q := Question(s, flow, generation, tick);
            MemoBacked(o, s.(decisions := Filed(s.decisions, KeyOf(o, q), Decision(o, q))))
  {
    hide Inv, Question, Decision, KeyOf, Backs, Evolves, Filed, P.RegistryInvariant, W.ContractInvariant,
         F.FlowInvariant, E.IndexInvariant, D.MemoInvariant, TopicInvariant, RecordsInvariant, Numbered,
         DistinctEvidenceIds, DistinctFlowIds;
    var q := Question(s, flow, generation, tick);
    var key, c := KeyOf(o, q), Decision(o, q);
    var t := s.(decisions := Filed(s.decisions, key, c));
    PartsOf(o, s);
    FiledIndex(s.decisions, key, c);
    ReindexKeepsInv(o, s, t.decisions);
    forall k | k in t.decisions.memo
      ensures exists a :: Backs(o, t, k, a)
    {
      if k == key && t.decisions.memo[k] == c {
        FreshlyBacked(o, s, flow, generation, tick, t);
      } else {
        var a :| Backs(o, s, k, a);
        BacksCarries(o, s, t, k, a);
      }
    }
  }

  // ---- the classification step --------------------------------------------

  lemma ClassifyCases(o: Oracles, s: State, query: Query, tick: Tick)
    ensures var (t, r) := Classify(o, s, query, tick);
            if Subject(s, query).Err? then t == s && r == Err(Subject(s, query).code)
            else
              && query.flowKey in s.flows.current
              && var q := Question(s, s.flows.current[query.flowKey], Subject(s, query).value, tick);
                 && t == Answered(o, s, q).0
                 && r.Ok? && r.value.classification == Answered(o, s, q).1 && r.value.memoHit == Answered(o, s, q).2
  {
    hide Answered, Question, F.HasGeneration;
  }

  lemma CurrentFlowIdentity(o: Oracles, s: State, key: FlowKey)
    requires Inv(o, s) && key in s.flows.current
    ensures s.flows.current[key].key == key && s.flows.current[key].id == o.flowId(s.flows.current[key].key)
  {
    assert F.Fenced(o, s.flows, key);
  }

  lemma ClassifyKeepsInv(o: Oracles, s: State, query: Query, tick: Tick)
    requires DistinctIdentities(o) && Inv(o, s)
    ensures Inv(o, Classify(o, s, query, tick).0) && Evolves(o, s, Classify(o, s, query, tick).0)
  {
    hide *;
    ClassifyCases(o, s, query, tick);
    if Subject(s, query).Err? {
      PartsOf(o, s);
      ReindexKeepsInv(o, s, s.decisions);
    } else {
      AnsweredKeepsInv(o, s, Question(s, s.flows.current[query.flowKey], Subject(s, query).value, tick));
    }
  }

  lemma ClassifyKeepsMemo(o: Oracles, s: State, query: Query, tick: Tick)
    requires DistinctIdentities(o) && Inv(o, s) && MemoBacked(o, s)
    ensures MemoBacked(o, Classify(o, s, query, tick).0)
  {
    hide *;
    ClassifyCases(o, s, query, tick);
    if Subject(s, query).Ok? {
      var flow := s.flows.current[query.flowKey];
      CurrentFlowIdentity(o, s, query.flowKey);
      AnsweredCases(o, s, Question(s, flow, Subject(s, query).value, tick));
      FiledKeepsMemo(o, s, flow, Subject(s, query).value, tick);
    }
  }

  lemma AnsweredValue(o: Oracles, s: State, input: DecisionInput)
    ensures var (t, c, hit) := Answered(o, s, input);
            && (hit <==> KeyOf(o, input) in s.decisions.memo)
            && c == if hit then s.decisions.memo[KeyOf(o, input)] else Decision(o, input)
  {
    hide Decision, KeyOf;
  }

  /**
   * Every answered query carries what the engine decides on the state as it stands, whether
   * it came from the memo or not.
   */
  lemma ClassifyAgreesWithEngine(o: Oracles, s: State, query: Query, tick: Tick)
    requires CollisionFree(o) && Inv(o, s) && MemoBacked(o, s) && Subject(s, query).Ok?
    requires query.flowKey in s.flows.current
    requires var q := Question(s, s.flows.current[query.flowKey], Subject(s, query).value, tick); Fits(q) && Legible(q)
    ensures Classify(o, s, query, tick).1.Ok?
    ensures Classify(o, s, query, tick).1.value.classification
         == Decision(o, Question(s, s.flows.current[query.flowKey], Subject(s, query).value, tick))
  {
    hide *;
    ClassifyCases(o, s, query, tick);
    var flow := s.flows.current[query.flowKey];
    var q := Question(s, flow, Subject(s, query).value, tick);
    CurrentFlowIdentity(o, s, query.flowKey);
    AnsweredValue(o, s, q);
    if KeyOf(o, q) in s.decisions.memo {
      MemoHitAgrees(o, s, flow, Subject(s, query).value, tick);
    }
  }

  // ---- beyond the encoder's bound -----------------------------------------

  lemma RevocationSticks(o: Oracles, s: State, env: SessionEnvelope, flow: FlowRecord, generation: nat, reason: string,
                         tick: Tick, now: Tick)
    requires env.epoch == s.epoch && F.HasGeneration(s.flows, flow.id, generation) && s.sequence < MAX_U64
    ensures var (t, r) := RevokeGeneration(o, s, env, flow.id, generation, reason, tick);
            && r.Ok? && t.decisions.memo == s.decisions.memo && t.flows == s.flows
            && Question(t, flow, generation, now) == Question(s, flow, generation, now).(revoked := true)
  {
    hide E.FlowRecords, W.ActiveContracts, Entries, Authority, F.HasGeneration;
    var t := RevokeGeneration(o, s, env, flow.id, generation, reason, tick).0;
    var ring := t.decisions.revocations;
    assert D.Revokes(ring[|ring| - 1], flow.id, generation);
    SameAuthority(s, t, now);
  }

  lemma SameAuthority(s: State, t: State, now: Tick)
    requires t == s.(sequence := t.sequence, decisions := t.decisions)
    ensures Authority(t, now) == Authority(s, now)
  {
  }

  lemma MissIsRemembered(o: Oracles, s: State, flow: FlowRecord, generation: nat, tick: Tick)
    requires D.MemoInvariant(s.decisions) && s.decisions.bounds.memoEntries > 0
    requires KeyOf(o, Question(s, flow, generation, tick)) !in s.decisions.memo
    ensures var q := Question(s, flow, generation, tick);
            var t := Answered(o, s, q).0;
            && KeyOf(o, q) in t.decisions.memo && t.decisions.memo[KeyOf(o, q)] == Decision(o, q)
            && t == s.(decisions := t.decisions) && Question(t, flow, generation, tick) == q
  {
    hide E.FlowRecords, W.ActiveContracts, Entries, Authority, Decision, KeyOf, D.MemoStored, D.MemoInvariant;
    var q := Question(s, flow, generation, tick);
    var t := Answered(o, s, q).0;
    D.MemoStoredKeepsInvariant(s.decisions, KeyOf(o, q), Decision(o, q));
    D.MemoStoredContents(s.decisions, KeyOf(o, q), Decision(o, q));
    SameAuthority(s, t, tick);
  }

  /**
   * Beyond the encoder's bound the agreement does fail: a question that does not fit is
   * answered and remembered, its generation is revoked, and the same query is still answered
   * from the memo, while the engine would now report the revocation.
   */
  lemma OversizedAnswerGoesStale(o: Oracles, s: State, query: Query, env: SessionEnvelope, reason: string, tick: Tick)
    requires D.MemoInvariant(s.decisions) && s.decisions.bounds.memoEntries > 0
    requires Subject(s, query).Ok? && query.flowKey in s.flows.current
    requires var q := Question(s, s.flows.current[query.flowKey], Subject(s, query).value, tick);
             !Fits(q) && !q.revoked && KeyOf(o, q) !in s.decisions.memo
    requires env.epoch == s.epoch && s.sequence < MAX_U64
    requires F.HasGeneration(s.flows, s.flows.current[query.flowKey].id, Subject(s, query).value)
    ensures var flow, generation := s.flows.current[query.flowKey], Subject(s, query).value;
            var (t, done) := RevokeGeneration(o, Classify(o, s, query, tick).0, env, flow.id, generation, reason, tick);
            var again := Classify(o, t, query, tick).1;
            && done.Ok? && again.Ok? && again.value.memoHit
            && again.value.classification != Decision(o, Question(t, flow, generation, tick))
  {
    hide Decision, Fits, Question, Answered, Classify, RevokeGeneration, D.MemoInvariant, F.HasGeneration,
         EvidenceSetDigest;
    var flow, generation := s.flows.current[query.flowKey], Subject(s, query).value;
    var q := Question(s, flow, generation, tick);
    ClassifyCases(o, s, query, tick);
    MissIsRemembered(o, s, flow, generation, tick);
    var s1 := Classify(o, s, query, tick).0;
    RevocationSticks(o, s1, env, flow, generation, reason, tick, tick);
    var t := RevokeGeneration(o, s1, env, flow.id, generation, reason, tick).0;
    OversizedDigestIsBlind(o, q);
    QuestionFacts(s, flow, generation, tick);
    ClassifyCases(o, t, query, tick);
    AnsweredValue(o, t, Question(t, flow, generation, tick));
  }

  lemma QuestionFacts(s: State, flow: FlowRecord, generation: nat, tick: Tick)
    ensures var q := Question(s, flow, generation, tick);
            q.flow.id == flow.id && q.flow.generation == generation && q.policy == s.policy
  {
  }
}
