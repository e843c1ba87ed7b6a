/**
 * Registering flows, publishing, withdrawing and revoking keep the invariant.
 */
module ClassifierSubmission {
  import opened Domain
  import opened ClassifierState
  import opened ClassifierInvariant
  import opened ClassifierSteps
  import E = EvidenceStore
  import W = WorkloadRegistry
  import F = FlowRegistry
  import D = ClassificationIndex

  // ---- flows --------------------------------------------------------------

  lemma FenceRelabels(o: Oracles, e: E.Evidence, r: FlowRegistration)
    ensures Relabelled(e, Fence(o, e, r))
  {
    RelabelledRefl(e);
    var replaced := if r.created then E.MarkStale(e, OnFlow(r.record.id), o.render(FlowReplaced)) else e;
    MarkStaleRelabels(e, OnFlow(r.record.id), o.render(FlowReplaced));
    var reason := o.render(FlowAdvanced(r.record.generation));
    MarkStaleRelabels(replaced, OnEarlier(r.record.id, r.record.generation), reason);
    RelabelledTransitive(e, replaced, E.MarkStale(replaced, OnEarlier(r.record.id, r.record.generation), reason));
    RelabelledRefl(replaced);
  }

  /** A new incarnation leaves no CURRENT record on its flow. */
  lemma FenceStales(o: Oracles, e: E.Evidence, r: FlowRegistration, id: string)
    requires r.created && id in e.byId && e.byId[id].flowId == r.record.id
    ensures id in Fence(o, e, r).byId && Fence(o, e, r).byId[id].state != EvidenceCurrent
  {
  }

  ghost predicate FlowsKept(e: E.Evidence, f: F.Flows, g: F.Flows) {
    forall id | id in e.byId && e.byId[id].state == EvidenceCurrent
           && OnCurrentFlow(f, e.byId[id]) :: OnCurrentFlow(g, e.byId[id])
  }

  lemma OtherFlowStays(o: Oracles, f: F.Flows, key: FlowKey, record: FlowRecord, r: EvidenceRecord)
    requires F.FlowInvariant(o, f) && record.id == o.flowId(key)
    requires OnCurrentFlow(f, r)
    requires r.flowId != record.id || (key in f.current && f.current[key].generation == record.generation)
    ensures OnCurrentFlow(f.(current := f.current[key := record]), r)
  {
    var g := f.(current := f.current[key := record]);
    var k :| k in f.current && f.current[k].id == r.flowId && f.current[k].generation == r.flowGeneration;
    assert F.Fenced(o, f, k);
    assert k in g.current && g.current[k].id == r.flowId && g.current[k].generation == r.flowGeneration;
  }

  lemma RegisterFlowGrounds(o: Oracles, s: State, key: FlowKey, requested: nat, session: string, tick: Tick)
    requires F.FlowInvariant(o, s.flows)
    requires F.Registered(o, s.flows, key, requested, session, tick).1.Ok?
    ensures var (f, r) := F.Registered(o, s.flows, key, requested, session, tick);
            FlowsKept(Fence(o, s.evidence, r.value), s.flows, f)
  {
    hide F.Registered, F.FlowInvariant, E.MarkStale, Fence;
    var (f, r) := F.Registered(o, s.flows, key, requested, session, tick);
    F.RegisteredOutcome(o, s.flows, key, requested, session, tick);
    var e := Fence(o, s.evidence, r.value);
    FenceRelabels(o, s.evidence, r.value);
    forall id | id in e.byId && e.byId[id].state == EvidenceCurrent && OnCurrentFlow(s.flows, e.byId[id])
      ensures OnCurrentFlow(f, e.byId[id])
    {
      if r.value.created && e.byId[id].flowId == r.value.record.id {
        FenceStales(o, s.evidence, r.value, id);
      } else {
        OtherFlowStays(o, s.flows, key, r.value.record, e.byId[id]);
      }
    }
  }

  /** What a step on the flows owes. */
  ghost predicate FlowStep(o: Oracles, s: State, t: State) {
    && t == s.(flows := t.flows, evidence := t.evidence, decisions := t.decisions)
    && F.FlowInvariant(o, t.flows)
    && F.FlowsForward(s.flows, t.flows)
    && Relabelled(s.evidence, t.evidence)
    && FlowsKept(t.evidence, s.flows, t.flows)
    && t.decisions == s.decisions.(history := t.decisions.history)
  }

  lemma GroundsByFlows(o: Oracles, s: State, t: State)
    requires RecordsInvariant(o, s) && FlowStep(o, s, t)
    ensures GroundsKept(t)
  {
    forall id | id in t.evidence.byId && t.evidence.byId[id].state == EvidenceCurrent
      ensures Grounded(t, t.evidence.byId[id])
    {
      CurrentIsUntouched(s.evidence.byId[id], t.evidence.byId[id]);
      assert RecordInvariant(o, s, s.evidence.byId[id]);
    }
  }

  lemma FlowStepKeepsInv(o: Oracles, s: State, t: State)
    requires DistinctIdentities(o) && Inv(o, s) && FlowStep(o, s, t)
    ensures Sound(o, s, t)
  {
    GroundsByFlows(o, s, t);
    QuietStepKeepsInv(o, s, t);
  }

  lemma RegisterFlowStep(o: Oracles, s: State, key: FlowKey, requested: nat, session: string, tick: Tick)
    requires DistinctFlowIds(o) && F.FlowInvariant(o, s.flows)
    ensures var (t, r) := RegisterFlow(o, s, key, requested, session, tick);
            if r.Err? then t == s else FlowStep(o, s, t)
  {
    hide F.Registered, F.FlowInvariant, Fence, Relabelled, FlowsKept, F.FlowsForward, DistinctFlowIds;
    var (f, r) := F.Registered(o, s.flows, key, requested, session, tick);
    F.RegisteredOutcome(o, s.flows, key, requested, session, tick);
    if r.Ok? {
      F.RegisteredKeepsInvariant(o, s.flows, key, requested, session, tick);
      RegisterFlowGrounds(o, s, key, requested, session, tick);
      FenceRelabels(o, s.evidence, r.value);
    }
  }

  lemma RegisterFlowKeepsInv(o: Oracles, s: State, key: FlowKey, requested: nat, session: string, tick: Tick)
    requires DistinctIdentities(o) && Inv(o, s)
    ensures Sound(o, s, RegisterFlow(o, s, key, requested, session, tick).0)
  {
    hide Inv, Sound, RegisterFlow, FlowStep, DistinctFlowIds, DistinctEvidenceIds;
    PartsOf(o, s);
    RegisterFlowStep(o, s, key, requested, session, tick);
    if RegisterFlow(o, s, key, requested, session, tick).1.Err? {
      StayKeepsInv(o, s);
    } else {
      FlowStepKeepsInv(o, s, RegisterFlow(o, s, key, requested, session, tick).0);
    }
  }

  // ---- withdrawal and revocation ------------------------------------------

  lemma PushedNumbered<T(!new)>(ring: seq<T>, bound: nat, x: T, seqno: T -> nat, top: nat)
    requires forall i | 0 <= i < |ring| :: seqno(ring[i]) <= top
    requires seqno(x) <= top
    ensures forall i | 0 <= i < |D.Pushed(ring, bound, x)| :: seqno(D.Pushed(ring, bound, x)[i]) <= top
  {
  }

  lemma WithRevocationNumbered(s: State, r: RevocationRecord, sequence: nat)
    requires RingsNumbered(s) && s.sequence <= sequence && r.seqno <= sequence
    ensures RingsNumbered(s.(sequence := sequence, decisions := D.WithRevocation(s.decisions, r)))
  {
    PushedNumbered(s.decisions.revocations, s.decisions.bounds.revocations, r, (x: RevocationRecord) => x.seqno, sequence);
  }

  lemma RevocationStepKeepsInv(o: Oracles, s: State, r: RevocationRecord)
    requires DistinctIdentities(o) && Inv(o, s) && r.seqno == s.sequence + 1
    ensures Sound(o, s, s.(sequence := s.sequence + 1, decisions := D.WithRevocation(s.decisions, r)))
  {
    WithRevocationNumbered(s, r, s.sequence + 1);
    DecisionStepKeepsInv(o, s, s.(sequence := s.sequence + 1, decisions := D.WithRevocation(s.decisions, r)));
  }

  lemma RevokeGenerationCases(o: Oracles, s: State, env: SessionEnvelope, flow: FlowId, generation: nat, reason: string,
                              tick: Tick)
    ensures var t := RevokeGeneration(o, s, env, flow, generation, reason, tick).0;
            t == s || exists r: RevocationRecord :: r.seqno == s.sequence + 1
                                  && t == s.(sequence := s.sequence + 1, decisions := D.WithRevocation(s.decisions, r))
  {
  }

  lemma RevokeGenerationKeepsInv(o: Oracles, s: State, env: SessionEnvelope, flow: FlowId, generation: nat, reason: string,
                                 tick: Tick)
    requires DistinctIdentities(o) && Inv(o, s)
    ensures Sound(o, s, RevokeGeneration(o, s, env, flow, generation, reason, tick).0)
  {
    hide *;
    RevokeGenerationCases(o, s, env, flow, generation, reason, tick);
    var t := RevokeGeneration(o, s, env, flow, generation, reason, tick).0;
    if t == s {
      StayKeepsInv(o, s);
    } else {
      var r: RevocationRecord :| r.seqno == s.sequence + 1
               && t == s.(sequence := s.sequence + 1, decisions := D.WithRevocation(s.decisions, r));
      RevocationStepKeepsInv(o, s, r);
    }
  }

  lemma SoundTransitive(o: Oracles, s: State, t: State, u: State)
    requires DistinctIdentities(o) && Inv(o, s) && Sound(o, s, t) && Sound(o, t, u)
    ensures Sound(o, s, u)
  {
    hide Inv, Evolves, DistinctEvidenceIds, DistinctFlowIds;
    EvolvesTransitive(o, s, t, u);
  }

  lemma SupersedeStepKeepsInv(o: Oracles, s: State, id: string, reason: string)
    requires DistinctIdentities(o) && Inv(o, s)
    ensures Sound(o, s, s.(evidence := E.WithState(s.evidence, id, EvidenceSuperseded, reason).0))
  {
    hide Inv, Sound, DistinctEvidenceIds, DistinctFlowIds, E.WithState, Relabelled, W.ContractInvariant;
    PartsOf(o, s);
    SupersedeRelabels(s.evidence, id, reason);
    WorkloadStepKeepsInv(o, s, s.(evidence := E.WithState(s.evidence, id, EvidenceSuperseded, reason).0));
  }

  lemma WithdrawCases(o: Oracles, s: State, env: SessionEnvelope, id: string, reason: string, tick: Tick)
    ensures var t := WithdrawEvidence(o, s, env, id, reason, tick).0;
            var s1 := s.(evidence := E.WithState(s.evidence, id, EvidenceSuperseded, AppliedReason(o, reason,
                    WithdrawnByPublisher)).0);
            || t == s
            || t == s1
            || exists r: RevocationRecord :: r.seqno == s1.sequence + 1
                           && t == s1.(sequence := s1.sequence + 1, decisions := D.WithRevocation(s1.decisions, r))
  {
  }

  lemma WithdrawEvidenceKeepsInv(o: Oracles, s: State, env: SessionEnvelope, id: string, reason: string, tick: Tick)
    requires DistinctIdentities(o) && Inv(o, s)
    ensures Sound(o, s, WithdrawEvidence(o, s, env, id, reason, tick).0)
  {
    hide WithdrawEvidence, Inv, Evolves, MemoShrinks, DistinctIdentities, E.WithState, D.WithRevocation, AppliedReason;
    var t := WithdrawEvidence(o, s, env, id, reason, tick).0;
    var applied := AppliedReason(o, reason, WithdrawnByPublisher);
    var s1 := s.(evidence := E.WithState(s.evidence, id, EvidenceSuperseded, applied).0);
    WithdrawCases(o, s, env, id, reason, tick);
    if t == s {
      StayKeepsInv(o, s);
    } else {
      SupersedeStepKeepsInv(o, s, id, applied);
      if t != s1 {
        var r: RevocationRecord :| r.seqno == s1.sequence + 1
                 && t == s1.(sequence := s1.sequence + 1, decisions := D.WithRevocation(s1.decisions, r));
        RevocationStepKeepsInv(o, s1, r);
        SoundTransitive(o, s, s1, t);
      }
    }
  }
}
