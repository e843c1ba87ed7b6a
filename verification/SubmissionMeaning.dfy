/**
 * What a submission has to satisfy, what its acceptance stores, and that nothing else ever
 * puts a record into the store.
 */
module SubmissionMeaning {
  import opened Domain
  import opened DecisionMeaning
  import opened ClassifierState
  import opened ClassifierInvariant
  import opened ClassifierSteps
  import opened ClassifierSubmission
  import opened ClassifierPublication
  import opened ClassifierRuns
  import opened Restart
  import opened RestartSafety
  import opened RunTheorems
  import Policy
  import E = EvidenceStore
  import P = PublisherRegistry
  import W = WorkloadRegistry
  import F = FlowRegistry
  import D = ClassificationIndex

  // ---- what is admitted ---------------------------------------------------

  /** The weakest of what is claimed, what the envelope allows and what the registration allows. */
  ghost predicate Effective(claimed: EvidenceSource, envelope: EvidenceSource, registered: EvidenceSource, x: EvidenceSource) {
    && x in {claimed, envelope, registered}
    && !StandsHigher(x, claimed) && !StandsHigher(x, envelope) && !StandsHigher(x, registered)
  }

  /** The first adapter of that name is enabled. */
  ghost predicate Enabled(adapters: seq<HeuristicAdapter>, name: string) {
    exists j | 0 <= j < |adapters| ::
      && adapters[j].name == name && adapters[j].enabled
      && forall k | 0 <= k < j :: adapters[k].name != name
  }

  /** A guess must cite a declared hint whose adapter is enabled; nothing else needs one. */
  ghost predicate SourceUsable(policy: ClassifierPolicy, x: EvidenceSource, binding: nat) {
    && x != UnknownSource
    && (x == Heuristic ==>
          && policy.allowHeuristicEvidence
          && exists i | 0 <= i < |policy.portHints| ::
               && policy.portHints[i].port == binding % 0x1_0000
               && TransportCode(policy.portHints[i].transport) == (binding / 0x1_0000) % 0x100
               && Enabled(policy.heuristicAdapters, policy.portHints[i].adapter))
  }

  /** The envelope is of this epoch and coordinator, and names the session its publisher now holds. */
  ghost predicate SessionHolds(s: State, env: SessionEnvelope) {
    && env.epoch == s.epoch && env.coordinatorBoot == s.boot && env.publisherBoot != 0
    && env.publisher in s.publishers.live
    && var reg := s.publishers.live[env.publisher];
       reg.boot == env.publisherBoot && reg.session == env.session && reg.state == PublisherLive && reg.liveSessions != []
  }

  /** A named workload is the publisher's, at the named generation and in use. */
  ghost predicate WorkloadNamed(w: W.Workloads, publisher: string, p: EvidencePayload) {
    p.workload != "" ==>
      && p.workload in w.workloads
      && w.workloads[p.workload].owner == publisher
      && w.workloads[p.workload].generation == p.workloadGeneration
      && w.workloads[p.workload].state != WorkloadRetired
  }

  /** A named contract is the publisher's, in force, and bound to the workload generation named. */
  ghost predicate ContractNamed(w: W.Workloads, publisher: string, p: EvidencePayload) {
    p.contract != "" ==>
      && p.contract in w.contracts
      && w.contracts[p.contract].owner == publisher
      && w.contracts[p.contract].state == ContractActive
      && w.contracts[p.contract].workload == p.workload
      && w.contracts[p.contract].workloadGeneration == p.workloadGeneration
  }

  ghost predicate Admissible(s: State, env: SessionEnvelope, p: EvidencePayload) {
    && SessionHolds(s, env)
    && p.semantic != UnknownClass
    && (exists x :: Effective(p.claimedSource, env.maxSource, s.publishers.live[env.publisher].maxSource, x)
                    && SourceUsable(s.policy, x, p.metadata.binding))
    && WorkloadNamed(s.workloads, env.publisher, p)
    && ContractNamed(s.workloads, env.publisher, p)
  }

  lemma ClampIsEffective(s: State, env: SessionEnvelope, claimed: EvidenceSource, x: EvidenceSource)
    requires env.publisher in s.publishers.live
    ensures Effective(claimed, env.maxSource, s.publishers.live[env.publisher].maxSource, x)
            <==> x == ClampSource(claimed, Ceiling(s, env))
  {
  }

  lemma {:induction false} NamedIsEnabled(adapters: seq<HeuristicAdapter>, name: string)
    ensures Policy.NamedEnabled(adapters, name) <==> Enabled(adapters, name)
  {
    if adapters != [] {
      var rest := adapters[1..];
      NamedIsEnabled(rest, name);
      if adapters[0].name != name {
        if Enabled(rest, name) {
          var j :| 0 <= j < |rest| && rest[j].name == name && rest[j].enabled && forall k | 0 <= k < j :: rest[k].name != name;
          assert adapters[j + 1] == rest[j];
          assert forall k | 0 < k < j + 1 :: adapters[k] == rest[k - 1];
        }
        if Enabled(adapters, name) {
          var j :| 0 <= j < |adapters| && adapters[j].name == name && adapters[j].enabled
                   && forall k | 0 <= k < j :: adapters[k].name != name;
          assert rest[j - 1] == adapters[j];
        }
      }
    }
  }

  lemma SourceFaultIs(policy: ClassifierPolicy, x: EvidenceSource, binding: nat)
    ensures SourceFault(policy, x, binding).None? <==> SourceUsable(policy, x, binding)
  {
    hide Policy.NamedEnabled, Enabled;
    forall name
      ensures Policy.NamedEnabled(policy.heuristicAdapters, name) <==> Enabled(policy.heuristicAdapters, name)
      ensures Enabled(policy.heuristicAdapters, name) ==> Policy.AnyEnabled(policy.heuristicAdapters)
    {
      NamedIsEnabled(policy.heuristicAdapters, name);
      SomeEnabled(policy.heuristicAdapters, name);
    }
  }

  lemma SomeEnabled(adapters: seq<HeuristicAdapter>, name: string)
    ensures Enabled(adapters, name) ==> Policy.AnyEnabled(adapters)
  {
  }

  /** The checks at the door pass exactly the admissible submissions. */
  lemma AdmittedExactlyWhen(s: State, env: SessionEnvelope, p: EvidencePayload)
    ensures AdmissionFault(s, env, p).None? <==> Admissible(s, env, p)
  {
    hide SourceFault, SourceUsable, Effective, ClampSource, ClassifierState.Ceiling;
    if env.publisher in s.publishers.live {
      var x := ClampSource(p.claimedSource, ClassifierState.Ceiling(s, env));
      forall y
        ensures Effective(p.claimedSource, env.maxSource, s.publishers.live[env.publisher].maxSource, y) <==> y == x
      {
        ClampIsEffective(s, env, p.claimedSource, y);
      }
      SourceFaultIs(s.policy, x, p.metadata.binding);
    }
  }

  /** What is not admissible is refused and changes nothing. */
  lemma InadmissibleIsRefused(o: Oracles, s: State, env: SessionEnvelope, p: EvidencePayload, tick: Tick, later: Tick,
                              wall: nat)
    requires !Admissible(s, env, p)
    ensures var (t, r) := SubmitEvidence(o, s, env, p, tick, later, wall);
            t == s && r.Err?
  {
    hide Admissible, AdmissionFault, RegisterFlow, Publish, P.Observed;
    AdmittedExactlyWhen(s, env, p);
  }

  // ---- what is stored -----------------------------------------------------

  /** The record of an accepted submission, field by field. */
  ghost predicate RecordOf(o: Oracles, s: State, env: SessionEnvelope, p: EvidencePayload, tick: Tick, r: EvidenceRecord) {
    && env.publisher in s.publishers.live
    && Effective(p.claimedSource, env.maxSource, s.publishers.live[env.publisher].maxSource, r.source)
    && r.confidence == BasisPoints(r.source)
    && r.semantic == p.semantic
    && r.workload == p.workload && r.workloadGeneration == p.workloadGeneration && r.contract == p.contract
    && r.publisher == env.publisher && r.publisherBoot == env.publisherBoot && r.session == env.session
    && r.flowId == o.flowId(p.flowKey) && (p.flowGeneration != 0 ==> r.flowGeneration == p.flowGeneration)
    && r.generation == p.evidenceGeneration
    && r.metadata == p.metadata.(contract := p.contract)
    && r.acceptedEpoch == s.epoch && r.acceptedBoot == s.boot && r.acceptedSeq == s.sequence + 1 && r.acceptedTick == tick
    && r.freshUntil == tick + (if p.freshnessWindow != 0 then p.freshnessWindow else s.policy.defaultFreshnessWindow)
    && r.state == EvidenceCurrent && r.stateReason == ""
    && r.id == o.evidenceId(EvidenceIdentity(r.publisher, r.publisherBoot, r.metadata.topic, r.generation, r.flowId,
                                             r.flowGeneration))
    && r.contentDigest == EvidenceDigest(o, r)
  }

  lemma MintIsRecordOf(o: Oracles, s: State, env: SessionEnvelope, p: EvidencePayload, flow: FlowRecord, tick: Tick)
    requires env.publisher in s.publishers.live && flow.id == o.flowId(p.flowKey)
    requires p.flowGeneration != 0 ==> flow.generation == p.flowGeneration
    ensures RecordOf(o, s, env, p, tick, Mint(o, s, env, p, flow, s.sequence + 1, tick))
  {
    hide Effective, ClampSource, ClassifierState.Ceiling, SourceConfidence, EvidenceDigest, BasisPoints;
    var r := Mint(o, s, env, p, flow, s.sequence + 1, tick);
    ClampIsEffective(s, env, p.claimedSource, r.source);
    TablesAgree(r.source);
    MintWellFormed(o, s, env, p, flow, s.sequence + 1, tick);
  }

  /** The record is on the same flow, and the new one replaces its incarnation or its own generation. */
  ghost predicate Overtaken(s: State, key: FlowKey, r: EvidenceRecord, x: EvidenceRecord) {
    && x.flowId == r.flowId
    && (|| !(key in s.flows.current && s.flows.current[key].generation == r.flowGeneration)
        || (&& x.publisher == r.publisher && x.publisherBoot == r.publisherBoot
            && x.metadata.topic == r.metadata.topic && x.generation < r.generation))
  }

  /** Besides the new record, the store holds old ones, changed only where they were overtaken. */
  ghost predicate OnlyDisturbs(s: State, t: State, key: FlowKey, r: EvidenceRecord) {
    forall id | id in t.evidence.byId && id != r.id ::
      && id in s.evidence.byId
      && (t.evidence.byId[id] == s.evidence.byId[id] || Overtaken(s, key, r, s.evidence.byId[id]))
  }

  /** The flow of the record is registered at the record's generation. */
  ghost predicate OnFlowOf(t: State, key: FlowKey, r: EvidenceRecord) {
    key in t.flows.current && t.flows.current[key].id == r.flowId && t.flows.current[key].generation == r.flowGeneration
  }

  ghost predicate StoredAs(t: State, r: EvidenceRecord) {
    r.id in t.evidence.byId && t.evidence.byId[r.id] == r
  }

  lemma RegistrationMeans(o: Oracles, f: F.Flows, key: FlowKey, requested: nat, session: string, tick: Tick)
    requires F.FlowInvariant(o, f) && F.Registered(o, f, key, requested, session, tick).1.Ok?
    ensures var (g, r) := F.Registered(o, f, key, requested, session, tick);
            && key in g.current && g.current[key] == r.value.record && r.value.record.id == o.flowId(key)
            && (requested != 0 ==> r.value.record.generation == requested)
            && (r.value.created <==> !(key in f.current && f.current[key].generation == r.value.record.generation))
            && (r.value.fencedPrevious ==> r.value.created)
  {
    hide F.FlowInvariant;
    F.RegisteredOutcome(o, f, key, requested, session, tick);
  }

  lemma FenceOnly(o: Oracles, e: E.Evidence, r: FlowRegistration, id: string)
    requires r.fencedPrevious ==> r.created
    requires id in e.byId
    ensures id in Fence(o, e, r).byId
    ensures Fence(o, e, r).byId[id] == e.byId[id] || (r.created && e.byId[id].flowId == r.record.id)
  {
  }

  lemma {:induction false} DisplaceOnly(o: Oracles, x: Displacement, r: EvidenceRecord, ids: seq<string>, tick: Tick,
                                        id: string)
    requires Keyed(x.evidence) && id in x.evidence.byId
    ensures var e := Displace(o, x, r, ids, tick).evidence;
            && Keyed(e) && id in e.byId && e.byId[id].flowId == x.evidence.byId[id].flowId
            && (e.byId[id] == x.evidence.byId[id] || (id in ids && Displaces(r, x.evidence.byId[id])))
            && (Displaces(r, e.byId[id]) <==> Displaces(r, x.evidence.byId[id]))
    decreases |ids|
  {
    if ids != [] {
      DisplaceOnly(o, x, r, ids[..|ids| - 1], tick, id);
    }
  }

  /** The stages an accepted submission went through. */
  lemma AcceptedStages(o: Oracles, s: State, env: SessionEnvelope, p: EvidencePayload, tick: Tick, later: Tick, wall: nat)
    requires SubmitEvidence(o, s, env, p, tick, later, wall).1.Ok?
    ensures var (t, r) := SubmitEvidence(o, s, env, p, tick, later, wall);
            var (s1, flow) := RegisterFlow(o, s, p.flowKey, p.flowGeneration, env.session, tick);
            var q := P.Observed(s1.publishers, env.publisher, env.publisherBoot, p.evidenceGeneration);
            var s2 := s1.(publishers := q.0);
            && AdmissionFault(s, env, p).None? && flow.Ok? && q.1.Ok? && env.publisher in s2.publishers.live
            && s2.sequence < MAX_U64
            && r.value.record == Mint(o, s2, env, p, flow.value.record, s2.sequence + 1, tick)
            && E.Inserted(Displaced(o, s2, r.value.record, tick).evidence, r.value.record).1.Ok?
            && t.evidence == E.Inserted(Displaced(o, s2, r.value.record, tick).evidence, r.value.record).0
            && t.flows == s1.flows
  {
    hide Displace, E.Inserted, P.Touched, P.Observed, E.FlowRecords, Mint, RegisterFlow, AdmissionFault;
    var s1 := RegisterFlow(o, s, p.flowKey, p.flowGeneration, env.session, tick).0;
    if P.Observed(s1.publishers, env.publisher, env.publisherBoot, p.evidenceGeneration).1.Ok? {
      ObservedKeepsCeiling(s1.publishers, env.publisher, env.publisherBoot, p.evidenceGeneration);
    }
  }

  lemma RegisterFlowStages(o: Oracles, s: State, key: FlowKey, requested: nat, session: string, tick: Tick)
    requires RegisterFlow(o, s, key, requested, session, tick).1.Ok?
    ensures var (t, flow) := RegisterFlow(o, s, key, requested, session, tick);
            var (f, r) := F.Registered(o, s.flows, key, requested, session, tick);
            && r.Ok? && flow == r && t.flows == f && t.evidence == Fence(o, s.evidence, r.value)
            && t == s.(flows := t.flows, evidence := t.evidence, decisions := t.decisions)
  {
    hide F.Registered, Fence;
  }

  lemma ObservedKeepsCeiling(p: P.Publishers, id: string, boot: nat, generation: nat)
    requires P.Observed(p, id, boot, generation).1.Ok?
    ensures var q := P.Observed(p, id, boot, generation).0;
            id in p.live && id in q.live && q.live[id].maxSource == p.live[id].maxSource
  {
  }

  lemma RecordOfSame(o: Oracles, s: State, t: State, env: SessionEnvelope, p: EvidencePayload, tick: Tick, r: EvidenceRecord)
    requires RecordOf(o, t, env, p, tick, r)
    requires t.epoch == s.epoch && t.boot == s.boot && t.sequence == s.sequence && t.policy == s.policy
    requires env.publisher in s.publishers.live
    requires s.publishers.live[env.publisher].maxSource == t.publishers.live[env.publisher].maxSource
    ensures RecordOf(o, s, env, p, tick, r)
  {
    hide Effective, BasisPoints, EvidenceDigest;
  }

  /** Everything about the record an accepted submission makes. */
  lemma AcceptedRecord(o: Oracles, s: State, env: SessionEnvelope, p: EvidencePayload, tick: Tick, later: Tick, wall: nat)
    requires Inv(o, s) && SubmitEvidence(o, s, env, p, tick, later, wall).1.Ok?
    ensures var (t, r) := SubmitEvidence(o, s, env, p, tick, later, wall);
            RecordOf(o, s, env, p, tick, r.value.record) && OnFlowOf(t, p.flowKey, r.value.record)
  {
    hide Inv, SubmitEvidence, RegisterFlow, P.Observed, Mint, E.Inserted, Displaced, F.Registered, Fence, RecordOf,
         AdmissionFault, F.FlowInvariant, E.IndexInvariant, RecordsInvariant, TopicInvariant, Numbered,
         P.RegistryInvariant;
    PartsOf(o, s);
    AcceptedStages(o, s, env, p, tick, later, wall);
    var (s1, flow) := RegisterFlow(o, s, p.flowKey, p.flowGeneration, env.session, tick);
    RegisterFlowStages(o, s, p.flowKey, p.flowGeneration, env.session, tick);
    RegistrationMeans(o, s.flows, p.flowKey, p.flowGeneration, env.session, tick);
    ObservedKeepsCeiling(s1.publishers, env.publisher, env.publisherBoot, p.evidenceGeneration);
    var s2 := s1.(publishers := P.Observed(s1.publishers, env.publisher, env.publisherBoot, p.evidenceGeneration).0);
    MintIsRecordOf(o, s2, env, p, flow.value.record, tick);
    RecordOfSame(o, s, s2, env, p, tick, Mint(o, s2, env, p, flow.value.record, s2.sequence + 1, tick));
    MintOnFlow(o, s2, env, p, flow.value.record, tick);
  }

  lemma MintOnFlow(o: Oracles, s: State, env: SessionEnvelope, p: EvidencePayload, flow: FlowRecord, tick: Tick)
    requires env.publisher in s.publishers.live
    ensures var r := Mint(o, s, env, p, flow, s.sequence + 1, tick);
            r.flowId == flow.id && r.flowGeneration == flow.generation
  {
  }

  lemma MintIsNew(o: Oracles, s1: State, env: SessionEnvelope, p: EvidencePayload, r: EvidenceRecord)
    requires DistinctIdentities(o) && Inv(o, s1) && WellFormed(o, r)
    requires P.Observed(s1.publishers, env.publisher, env.publisherBoot, p.evidenceGeneration).1.Ok?
    requires r.publisher == env.publisher && r.publisherBoot == env.publisherBoot && r.generation == p.evidenceGeneration
    ensures r.id !in s1.evidence.byId && Keyed(s1.evidence)
  {
    hide Inv, WellFormed, P.Observed, Newest, RecordInvariant, P.Used, P.RegistryInvariant;
    PartsOf(o, s1);
    PartsKeyed(o, s1);
    DistinctParts(o);
    ObservedIsNewest(o, s1, env.publisher, env.publisherBoot, p.evidenceGeneration);
    NewIdentity(o, s1, r);
  }

  /** What the store holds after displacing and inserting. */
  lemma InsertedStore(o: Oracles, s2: State, r: EvidenceRecord, tick: Tick)
    requires Keyed(s2.evidence) && E.IndexInvariant(s2.evidence) && r.id !in s2.evidence.byId
    requires E.Inserted(Displaced(o, s2, r, tick).evidence, r).1.Ok?
    ensures var e := E.Inserted(Displaced(o, s2, r, tick).evidence, r).0;
            && r.id in e.byId && e.byId[r.id] == r
            && forall id | id in e.byId && id != r.id ::
                 && id in s2.evidence.byId
                 && (e.byId[id] == s2.evidence.byId[id]
                     || (s2.evidence.byId[id].flowId == r.flowId && Displaces(r, s2.evidence.byId[id])))
  {
    hide E.Inserted, Displace, E.FlowRecords, E.IndexInvariant, Displaces, Ages;
    var x := Displacement(s2.evidence, s2.decisions, None);
    var ids := E.IdsOf(E.FlowRecords(s2.evidence, r.flowId));
    var d := Displaced(o, s2, r, tick).evidence;
    DisplaceRelabels(o, x, r, ids, tick);
    E.InsertGains(d, r);
    E.FlowReachesItsList(s2.evidence, r.flowId);
    var e := E.Inserted(d, r).0;
    forall id | id in e.byId && id != r.id
      ensures id in s2.evidence.byId
      ensures e.byId[id] == s2.evidence.byId[id]
              || (s2.evidence.byId[id].flowId == r.flowId && Displaces(r, s2.evidence.byId[id]))
    {
      DisplaceOnly(o, x, r, ids, tick, id);
      if id in ids {
        var i :| 0 <= i < |ids| && ids[i] == id;
        assert E.FlowRecords(s2.evidence, r.flowId)[i].id == id;
      }
    }
  }

  /** An accepted record is stored, and nothing else is disturbed that it does not overtake. */
  lemma AcceptedStore(o: Oracles, s: State, env: SessionEnvelope, p: EvidencePayload, tick: Tick, later: Tick, wall: nat)
    requires DistinctIdentities(o) && Inv(o, s) && SubmitEvidence(o, s, env, p, tick, later, wall).1.Ok?
    ensures var (t, r) := SubmitEvidence(o, s, env, p, tick, later, wall);
            StoredAs(t, r.value.record) && OnlyDisturbs(s, t, p.flowKey, r.value.record)
  {
    hide Inv, SubmitEvidence, RegisterFlow, P.Observed, Mint, E.Inserted, Displaced, F.Registered, Fence,
         AdmissionFault, DistinctIdentities, WellFormed, F.FlowInvariant, E.IndexInvariant, RecordsInvariant,
         TopicInvariant, Numbered, P.RegistryInvariant, Effective, EvidenceDigest, BasisPoints, W.ContractInvariant;
    PartsOf(o, s);
    AcceptedStages(o, s, env, p, tick, later, wall);
    AcceptedRecord(o, s, env, p, tick, later, wall);
    var (t, answer) := SubmitEvidence(o, s, env, p, tick, later, wall);
    var rec := answer.value.record;
    var (s1, flow) := RegisterFlow(o, s, p.flowKey, p.flowGeneration, env.session, tick);
    RegisterFlowStages(o, s, p.flowKey, p.flowGeneration, env.session, tick);
    RegistrationMeans(o, s.flows, p.flowKey, p.flowGeneration, env.session, tick);
    RegisterFlowKeepsInv(o, s, p.flowKey, p.flowGeneration, env.session, tick);
    SoundInv(o, s, s1);
    PartsOf(o, s1);
    var s2 := s1.(publishers := P.Observed(s1.publishers, env.publisher, env.publisherBoot, p.evidenceGeneration).0);
    MintWellFormed(o, s2, env, p, flow.value.record, s2.sequence + 1, tick);
    MintOnFlow(o, s2, env, p, flow.value.record, tick);
    MintIsNew(o, s1, env, p, rec);
    InsertedStore(o, s2, rec, tick);
    forall id | id in t.evidence.byId && id != rec.id
      ensures id in s.evidence.byId
      ensures t.evidence.byId[id] == s.evidence.byId[id] || Overtaken(s, p.flowKey, rec, s.evidence.byId[id])
    {
      FenceHolds(o, s.evidence, flow.value, id);
      FenceOnly(o, s.evidence, flow.value, id);
    }
  }

  lemma FenceHolds(o: Oracles, e: E.Evidence, r: FlowRegistration, id: string)
    ensures id in Fence(o, e, r).byId <==> id in e.byId
  {
  }

  // ---- nothing else stores a record ---------------------------------------

  lemma RefusedInsertAdds(e: E.Evidence, r: EvidenceRecord, id: string)
    requires E.Inserted(e, r).1.Err? && id in E.Inserted(e, r).0.byId
    ensures id in e.byId
  {
    hide E.EvictOldest;
    E.EvictionOnlyRemoves(e);
  }

  lemma DisplacedHolds(o: Oracles, s: State, r: EvidenceRecord, tick: Tick, id: string)
    ensures id in Displaced(o, s, r, tick).evidence.byId <==> id in s.evidence.byId
  {
    hide Displace, E.FlowRecords;
    DisplaceRelabels(o, Displacement(s.evidence, s.decisions, None), r, E.IdsOf(E.FlowRecords(s.evidence, r.flowId)), tick);
  }

  lemma RefusedPublishAdds(o: Oracles, s: State, env: SessionEnvelope, p: EvidencePayload, flow: FlowRegistration, tick: Tick,
                           later: Tick, wall: nat, id: string)
    requires env.publisher in s.publishers.live
    requires var (t, r) := Publish(o, s, env, p, flow, tick, later, wall);
             r.Err? && id in t.evidence.byId
    ensures id in s.evidence.byId
  {
    hide Displace, E.Inserted, P.Touched, E.FlowRecords, Mint;
    if s.sequence < MAX_U64 {
      var r := Mint(o, s, env, p, flow.record, s.sequence + 1, tick);
      RefusedInsertAdds(Displaced(o, s, r, tick).evidence, r, id);
      DisplacedHolds(o, s, r, tick, id);
    }
  }

  lemma RefusedSubmitAdds(o: Oracles, s: State, env: SessionEnvelope, p: EvidencePayload, tick: Tick, later: Tick, wall: nat,
                          id: string)
    requires var (t, r) := SubmitEvidence(o, s, env, p, tick, later, wall);
             r.Err? && id in t.evidence.byId
    ensures id in s.evidence.byId
  {
    hide Publish, RegisterFlow, P.Observed, AdmissionFault;
    var (s1, flow) := RegisterFlow(o, s, p.flowKey, p.flowGeneration, env.session, tick);
    RegisterFlowHolds(o, s, p.flowKey, p.flowGeneration, env.session, tick, id);
    var q := P.Observed(s1.publishers, env.publisher, env.publisherBoot, p.evidenceGeneration);
    if AdmissionFault(s, env, p).None? && flow.Ok? && q.1.Ok? {
      ObservedKeepsCeiling(s1.publishers, env.publisher, env.publisherBoot, p.evidenceGeneration);
      RefusedPublishAdds(o, s1.(publishers := q.0), env, p, flow.value, tick, later, wall, id);
    }
  }

  lemma RegisterFlowHolds(o: Oracles, s: State, key: FlowKey, requested: nat, session: string, tick: Tick, id: string)
    ensures id in RegisterFlow(o, s, key, requested, session, tick).0.evidence.byId <==> id in s.evidence.byId
  {
    hide F.Registered, Fence;
    var r := F.Registered(o, s.flows, key, requested, session, tick).1;
    if r.Ok? {
      FenceHolds(o, s.evidence, r.value, id);
    }
  }

  lemma ClassifyHolds(o: Oracles, s: State, query: Query, tick: Tick)
    ensures Classify(o, s, query, tick).0.evidence == s.evidence
  {
    hide Question, D.Recorded, D.MemoStored, KeyOf, F.HasGeneration;
  }

  lemma OthersHold(o: Oracles, s: State, c: Call, id: string)
    requires !c.op.OpSubmitEvidence? && !c.op.OpRegisterFlow? && !c.op.OpClassify?
    ensures id in Apply(o, s, c).evidence.byId <==> id in s.evidence.byId
  {
    hide Classify, RegisterFlow, SubmitEvidence, P.ClearedSessions, P.Bound, P.Ended, P.Touched, P.Expire,
         P.ExpiredIds, W.Declared, W.Proposed, W.Activated, W.ContractRetirement, W.WorkloadRetirement,
         W.RetiredByDeclaring, W.RetiredByActivating, Policy.Canonicalized, F.HasGeneration, E.StaledIf;
  }

  /** The call is an admissible submission, and this is its record. */
  ghost predicate Submits(o: Oracles, s: State, c: Call, x: Attempt, r: EvidenceRecord) {
    && c == SubmitCall(x)
    && Admissible(s, x.envelope, x.payload)
    && RecordOf(o, s, x.envelope, x.payload, x.tick, r)
  }

  ghost predicate Holds(t: State, id: string, r: EvidenceRecord) {
    id in t.evidence.byId && t.evidence.byId[id] == r
  }

  lemma AcceptedSubmits(o: Oracles, s: State, env: SessionEnvelope, p: EvidencePayload, tick: Tick, later: Tick, wall: nat,
                        r: EvidenceRecord)
    requires Inv(o, s)
    requires var a := SubmitEvidence(o, s, env, p, tick, later, wall).1;
             a.Ok? && a.value.record == r
    ensures Submits(o, s, SubmitCall(Attempt(env, p, tick, later, wall)), Attempt(env, p, tick, later, wall), r)
  {
    hide Inv, SubmitEvidence, Admissible, RecordOf, AdmissionFault, P.Observed, Mint, E.Inserted, Displaced,
         RegisterFlow;
    AcceptedRecord(o, s, env, p, tick, later, wall);
    AcceptedStages(o, s, env, p, tick, later, wall);
    AdmittedExactlyWhen(s, env, p);
  }

  /** An operation that leaves a record where none was is its accepted submission. */
  lemma OnlySubmissionStores(o: Oracles, s: State, c: Call, t: State, id: string, r: EvidenceRecord) returns (x: Attempt)
    requires DistinctIdentities(o) && Inv(o, s) && t == Apply(o, s, c)
    requires id !in s.evidence.byId && Holds(t, id, r)
    ensures Submits(o, s, c, x, r) && r.id == id
  {
    hide Inv, SubmitEvidence, RegisterFlow, Classify, DistinctIdentities, AdvanceEpoch, SetPolicy, RegisterPublisher,
         EndSession, Heartbeat, ExpireLiveness, DeclareWorkload, ProposeContract, ActivateContract, RetireContract,
         RetireWorkload, WithdrawEvidence, RevokeGeneration, Submits;
    match c.op
    case OpSubmitEvidence(env, p) =>
      x := Attempt(env, p, c.tick, c.later, c.wall);
      if SubmitEvidence(o, s, env, p, c.tick, c.later, c.wall).1.Ok? {
        AcceptedStore(o, s, env, p, c.tick, c.later, c.wall);
        AcceptedSubmits(o, s, env, p, c.tick, c.later, c.wall, r);
      } else {
        RefusedSubmitAdds(o, s, env, p, c.tick, c.later, c.wall, id);
      }
    case OpRegisterFlow(key, generation, session) =>
      RegisterFlowHolds(o, s, key, generation, session, c.tick, id);
    case OpClassify(query) => ClassifyHolds(o, s, query, c.tick);
    case _ => OthersHold(o, s, c, id);
  }

  /** The life submitted this record, at a point from which the other continues. */
  ghost predicate Submitted(o: Oracles, a: Life, s: State, x: Attempt, r: EvidenceRecord, b: Life) {
    && Lived(o, a, s)
    && After(Step(a, SubmitCall(x)), b)
    && Submits(o, s, SubmitCall(x), x, r)
  }

  /** The stored record is this one, aged. */
  ghost predicate Descends(t: State, id: string, r: EvidenceRecord) {
    r.id == id && id in t.evidence.byId && Ages(r, t.evidence.byId[id])
  }

  lemma StepDescends(o: Oracles, s: State, t: State, id: string, r: EvidenceRecord)
    requires Evolves(o, s, t) && id in t.evidence.byId && Descends(s, id, r)
    ensures Descends(t, id, r)
  {
    hide MovesForward, Ages, WellFormed;
    assert Continues(o, s, id, t.evidence.byId[id]);
    AgesTransitive(r, s.evidence.byId[id], t.evidence.byId[id]);
  }

  lemma RestartDescends(s: State, t: State, id: string, r: EvidenceRecord)
    requires RestartedFrom(s, t) && Descends(s, id, r)
    ensures Descends(t, id, r)
  {
    hide DurableForward, AllBefore, P.LiveIncarnations;
    AgesTransitive(r, s.evidence.byId[id], t.evidence.byId[id]);
  }

  lemma RestartHolds(s: State, t: State, id: string)
    requires RestartedFrom(s, t)
    ensures id in s.evidence.byId <==> id in t.evidence.byId
  {
  }

  /**
   * Every stored record, restarts included, was submitted in this life by an envelope and a
   * payload that were admissible then, and is what was accepted then but for its state: in
   * particular its source was within the claim, the envelope and the registration of that time.
   */
  lemma {:induction false} EveryRecordWasSubmitted(o: Oracles, b: Life, t: State, id: string)
    returns (a: Life, s: State, x: Attempt, r: EvidenceRecord)
    requires DistinctIdentities(o) && Lived(o, b, t) && id in t.evidence.byId
    ensures Submitted(o, a, s, x, r, b) && Descends(t, id, r)
    decreases b
  {
    hide Inv, Apply, Start, ImageOf, DistinctIdentities, Evolves, RestartedFrom, MemoBacked, Submits, Descends,
         Policy.Canonicalized;
    match b
    case Begin(policy, epoch, boot) => assert false;
    case Step(before, call) =>
      var s0 := StateOf(o, before);
      LivesAreSound(o, before);
      ApplyKeeps(o, s0, call);
      if id in s0.evidence.byId {
        a, s, x, r := EveryRecordWasSubmitted(o, before, s0, id);
        StepDescends(o, s0, t, id, r);
      } else {
        r := t.evidence.byId[id];
        x := OnlySubmissionStores(o, s0, call, t, id, r);
        a, s := before, s0;
        SubmitsCall(o, s0, call, x, r);
        FreshDescends(t, id, r);
      }
    case Reboot(before, policy, image, boot, tick) =>
      var s0 := StateOf(o, before);
      LivesAreSound(o, before);
      RestartIsSafe(o, s0, policy, image, boot, tick);
      RestartHolds(s0, t, id);
      a, s, x, r := EveryRecordWasSubmitted(o, before, s0, id);
      RestartDescends(s0, t, id, r);
  }

  lemma SubmitsCall(o: Oracles, s: State, c: Call, x: Attempt, r: EvidenceRecord)
    requires Submits(o, s, c, x, r)
    ensures c == SubmitCall(x)
  {
  }

  lemma FreshDescends(t: State, id: string, r: EvidenceRecord)
    requires r.id == id && Holds(t, id, r)
    ensures Descends(t, id, r)
  {
  }
}
