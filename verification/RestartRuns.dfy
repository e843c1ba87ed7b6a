/**
 * Restarts in whole lives: no table ever outgrows the capacity its process was configured
 * with, so only an exhausted counter keeps a coordinator from starting again.
 */
module RestartRuns {
  import opened Domain
  import opened ClassifierState
  import opened ClassifierInvariant
  import opened ClassifierSteps
  import opened ClassifierPublication
  import opened ClassifierMemo
  import opened ClassifierRuns
  import opened Restart
  import opened RestartSafety
  import opened StartConditions
  import Policy
  import E = EvidenceStore
  import P = PublisherRegistry
  import W = WorkloadRegistry
  import F = FlowRegistry
  import D = ClassificationIndex

  // ---- each store keeps to its capacity -----------------------------------

  ghost predicate PublishersKept(p: P.Publishers, q: P.Publishers) {
    q.maxPublishers == p.maxPublishers && (|p.records| <= p.maxPublishers ==> |q.records| <= p.maxPublishers)
  }

  ghost predicate WorkloadsKept(w: W.Workloads, v: W.Workloads) {
    && v.maxWorkloads == w.maxWorkloads && v.maxContracts == w.maxContracts
    && (|w.workloads| <= w.maxWorkloads ==> |v.workloads| <= w.maxWorkloads)
    && (|w.contracts| <= w.maxContracts ==> |v.contracts| <= w.maxContracts)
  }

  ghost predicate FlowsKept(f: F.Flows, g: F.Flows) {
    g.maxFlows == f.maxFlows && (|f.current| <= f.maxFlows ==> |g.current| <= f.maxFlows)
  }

  ghost predicate Kept(s: State, t: State) {
    && PublishersKept(s.publishers, t.publishers)
    && WorkloadsKept(s.workloads, t.workloads)
    && FlowsKept(s.flows, t.flows)
    && t.evidence.maxRecords == s.evidence.maxRecords
  }

  lemma BoundKept(p: P.Publishers, b: P.Binding)
    ensures PublishersKept(p, P.Bound(p, b).0)
  {
    hide P.NewRecord, P.RenewedRecord, P.NewRegistration, P.RenewedRegistration;
  }

  lemma PublisherStepsKept(p: P.Publishers, id: string, boot: nat, session: string, generation: nat, tick: Tick, wall: nat)
    ensures PublishersKept(p, P.Ended(p, id, boot, session, tick).0)
    ensures PublishersKept(p, P.Touched(p, id, boot, tick, wall).0)
    ensures PublishersKept(p, P.Observed(p, id, boot, generation).0)
    ensures PublishersKept(p, P.Expire(p, tick)) && PublishersKept(p, P.ClearedSessions(p))
  {
    hide P.Closed, P.IdleTooLong, P.ClearedRegistration;
  }

  lemma RetireAllKeys(contracts: map<string, WorkloadContract>, ids: set<string>, tick: Tick)
    ensures |W.RetireAll(contracts, ids, tick)| == |contracts|
  {
    assert W.RetireAll(contracts, ids, tick).Keys == contracts.Keys;
    assert |W.RetireAll(contracts, ids, tick)| == |W.RetireAll(contracts, ids, tick).Keys| && |contracts| == |contracts.Keys|;
  }

  lemma DeclaredKept(w: W.Workloads, id: string, owner: string, generation: nat, tick: Tick, description: string)
    ensures WorkloadsKept(w, W.Declared(w, id, owner, generation, tick, description).0)
  {
    hide W.RetireAll, W.NewWorkload, W.AdvancedWorkload, W.Described;
    RetireAllKeys(w.contracts, W.BoundBelow(w, id, generation), tick);
  }

  lemma ProposedKept(o: Oracles, w: W.Workloads, c: WorkloadContract, tick: Tick)
    ensures WorkloadsKept(w, W.Proposed(o, w, c, tick).0)
  {
    hide W.AsProposed;
  }

  lemma ActivatedKept(w: W.Workloads, id: string, caller: string, tick: Tick)
    ensures WorkloadsKept(w, W.Activated(w, id, caller, tick).0)
  {
    hide W.RetireAll, W.AsActivated, W.RetiredByActivating;
    RetireAllKeys(w.contracts, W.RetiredByActivating(w, id, caller), tick);
    RetireAllHolds(w.contracts, W.RetiredByActivating(w, id, caller), tick, id);
  }

  lemma RetireAllHolds(contracts: map<string, WorkloadContract>, ids: set<string>, tick: Tick, id: string)
    ensures id in contracts <==> id in W.RetireAll(contracts, ids, tick)
  {
  }

  lemma RetirementsKept(w: W.Workloads, id: string, caller: string, generation: nat, tick: Tick)
    ensures WorkloadsKept(w, W.ContractRetirement(w, id, caller, tick).0)
    ensures WorkloadsKept(w, W.WorkloadRetirement(w, id, generation, tick).0)
  {
    hide W.RetireAll, W.RetiredAt;
    RetireAllKeys(w.contracts, W.ActiveOf(w, id), tick);
  }

  lemma RegisteredKept(o: Oracles, f: F.Flows, key: FlowKey, requested: nat, session: string, tick: Tick)
    ensures FlowsKept(f, F.Registered(o, f, key, requested, session, tick).0)
  {
    hide F.NewIncarnation, F.Renewed, F.Trimmed, F.HighestKnown, F.InHistory;
  }

  // ---- every operation keeps to it ----------------------------------------

  lemma {:induction false} EvictKeepsBound(e: E.Evidence)
    ensures E.EvictOldest(e).maxRecords == e.maxRecords
    decreases |e.order|
  {
    if e.order != [] && |e.byId| >= e.maxRecords {
      EvictKeepsBound(E.EvictFirst(e));
    }
  }

  lemma {:induction false} DisplaceKeepsBound(o: Oracles, x: Displacement, r: EvidenceRecord, ids: seq<string>, tick: Tick)
    ensures Displace(o, x, r, ids, tick).evidence.maxRecords == x.evidence.maxRecords
    decreases |ids|
  {
    if ids != [] {
      DisplaceKeepsBound(o, x, r, ids[..|ids| - 1], tick);
    }
  }

  lemma PublishKept(o: Oracles, s: State, env: SessionEnvelope, p: EvidencePayload, flow: FlowRegistration, tick: Tick,
                    later: Tick, wall: nat)
    requires env.publisher in s.publishers.live
    ensures Kept(s, Publish(o, s, env, p, flow, tick, later, wall).0)
  {
    hide Displace, E.EvictOldest, P.Touched, E.FlowRecords, Mint, E.IdsOf, E.MakeRoom;
    PublisherStepsKept(s.publishers, env.publisher, env.publisherBoot, "", 0, later, wall);
    if s.sequence < MAX_U64 {
      var r := Mint(o, s, env, p, flow.record, s.sequence + 1, tick);
      var ids := E.IdsOf(E.FlowRecords(s.evidence, r.flowId));
      var x := Displacement(s.evidence, s.decisions, None);
      DisplaceKeepsBound(o, x, r, ids, tick);
      EvictKeepsBound(Displace(o, x, r, ids, tick).evidence);
    }
  }

  lemma RegisterFlowKept(o: Oracles, s: State, key: FlowKey, requested: nat, session: string, tick: Tick)
    ensures Kept(s, RegisterFlow(o, s, key, requested, session, tick).0)
  {
    hide F.Registered;
    RegisteredKept(o, s.flows, key, requested, session, tick);
  }

  lemma KeptTransitive(s: State, t: State, u: State)
    requires Kept(s, t) && Kept(t, u)
    ensures Kept(s, u)
  {
  }

  lemma SubmitKept(o: Oracles, s: State, env: SessionEnvelope, p: EvidencePayload, tick: Tick, later: Tick, wall: nat)
    ensures Kept(s, SubmitEvidence(o, s, env, p, tick, later, wall).0)
  {
    hide SubmitEvidence, Publish, RegisterFlow, P.Observed, PublishersKept, WorkloadsKept, FlowsKept;
    SubmitCases(o, s, env, p, tick, later, wall);
    KeptRefl(s);
    RegisterFlowKept(o, s, p.flowKey, p.flowGeneration, env.session, tick);
    var (s1, flow) := RegisterFlow(o, s, p.flowKey, p.flowGeneration, env.session, tick);
    var s2 := Observing(s1, env.publisher, env.publisherBoot, p.evidenceGeneration);
    if flow.Ok? && env.publisher in s2.publishers.live {
      PublisherStepsKept(s1.publishers, env.publisher, env.publisherBoot, "", p.evidenceGeneration, 0, 0);
      KeptRefl(s1);
      PublishKept(o, s2, env, p, flow.value, tick, later, wall);
      KeptTransitive(s, s1, s2);
      KeptTransitive(s, s2, Publish(o, s2, env, p, flow.value, tick, later, wall).0);
    }
  }

  lemma KeptRefl(s: State)
    ensures Kept(s, s)
  {
  }

  lemma ClassifyKept(o: Oracles, s: State, query: Query, tick: Tick)
    ensures Kept(s, Classify(o, s, query, tick).0)
  {
    hide Classify, Answered, Question, PublishersKept, WorkloadsKept, FlowsKept;
    KeptRefl(s);
    ClassifyCases(o, s, query, tick);
    if Subject(s, query).Ok? {
      AnsweredCases(o, s, Question(s, s.flows.current[query.flowKey], Subject(s, query).value, tick));
    }
  }

  lemma ApplyKept(o: Oracles, s: State, c: Call)
    ensures Kept(s, Apply(o, s, c))
  {
    hide RegisterFlow, SubmitEvidence, Classify, P.Bound, P.Ended, P.Touched, P.Expire, P.ClearedSessions, W.Declared,
         W.Proposed, W.Activated, W.ContractRetirement, W.WorkloadRetirement, Policy.Canonicalized, PublishersKept,
         WorkloadsKept, FlowsKept, W.RetiredByDeclaring, W.RetiredByActivating, F.HasGeneration;
    KeptRefl(s);
    match c.op
    case OpAdvanceEpoch(boot) => PublisherStepsKept(s.publishers, "", 0, "", 0, 0, 0);
    case OpSetPolicy(policy) =>
    case OpRegisterPublisher(hello) => BoundKept(s.publishers, BindingOf(s, hello, c.tick, c.wall));
    case OpEndSession(id, boot, session) => PublisherStepsKept(s.publishers, id, boot, session, 0, c.tick, 0);
    case OpHeartbeat(id, boot) => PublisherStepsKept(s.publishers, id, boot, "", 0, c.tick, c.wall);
    case OpExpireLiveness => PublisherStepsKept(s.publishers, "", 0, "", 0, c.tick, 0);
    case OpDeclareWorkload(id, owner, generation, description) =>
      DeclaredKept(s.workloads, id, owner, generation, c.tick, description);
    case OpProposeContract(contract) => ProposedKept(o, s.workloads, contract, c.tick);
    case OpActivateContract(id, caller) => ActivatedKept(s.workloads, id, caller, c.tick);
    case OpRetireContract(id, caller) => RetirementsKept(s.workloads, id, caller, 0, c.tick);
    case OpRetireWorkload(id, generation) => RetirementsKept(s.workloads, id, "", generation, c.tick);
    case OpRegisterFlow(key, generation, session) => RegisterFlowKept(o, s, key, generation, session, c.tick);
    case OpSubmitEvidence(env, payload) => SubmitKept(o, s, env, payload, c.tick, c.later, c.wall);
    case OpWithdrawEvidence(env, id, reason) =>
    case OpRevokeGeneration(env, flow, generation, reason) =>
    case OpClassify(query) => ClassifyKept(o, s, query, c.tick);
  }

  // ---- and so does every life ---------------------------------------------

  ghost predicate PublishersWithin(limits: ResourceLimits, p: P.Publishers) {
    p.maxPublishers == limits.maxPublishers && |p.records| <= limits.maxPublishers
  }

  ghost predicate WorkloadsWithin(limits: ResourceLimits, w: W.Workloads) {
    && w.maxWorkloads == limits.maxWorkloads && |w.workloads| <= limits.maxWorkloads
    && w.maxContracts == limits.maxContracts && |w.contracts| <= limits.maxContracts
  }

  ghost predicate FlowsWithin(limits: ResourceLimits, f: F.Flows) {
    f.maxFlows == limits.maxFlows && |f.current| <= limits.maxFlows
  }

  /** The stores have the capacities of these limits and keep to them. */
  ghost predicate Within(limits: ResourceLimits, s: State) {
    && PublishersWithin(limits, s.publishers)
    && WorkloadsWithin(limits, s.workloads)
    && FlowsWithin(limits, s.flows)
    && s.evidence.maxRecords == limits.maxEvidenceRecords
  }

  lemma {:induction false} RestoreAllPreserves<S(!new), T(!new)>(step: (S, T) -> (S, Result<()>), good: S -> bool, s: S,
                                                                 xs: seq<T>)
    requires good(s) && forall t, x | good(t) :: good(step(t, x).0)
    ensures good(RestoreAll(step, s, xs).0)
    decreases |xs|
  {
    if xs != [] {
      RestoreAllPreserves(step, good, step(s, xs[0]).0, xs[1..]);
    }
  }

  lemma RestoredPublishersWithin(limits: ResourceLimits, p: P.Publishers, rs: seq<PublisherRecord>, tick: Tick)
    requires PublishersWithin(limits, p)
    ensures PublishersWithin(limits, P.RestoredRecords(p, rs, tick).0)
  {
    hide P.RestoredRecords, RestoreAll, P.StoredRecord, P.DormantRegistration;
    PublishersInTurn(p, rs, tick);
    RestoreAllPreserves(PublisherRestore(tick), t => PublishersWithin(limits, t), p, rs);
  }

  lemma RestoredWorkloadsWithin(o: Oracles, limits: ResourceLimits, w: W.Workloads, ws: seq<WorkloadRecord>,
                                cs: seq<WorkloadContract>)
    requires WorkloadsWithin(limits, w)
    ensures WorkloadsWithin(limits, RestoreAll(WorkloadRestore(), w, ws).0)
    ensures WorkloadsWithin(limits, RestoreAll(ContractRestore(o), RestoreAll(WorkloadRestore(), w, ws).0, cs).0)
  {
    hide RestoreAll, ContractDigest;
    RestoreAllPreserves(WorkloadRestore(), t => WorkloadsWithin(limits, t), w, ws);
    RestoreAllPreserves(ContractRestore(o), t => WorkloadsWithin(limits, t), RestoreAll(WorkloadRestore(), w, ws).0, cs);
  }

  lemma RestoredFlowsWithin(limits: ResourceLimits, f: F.Flows, rs: seq<FlowRecord>)
    requires FlowsWithin(limits, f)
    ensures FlowsWithin(limits, RestoreAll(FlowRestore(), f, rs).0)
  {
    hide RestoreAll, F.Trimmed;
    RestoreAllPreserves(FlowRestore(), t => FlowsWithin(limits, t), f, rs);
  }

  lemma RestoredEvidenceBound(o: Oracles, e: E.Evidence, rs: seq<EvidenceRecord>)
    ensures RestoreAll(EvidenceRestore(o), e, rs).0.maxRecords == e.maxRecords
  {
    hide RestoreAll, E.Indexed, E.StaledIf;
    RestoreAllPreserves(EvidenceRestore(o), (t: E.Evidence) => t.maxRecords == e.maxRecords, e, rs);
  }

  lemma RestoredWithin(o: Oracles, limits: ResourceLimits, start: State, img: DurableState, boot: nat, tick: Tick)
    requires BuiltUnder(limits, start) && Restore(o, start, img, boot, tick).1.Ok?
    ensures Within(limits, Restore(o, start, img, boot, tick).0)
  {
    hide Restore, P.RestoredRecords, RestoreAll, RestoreDecisions;
    RestoreParts(o, start, img, boot, tick);
    RestoredPublishersWithin(limits, start.publishers, img.publishers, tick);
    PublisherStepsKept(P.RestoredRecords(start.publishers, img.publishers, tick).0, "", 0, "", 0, 0, 0);
    RestoredWorkloadsWithin(o, limits, start.workloads, img.workloads, img.contracts);
    RestoredFlowsWithin(limits, start.flows, img.flows);
    RestoredEvidenceBound(o, start.evidence, img.evidence);
  }

  lemma StartedWithin(o: Oracles, policy: ClassifierPolicy, img: DurableState, boot: nat, tick: Tick)
    requires Start(o, policy, img, boot, tick).1.Ok?
    ensures Within(policy.limits, Start(o, policy, img, boot, tick).0)
  {
    hide Restore, SetPolicy, BuiltUnder, P.ClearedSessions;
    StartBegins(o, policy, img);
    var built := Initial(policy, 1, 1);
    var start := if img.policy.generation != 0 then SetPolicy(o, built, img.policy).0 else built;
    RestoredWithin(o, policy.limits, start, img, boot, tick);
    PublisherStepsKept(Restore(o, start, img, boot, tick).0.publishers, "", 0, "", 0, 0, 0);
  }

  lemma KeptWithin(limits: ResourceLimits, s: State, t: State)
    requires Within(limits, s) && Kept(s, t)
    ensures Within(limits, t)
  {
  }

  lemma {:induction false} LivesStayWithin(o: Oracles, life: Life)
    requires Valid(o, life)
    ensures Within(Configured(life), StateOf(o, life))
    decreases life
  {
    hide Apply, Start, ImageOf, Kept, Policy.Canonicalized;
    match life
    case Begin(_, _, _) =>
    case Step(before, call) =>
      LivesStayWithin(o, before);
      ApplyKept(o, StateOf(o, before), call);
      KeptWithin(Configured(life), StateOf(o, before), StateOf(o, life));
    case Reboot(before, policy, image, boot, tick) =>
      StartedWithin(o, policy, image, boot, tick);
  }

  /** The second limits are nowhere below the first in what a restart has to fit. */
  predicate NoNarrower(a: ResourceLimits, b: ResourceLimits) {
    && a.maxPublishers <= b.maxPublishers && a.maxWorkloads <= b.maxWorkloads && a.maxContracts <= b.maxContracts
    && a.maxFlows <= b.maxFlows && a.maxEvidenceRecords <= b.maxEvidenceRecords
  }

  lemma WithinHasRoom(o: Oracles, limits: ResourceLimits, wider: ResourceLimits, s: State)
    requires Within(limits, s) && Inv(o, s) && NoNarrower(limits, wider)
    ensures RoomFor(wider, s)
  {
    hide Inv, RecordsInvariant, TopicInvariant, Numbered, P.RegistryInvariant, F.FlowInvariant, W.ContractInvariant,
         D.MemoInvariant;
    PartsOf(o, s);
  }

  /**
   * At every point of every life a coordinator configured no narrower can start from the image,
   * unless a counter is exhausted or it has no boot identifier; the life then goes on from there.
   */
  lemma RestartsUnlessExhausted(o: Oracles, life: Life, s: State, policy: ClassifierPolicy, img: DurableState, boot: nat,
                                tick: Tick)
    requires DistinctIdentities(o) && Lived(o, life, s) && ImageOf(s, img) && NoNarrower(Configured(life), policy.limits)
    ensures Valid(o, Reboot(life, policy, img, boot, tick)) <==> boot != 0 && s.epoch < MAX_U64 && s.sequence < MAX_U64
  {
    hide Inv, ImageOf, Start, MemoBacked, StateOf, Within, RoomFor, DistinctIdentities, Policy.Canonicalized;
    LivesAreSound(o, life);
    LivesStayWithin(o, life);
    WithinHasRoom(o, Configured(life), policy.limits, s);
    StartsExactlyWhen(o, s, policy, img, boot, tick);
  }
}
