/**
 * The classifier as it runs: one object over the four registries and stores, each operation
 * proved to take the step that ClassifierState.dfy defines and to keep the invariant.
 */
module ClassifierObject {
  import opened Domain
  import opened Enumeration
  import opened DecisionEngine
  import opened ClassifierState
  import opened ClassifierInvariant
  import opened ClassifierSteps
  import opened ClassifierSubmission
  import opened ClassifierPublication
  import opened ClassifierMemo
  import DecisionDigest
  import DecisionMethod
  import Policy
  import E = EvidenceStore
  import P = PublisherRegistry
  import W = WorkloadRegistry
  import F = FlowRegistry
  import D = ClassificationIndex

  lemma StaledTwice(r: EvidenceRecord, done: set<string>, id: string, reason: string -> string)
    requires id !in done
    ensures var once := E.StaledIf(r.contract in done, r, reason(r.contract));
            var twice := E.StaledIf(r.contract in done + {id}, r, reason(r.contract));
            E.StaledIf(CitesContract(id)(once), once, reason(id)) == twice
  {
  }

  lemma StaleContractsGrows(e: E.Evidence, done: set<string>, id: string, reason: string -> string)
    requires id !in done
    ensures E.MarkStale(StaleContracts(e, done, reason), CitesContract(id), reason(id))
         == StaleContracts(e, done + {id}, reason)
  {
    hide E.StaledIf, CitesContract;
    var f := E.MarkStale(StaleContracts(e, done, reason), CitesContract(id), reason(id));
    var g := StaleContracts(e, done + {id}, reason);
    forall k | k in e.byId
      ensures f.byId[k] == g.byId[k]
    {
      StaledTwice(e.byId[k], done, id, reason);
    }
    assert f.byId == g.byId;
  }

  lemma StaleNothing(e: E.Evidence, reason: string -> string)
    ensures StaleContracts(e, {}, reason) == e
  {
    assert StaleContracts(e, {}, reason).byId == e.byId;
  }

  class Classifier {
    const o: Oracles
    const flows: F.Registry
    const publishers: P.Registry
    const workloads: W.Registry
    const evidence: E.Store
    const decisions: D.Index
    var policy: ClassifierPolicy
    var epoch: nat
    var boot: nat
    var sequence: nat
    var authoritySequence: nat

    ghost function State(): ClassifierState.State
      reads this, flows, publishers, workloads, evidence, decisions
    {
      ClassifierState.State(policy, flows.State(), publishers.State(), workloads.State(), evidence.State(), decisions.State(),
                            epoch, boot,
                  sequence, authoritySequence)
    }

    ghost predicate Valid()
      reads this, flows, publishers, workloads, evidence, decisions
    {
      DistinctIdentities(o) && Inv(o, State())
    }

    constructor (o: Oracles, options: ClassifierPolicy, epoch: nat, boot: nat)
      requires DistinctIdentities(o) && Policy.Canonicalized(options).Ok?
      ensures this.o == o && Valid()
      ensures State() == Initial(Policy.Canonicalized(options).value, epoch, boot)
      ensures fresh(flows) && fresh(publishers) && fresh(workloads) && fresh(evidence) && fresh(decisions)
    {
      var canonical := Policy.Canonicalized(options).value;
      this.o := o;
      flows := new F.Registry(canonical.limits);
      publishers := new P.Registry(canonical.limits);
      workloads := new W.Registry(canonical.limits);
      evidence := new E.Store(canonical.limits);
      decisions := new D.Index(canonical.limits);
      policy := canonical;
      this.epoch, this.boot, sequence, authoritySequence := epoch, boot, 0, 1;
      new;
      InitialInv(o, canonical, epoch, boot);
    }

    // ---- lifecycle and policy ---------------------------------------------

    method AdvanceEpoch(boot: nat) returns (r: Result<nat>)
      requires Valid()
      modifies this, publishers, evidence
      ensures Valid() && (State(), r) == ClassifierState.AdvanceEpoch(o, old(State()), boot)
    {
      hide Inv, Sound, DistinctIdentities, E.MarkEpochStale, P.ClearedSessions;
      ghost var s := State();
      AdvanceEpochKeepsInv(o, s, boot);
      SoundInv(o, s, ClassifierState.AdvanceEpoch(o, s, boot).0);
      if sequence >= MAX_U64 {
        return Err(CounterExhausted);
      }
      sequence := sequence + 1;
      if epoch >= MAX_U64 {
        return Err(CounterExhausted);
      }
      epoch := epoch + 1;
      this.boot := boot;
      publishers.ClearSessions();
      evidence.MarkEpochStaleRecords(o, epoch);
      authoritySequence := authoritySequence + 1;
      r := Ok(epoch);
    }

    method SetPolicy(next: ClassifierPolicy) returns (r: Result<nat>)
      requires Valid()
      modifies this, decisions
      ensures Valid() && (State(), r) == ClassifierState.SetPolicy(o, old(State()), next)
    {
      hide Inv, Sound, DistinctIdentities, Policy.Canonicalized;
      ghost var s := State();
      SetPolicyKeepsInv(o, s, next);
      SoundInv(o, s, ClassifierState.SetPolicy(o, s, next).0);
      var canonical := Policy.Canonicalize(next);
      if canonical.Err? {
        return Err(canonical.code);
      }
      if PolicyDigest(o, canonical.value) == PolicyDigest(o, policy) && policy.generation != 0 {
        return Ok(policy.generation);
      }
      if policy.generation >= MAX_U64 {
        return Err(CounterExhausted);
      }
      policy := canonical.value.(generation := policy.generation + 1);
      decisions.Clear();
      r := Ok(policy.generation);
    }

    // ---- publishers -------------------------------------------------------

    method RegisterPublisher(h: Hello, tick: Tick, wall: nat) returns (r: Result<PublisherRegistration>)
      requires Valid()
      modifies this, publishers
      ensures Valid() && (State(), r) == ClassifierState.RegisterPublisher(old(State()), h, tick, wall)
    {
      hide Inv, Sound, DistinctIdentities, P.Bound;
      ghost var s := State();
      RegisterPublisherKeepsInv(o, s, h, tick, wall);
      SoundInv(o, s, ClassifierState.RegisterPublisher(s, h, tick, wall).0);
      r := publishers.BindSession(P.Binding(h.id, h.boot, epoch, boot, h.maxSource, h.session, tick, wall, h.description));
      if r.Ok? {
        authoritySequence := authoritySequence + 1;
      }
    }

    method EndSession(id: string, boot: nat, session: string, tick: Tick) returns (r: Result<()>)
      requires Valid()
      modifies this, publishers, evidence
      ensures Valid() && (State(), r) == ClassifierState.EndSession(o, old(State()), id, boot, session, tick)
    {
      hide Inv, Sound, DistinctIdentities, P.Ended, E.MarkStale;
      ghost var s := State();
      EndSessionKeepsInv(o, s, id, boot, session, tick);
      SoundInv(o, s, ClassifierState.EndSession(o, s, id, boot, session, tick).0);
      r := publishers.EndSpecificSession(id, boot, session, tick);
      if r.Err? {
        return;
      }
      var live := id in publishers.live && publishers.live[id].liveSessions != [];
      if !live {
        evidence.MarkStaleByPredicate(OfIncarnation(id, boot), o.render(IncarnationEnded(id, boot)));
      } else if session != "" {
        evidence.MarkStaleByPredicate(OfSession(id, boot, session), o.render(SessionEnded(session, id, boot)));
      }
      authoritySequence := authoritySequence + 1;
      r := Ok(());
    }

    method Heartbeat(id: string, boot: nat, tick: Tick, wall: nat) returns (r: Result<()>)
      requires Valid()
      modifies this, publishers
      ensures Valid() && (State(), r) == ClassifierState.Heartbeat(old(State()), id, boot, tick, wall)
    {
      hide Inv, Sound, DistinctIdentities, P.Touched;
      ghost var s := State();
      HeartbeatKeepsInv(o, s, id, boot, tick, wall);
      SoundInv(o, s, ClassifierState.Heartbeat(s, id, boot, tick, wall).0);
      r := publishers.Touch(id, boot, tick, wall);
      if r.Ok? {
        authoritySequence := authoritySequence + 1;
      }
    }

    method ExpireLiveness(tick: Tick) returns (changed: nat)
      requires Valid()
      modifies this, publishers, evidence
      ensures Valid() && State() == ClassifierState.ExpireLiveness(o, old(State()), tick)
      ensures changed == |P.ExpiredIds(old(State()).publishers, tick)|
    {
      hide Inv, Sound, DistinctIdentities, P.Expire, P.ExpiredIds, E.MarkStale, Unattended;
      ghost var s := State();
      ExpireLivenessKeepsInv(o, s, tick);
      SoundInv(o, s, ClassifierState.ExpireLiveness(o, s, tick));
      changed := publishers.ExpireLiveness(tick);
      if changed != 0 {
        authoritySequence := authoritySequence + 1;
        var live := publishers.live;
        var p := P.Publishers(live, publishers.records, publishers.maxPublishers, publishers.idleTicks);
        evidence.MarkStaleByPredicate(Unattended(p), o.render(LivenessLost));
      }
    }

    // ---- workloads and contracts ------------------------------------------

    /** Stales the evidence citing each retired contract in turn. */
    method StaleRetired(retired: set<string>, reason: string -> string)
      modifies evidence
      ensures evidence.State() == StaleContracts(old(evidence.State()), retired, reason)
    {
      hide E.MarkStale, StaleContracts;
      StaleNothing(evidence.State(), reason);
      ghost var e := evidence.State();
      var todo := retired;
      ghost var done: set<string> := {};
      while todo != {}
        invariant todo !! done && todo + done == retired
        invariant evidence.State() == StaleContracts(e, done, reason)
        decreases |todo|
      {
        var id :| id in todo;
        evidence.MarkStaleByPredicate(CitesContract(id), reason(id));
        StaleContractsGrows(e, done, id, reason);
        todo := todo - {id};
        done := done + {id};
      }
      assert done == retired;
    }

    method DeclareWorkload(id: string, owner: string, generation: nat, tick: Tick, description: string)
      returns (r: Result<WorkloadRecord>)
      requires Valid()
      modifies workloads, evidence
      ensures Valid()
      ensures (State(), r) == ClassifierState.DeclareWorkload(o, old(State()), id, owner, generation, tick, description)
    {
      hide Inv, Sound, DistinctIdentities, W.Declared, W.RetiredByDeclaring, StaleContracts;
      ghost var s := State();
      DeclareWorkloadKeepsInv(o, s, id, owner, generation, tick, description);
      SoundInv(o, s, ClassifierState.DeclareWorkload(o, s, id, owner, generation, tick, description).0);
      var retired: set<string>;
      r, retired := workloads.DeclareWorkload(id, owner, generation, tick, description);
      if r.Ok? {
        StaleRetired(retired, AdvancedReason(o, id));
      }
    }

    method ProposeContract(c: WorkloadContract, tick: Tick) returns (r: Result<WorkloadContract>)
      requires Valid()
      modifies workloads
      ensures Valid() && (State(), r) == ClassifierState.ProposeContract(o, old(State()), c, tick)
    {
      hide Inv, Sound, DistinctIdentities, W.Proposed;
      ghost var s := State();
      ProposeContractKeepsInv(o, s, c, tick);
      SoundInv(o, s, ClassifierState.ProposeContract(o, s, c, tick).0);
      r := workloads.ProposeContract(o, c, tick);
    }

    method ActivateContract(id: string, caller: string, tick: Tick) returns (r: Result<WorkloadContract>)
      requires Valid()
      modifies workloads, evidence
      ensures Valid() && (State(), r) == ClassifierState.ActivateContract(o, old(State()), id, caller, tick)
    {
      hide Inv, Sound, DistinctIdentities, W.Activated, W.RetiredByActivating, StaleContracts, E.MarkStale,
           W.ContractInvariant, P.RegistryInvariant, F.FlowInvariant, D.MemoInvariant, E.IndexInvariant,
           RecordsInvariant, TopicInvariant, Numbered;
      ghost var s := State();
      PartsOf(o, s);
      ActivateContractKeepsInv(o, s, id, caller, tick);
      SoundInv(o, s, ClassifierState.ActivateContract(o, s, id, caller, tick).0);
      var retired: string;
      r, retired := workloads.ActivateContract(o, id, caller, tick);
      StaleNothing(evidence.State(), ReplacedReason(o, id));
      if r.Ok? && retired != "" {
        StaleContractsGrows(evidence.State(), {}, retired, ReplacedReason(o, id));
        evidence.MarkStaleByPredicate(CitesContract(retired), o.render(ContractReplaced(retired, id)));
        assert {} + {retired} == {retired};
      }
    }

    method RetireContract(id: string, caller: string, tick: Tick) returns (r: Result<()>)
      requires Valid()
      modifies workloads, evidence
      ensures Valid() && (State(), r) == ClassifierState.RetireContract(o, old(State()), id, caller, tick)
    {
      hide Inv, Sound, DistinctIdentities, W.ContractRetirement, E.MarkStale;
      ghost var s := State();
      RetireContractKeepsInv(o, s, id, caller, tick);
      SoundInv(o, s, ClassifierState.RetireContract(o, s, id, caller, tick).0);
      r := workloads.RetireContract(id, caller, tick);
      if r.Ok? {
        evidence.MarkStaleByPredicate(CitesContract(id), o.render(ContractRetiredPhrase(id)));
      }
    }

    method RetireWorkload(id: string, generation: nat, tick: Tick) returns (r: Result<()>)
      requires Valid()
      modifies workloads, evidence
      ensures Valid() && (State(), r) == ClassifierState.RetireWorkload(o, old(State()), id, generation, tick)
    {
      hide Inv, Sound, DistinctIdentities, W.WorkloadRetirement, E.MarkStale;
      ghost var s := State();
      RetireWorkloadKeepsInv(o, s, id, generation, tick);
      SoundInv(o, s, ClassifierState.RetireWorkload(o, s, id, generation, tick).0);
      r := workloads.RetireWorkload(id, generation, tick);
      if r.Ok? {
        evidence.MarkStaleByPredicate(CitesWorkload(id), o.render(WorkloadRetiredPhrase(id)));
      }
    }

    // ---- flows ------------------------------------------------------------

    method RegisterFlow(key: FlowKey, requested: nat, session: string, tick: Tick) returns (r: Result<FlowRegistration>)
      requires Valid()
      modifies flows, evidence, decisions
      ensures Valid() && (State(), r) == ClassifierState.RegisterFlow(o, old(State()), key, requested, session, tick)
    {
      hide Inv, Sound, DistinctIdentities, F.Registered, E.MarkStale, D.GenerationSuperseded, W.ContractInvariant,
           P.RegistryInvariant, F.FlowInvariant, D.MemoInvariant, E.IndexInvariant, RecordsInvariant, TopicInvariant,
           Numbered;
      ghost var s := State();
      PartsOf(o, s);
      RegisterFlowKeepsInv(o, s, key, requested, session, tick);
      SoundInv(o, s, ClassifierState.RegisterFlow(o, s, key, requested, session, tick).0);
      r := flows.RegisterFlow(o, key, requested, session, tick);
      if r.Err? {
        return;
      }
      var flow := r.value.record;
      if r.value.created {
        evidence.MarkStaleByPredicate(OnFlow(flow.id), o.render(FlowReplaced));
      }
      if r.value.fencedPrevious {
        evidence.MarkStaleByPredicate(OnEarlier(flow.id, flow.generation), o.render(FlowAdvanced(flow.generation)));
        decisions.SupersedeGeneration(flow.id, flow.generation);
      }
    }

    // ---- evidence ---------------------------------------------------------

    method CheckSession(env: SessionEnvelope) returns (fault: Option<ErrorCode>)
      ensures fault == SessionFault(State(), env)
    {
      if env.epoch != epoch {
        return Some(StaleEpoch);
      }
      if env.coordinatorBoot != boot {
        return Some(StaleBootId);
      }
      if env.publisherBoot == 0 {
        return Some(Unauthenticated);
      }
      if env.publisher !in publishers.live {
        return Some(UnknownPublisher);
      }
      if publishers.live[env.publisher].boot != env.publisherBoot {
        return Some(StaleBootId);
      }
      if publishers.live[env.publisher].session != env.session {
        return Some(Unauthenticated);
      }
      var live := publishers.IsLive(env.publisher, env.publisherBoot);
      if !live {
        return Some(DeadPublisher);
      }
      fault := None;
    }

    /** The weaker of the claim, the envelope's ceiling and the registration's. */
    method EffectiveSource(env: SessionEnvelope, claimed: EvidenceSource) returns (source: EvidenceSource)
      requires env.publisher in publishers.live
      ensures source == ClampSource(claimed, Ceiling(State(), env))
    {
      var registered := publishers.live[env.publisher].maxSource;
      var ceiling := if SourceRank(env.maxSource) < SourceRank(registered) then env.maxSource else registered;
      source := if SourceRank(claimed) <= SourceRank(ceiling) then claimed else ceiling;
    }

    method CheckSource(source: EvidenceSource, binding: nat) returns (fault: Option<ErrorCode>)
      ensures fault == SourceFault(policy, source, binding)
    {
      if source.Heuristic? {
        if !policy.allowHeuristicEvidence {
          return Some(HeuristicDisabled);
        }
        var enabled := Policy.FindEnabled(policy.heuristicAdapters);
        if !enabled {
          return Some(HeuristicDisabled);
        }
        var claim := Policy.ClaimOf(binding);
        var declared := Policy.FindPortHint(policy, claim.0, claim.1);
        if !declared {
          return Some(HeuristicDisabled);
        }
      } else if SourceRank(source) == 0 {
        return Some(Unauthorized);
      }
      fault := None;
    }

    method CheckBindings(publisher: string, p: EvidencePayload) returns (fault: Option<ErrorCode>)
      ensures var w := workloads.State();
              fault == if WorkloadFault(w, publisher, p).Some? then WorkloadFault(w, publisher, p)
                       else ContractFault(w, publisher, p)
    {
      if p.workload != "" {
        if p.workload !in workloads.workloads {
          return Some(UnknownWorkload);
        }
        var workload := workloads.workloads[p.workload];
        if workload.owner != publisher {
          return Some(Unauthorized);
        }
        if workload.generation != p.workloadGeneration {
          return Some(StaleGeneration);
        }
        if workload.state == WorkloadRetired {
          return Some(RetiredContract);
        }
      }
      if p.contract != "" {
        if p.contract !in workloads.contracts {
          return Some(UnknownContract);
        }
        var contract := workloads.contracts[p.contract];
        if contract.owner != publisher {
          return Some(Unauthorized);
        }
        if contract.state != ContractActive {
          return Some(RetiredContract);
        }
        if contract.workload != p.workload || contract.workloadGeneration != p.workloadGeneration {
          return Some(MismatchedContract);
        }
      }
      fault := None;
    }

    method CheckAdmission(env: SessionEnvelope, p: EvidencePayload) returns (fault: Option<ErrorCode>)
      ensures fault == AdmissionFault(State(), env, p)
    {
      hide SessionFault, SourceFault, WorkloadFault, ContractFault, Ceiling, ClampSource;
      fault := CheckSession(env);
      if fault.Some? {
        return;
      }
      AdmittedIsRegistered(State(), env);
      var source := EffectiveSource(env, p.claimedSource);
      fault := CheckSource(source, p.metadata.binding);
      if fault.Some? {
        return;
      }
      if p.semantic == UnknownClass {
        return Some(InvalidArgument);
      }
      fault := CheckBindings(env.publisher, p);
    }

    method MintRecord(env: SessionEnvelope, p: EvidencePayload, flow: FlowRecord, seqno: nat,
                      tick: Tick) returns (r: EvidenceRecord)
      requires env.publisher in publishers.live
      ensures r == Mint(o, State(), env, p, flow, seqno, tick)
    {
      var source := EffectiveSource(env, p.claimedSource);
      var window := if p.freshnessWindow != 0 then p.freshnessWindow else policy.defaultFreshnessWindow;
      var id := o.evidenceId(EvidenceIdentity(env.publisher, env.publisherBoot, p.metadata.topic, p.evidenceGeneration, flow.id,
                                              flow.generation));
      r := EvidenceRecord(id, env.publisher, env.publisherBoot, env.session, epoch, boot, p.workload, p.workloadGeneration,
                          p.contract, flow.id, flow.generation, p.evidenceGeneration, seqno, tick, tick + window, p.semantic,
                          source, EvidenceCurrent, SourceConfidence(source), p.metadata.(contract := p.contract), [], "");
      r := r.(contentDigest := EvidenceDigest(o, r));
    }

    /** Marks what `r` displaces among the identities and files each supersession. */
    method SupersedeOlder(r: EvidenceRecord, ids: seq<string>, tick: Tick) returns (last: Option<string>)
      modifies evidence, decisions
      ensures Displacement(evidence.State(), decisions.State(), last)
           == Displace(o, Displacement(old(evidence.State()), old(decisions.State()), None), r, ids, tick)
    {
      hide E.WithState, D.WithSupersession;
      last := None;
      ghost var x := Displacement(evidence.State(), decisions.State(), None);
      for i := 0 to |ids|
        invariant Displacement(evidence.State(), decisions.State(), last) == Displace(o, x, r, ids[..i], tick)
      {
        assert ids[..i + 1][..i] == ids[..i];
        var candidate := evidence.Find(ids[i]);
        if candidate.Ok? {
          var other := candidate.value;
          if other.publisher == r.publisher && other.publisherBoot == r.publisherBoot
             && other.metadata.topic == r.metadata.topic && other.generation < r.generation
          {
            var _ := evidence.SetState(other.id, EvidenceSuperseded, o.render(SupersededBy(r.id, r.generation)));
            decisions.RecordSupersession(SupersessionOf(r, other, tick));
            last := Some(other.id);
          }
        }
      }
      assert ids[..|ids|] == ids;
    }

    method PublishEvidence(env: SessionEnvelope, p: EvidencePayload, flow: FlowRegistration, tick: Tick, later: Tick, wall: nat)
      returns (r: Result<Submission>)
      requires env.publisher in publishers.live
      modifies this`sequence, evidence, decisions, publishers
      ensures (State(), r) == Publish(o, old(State()), env, p, flow, tick, later, wall)
    {
      hide Displace, E.Inserted, P.Touched, E.FlowRecords, Mint, E.IdsOf;
      if sequence >= MAX_U64 {
        return Err(CounterExhausted);
      }
      var record := MintRecord(env, p, flow.record, sequence + 1, tick);
      sequence := sequence + 1;
      var ids := evidence.EvidenceForFlow(record.flowId);
      var last := SupersedeOlder(record, ids, tick);
      var inserted := evidence.Insert(record);
      if inserted.Err? {
        return Err(inserted.code);
      }
      var _ := publishers.Touch(env.publisher, env.publisherBoot, later, wall);
      r := Ok(Submission(record, last, flow.fencedPrevious, if flow.fencedPrevious then flow.previousGeneration else 0));
    }

    method SubmitEvidence(env: SessionEnvelope, p: EvidencePayload, tick: Tick, later: Tick,
                          wall: nat) returns (r: Result<Submission>)
      requires Valid()
      modifies this`sequence, flows, publishers, evidence, decisions
      ensures Valid() && (State(), r) == ClassifierState.SubmitEvidence(o, old(State()), env, p, tick, later, wall)
    {
      hide Inv, Sound, DistinctIdentities, AdmissionFault, ClassifierState.RegisterFlow, Publish, P.Observed;
      ghost var s := State();
      SubmitEvidenceKeepsInv(o, s, env, p, tick, later, wall);
      SoundInv(o, s, ClassifierState.SubmitEvidence(o, s, env, p, tick, later, wall).0);
      SubmitUnfolds(o, s, env, p, tick, later, wall);
      var fault := CheckAdmission(env, p);
      if fault.Some? {
        return Err(fault.value);
      }
      var flow := RegisterFlow(p.flowKey, p.flowGeneration, env.session, tick);
      if flow.Err? {
        return Err(flow.code);
      }
      var observed := publishers.ObserveEvidenceGeneration(env.publisher, env.publisherBoot, p.evidenceGeneration);
      if observed.Err? {
        return Err(observed.code);
      }
      r := PublishEvidence(env, p, flow.value, tick, later, wall);
    }

    method WithdrawEvidence(env: SessionEnvelope, id: string, reason: string, tick: Tick) returns (r: Result<()>)
      requires Valid()
      modifies this`sequence, evidence, decisions
      ensures Valid() && (State(), r) == ClassifierState.WithdrawEvidence(o, old(State()), env, id, reason, tick)
    {
      hide Inv, Sound, DistinctIdentities, E.WithState, D.WithRevocation;
      ghost var s := State();
      WithdrawEvidenceKeepsInv(o, s, env, id, reason, tick);
      SoundInv(o, s, ClassifierState.WithdrawEvidence(o, s, env, id, reason, tick).0);
      if env.epoch != epoch {
        return Err(StaleEpoch);
      }
      var found := evidence.Find(id);
      if found.Err? {
        return Err(NotFound);
      }
      var record := found.value;
      if record.publisher != env.publisher || record.publisherBoot != env.publisherBoot {
        return Err(Unauthorized);
      }
      var applied := AppliedReason(o, reason, WithdrawnByPublisher);
      var _ := evidence.SetState(id, EvidenceSuperseded, applied);
      if sequence >= MAX_U64 {
        return Err(CounterExhausted);
      }
      sequence := sequence + 1;
      decisions.RecordRevocation(RevocationRecord(record.flowId, record.flowGeneration, id, env.session, env.publisher, epoch,
                                                  sequence, tick, applied));
      r := Ok(());
    }

    method RevokeGeneration(env: SessionEnvelope, flow: FlowId, generation: nat, reason: string, tick: Tick)
      returns (r: Result<()>)
      requires Valid()
      modifies this`sequence, decisions
      ensures Valid() && (State(), r) == ClassifierState.RevokeGeneration(o, old(State()), env, flow, generation, reason, tick)
    {
      hide Inv, Sound, DistinctIdentities, D.WithRevocation, F.HasGeneration;
      ghost var s := State();
      RevokeGenerationKeepsInv(o, s, env, flow, generation, reason, tick);
      SoundInv(o, s, ClassifierState.RevokeGeneration(o, s, env, flow, generation, reason, tick).0);
      if env.epoch != epoch {
        return Err(StaleEpoch);
      }
      var known := flows.FindGeneration(flow, generation);
      if !known {
        return Err(UnknownFlow);
      }
      if sequence >= MAX_U64 {
        return Err(CounterExhausted);
      }
      sequence := sequence + 1;
      decisions.RecordRevocation(RevocationRecord(flow, generation, "", env.session, env.publisher, epoch, sequence, tick,
                                                  AppliedReason(o, reason, RevokedByRequest)));
      r := Ok(());
    }

    // ---- classification ---------------------------------------------------

    method BuildAuthorityContext(tick: Tick) returns (a: AuthorityContext)
      requires Valid()
      ensures a == Authority(State(), tick)
    {
      hide Inv, DistinctIdentities, E.IndexInvariant, W.ContractInvariant, F.FlowInvariant, D.MemoInvariant,
           RecordsInvariant, TopicInvariant, Numbered;
      PartsOf(o, State());
      var table := publishers.live;
      var live: set<(string, nat)>, known: set<string>, todo := {}, {}, table.Keys;
      while todo != {}
        invariant todo <= table.Keys && known == table.Keys - todo
        invariant live == set id | id in table && id !in todo && table[id].state == PublisherLive :: (id, table[id].boot)
        decreases |todo|
      {
        var k :| k in todo;
        var registration := table[k];
        known := known + {registration.id};
        if registration.state == PublisherLive {
          live := live + {(registration.id, registration.boot)};
        }
        todo := todo - {k};
      }
      a := AuthorityContext(epoch, boot, tick, authoritySequence, live, known);
    }

    /** The records behind a flow's identities, in acceptance order. */
    method CollectEvidence(flow: FlowId) returns (records: seq<EvidenceRecord>)
      requires Valid()
      ensures records == E.FlowRecords(evidence.State(), flow)
    {
      hide Inv, DistinctIdentities, E.IndexInvariant, W.ContractInvariant, F.FlowInvariant, D.MemoInvariant,
           RecordsInvariant, TopicInvariant, Numbered, P.RegistryInvariant, E.FlowRecords;
      PartsOf(o, State());
      E.FlowReachesItsList(evidence.State(), flow);
      ghost var all := E.FlowRecords(evidence.State(), flow);
      var ids := evidence.EvidenceForFlow(flow);
      records := [];
      for i := 0 to |ids|
        invariant records == all[..i]
      {
        assert all[i] in all;
        var found := evidence.Find(ids[i]);
        if found.Ok? {
          records := records + [found.value];
        }
      }
      assert all[..|all|] == all;
    }

    method BuildQuestion(flow: FlowRecord, generation: nat, tick: Tick) returns (input: DecisionInput)
      requires Valid()
      ensures input == Question(State(), flow, generation, tick)
    {
      hide Inv, DistinctIdentities, E.IndexInvariant, F.FlowInvariant, D.MemoInvariant, RecordsInvariant,
           TopicInvariant, Numbered, P.RegistryInvariant, E.FlowRecords, Authority, D.IsRevoked, W.ActiveContracts;
      PartsOf(o, State());
      var authority := BuildAuthorityContext(tick);
      var contracts := workloads.ActiveContractList(o);
      var listed := SortedEntries(workloads.workloads, (w: WorkloadRecord) => w.id);
      var revoked := decisions.FindRevocation(flow.id, generation);
      var records := CollectEvidence(flow.id);
      input := DecisionInput(flow.(generation := generation), records, contracts, listed, authority, policy, revoked);
    }

    method Classify(q: Query, tick: Tick) returns (r: Result<Answer>)
      requires Valid()
      modifies decisions
      ensures Valid() && (State(), r) == ClassifierState.Classify(o, old(State()), q, tick)
    {
      hide Inv, DistinctIdentities, Question, Decision, D.Recorded, D.MemoStored, F.HasGeneration,
           DecisionDigest.EvidenceSetDigest, Evolves;
      ClassifyKeepsInv(o, State(), q, tick);
      if q.flowKey !in flows.current {
        return Err(UnknownFlow);
      }
      var flow := flows.current[q.flowKey];
      var generation := q.flowGeneration;
      var historical := false;
      if generation == 0 {
        if !q.acceptCurrent {
          return Err(InvalidArgument);
        }
        generation := flow.generation;
      } else if generation != flow.generation {
        var known := flows.FindGeneration(flow.id, generation);
        if !known {
          return Err(UnknownFlow);
        }
        historical := true;
      }
      var input := BuildQuestion(flow, generation, tick);
      var digest := DecisionDigest.ComputeEvidenceSetDigest(o, input);
      var key := D.DecisionKey(flow.id, generation, digest, policy.generation);
      QuestionFacts(State(), flow, generation, tick);
      var hit := decisions.MemoLookup(key);
      if hit.Some? {
        return Ok(Answer(hit.value, true, historical));
      }
      var c := DecisionMethod.Decide(o, input);
      decisions.MemoStore(key, c);
      decisions.Record(c);
      r := Ok(Answer(c, false, historical));
    }
  }

  lemma AdmittedIsRegistered(s: ClassifierState.State, env: SessionEnvelope)
    requires SessionFault(s, env).None?
    ensures env.publisher in s.publishers.live && P.HoldsSession(s.publishers, env.publisher, env.publisherBoot)
  {
  }

  /** The order in which a submission consults its parts. */
  lemma SubmitUnfolds(o: Oracles, s: ClassifierState.State, env: SessionEnvelope, p: EvidencePayload, tick: Tick, later: Tick,
                      wall: nat)
    ensures AdmissionFault(s, env, p).None? ==>
              var (s1, flow) := ClassifierState.RegisterFlow(o, s, p.flowKey, p.flowGeneration, env.session, tick);
              flow.Ok? ==>
                var (q, observed) := P.Observed(s1.publishers, env.publisher, env.publisherBoot, p.evidenceGeneration);
                observed.Ok? ==> env.publisher in q.live
  {
    hide F.Registered, Fence, SourceFault, WorkloadFault, ContractFault;
  }
}
