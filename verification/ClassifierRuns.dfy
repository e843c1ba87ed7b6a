/**
 * Whole lives of a classifier: any sequence of operations under a clock that never falls,
 * interrupted by any number of restarts from the durable image.
 */
module ClassifierRuns {
  import opened Domain
  import Policy
  import opened ClassifierState
  import opened ClassifierInvariant
  import opened ClassifierSteps
  import opened ClassifierSubmission
  import opened ClassifierPublication
  import opened ClassifierMemo
  import opened Restart
  import opened RestartSafety
  import P = PublisherRegistry

  datatype Op =
    | OpAdvanceEpoch(boot: nat)
    | OpSetPolicy(policy: ClassifierPolicy)
    | OpRegisterPublisher(hello: Hello)
    | OpEndSession(publisher: string, publisherBoot: nat, session: string)
    | OpHeartbeat(publisher: string, publisherBoot: nat)
    | OpExpireLiveness
    | OpDeclareWorkload(workload: string, owner: string, generation: nat, description: string)
    | OpProposeContract(proposal: WorkloadContract)
    | OpActivateContract(contract: string, caller: string)
    | OpRetireContract(contract: string, caller: string)
    | OpRetireWorkload(workload: string, generation: nat)
    | OpRegisterFlow(key: FlowKey, generation: nat, session: string)
    | OpSubmitEvidence(envelope: SessionEnvelope, payload: EvidencePayload)
    | OpWithdrawEvidence(envelope: SessionEnvelope, evidence: string, reason: string)
    | OpRevokeGeneration(envelope: SessionEnvelope, flow: FlowId, generation: nat, reason: string)
    | OpClassify(query: Query)

  /** An operation with the clock readings it makes. */
  datatype Call = Call(op: Op, tick: Tick, later: Tick, wall: nat)

  ghost function Apply(o: Oracles, s: State, c: Call): State {
    match c.op
    case OpAdvanceEpoch(boot) => AdvanceEpoch(o, s, boot).0
    case OpSetPolicy(policy) => SetPolicy(o, s, policy).0
    case OpRegisterPublisher(hello) => RegisterPublisher(s, hello, c.tick, c.wall).0
    case OpEndSession(id, boot, session) => EndSession(o, s, id, boot, session, c.tick).0
    case OpHeartbeat(id, boot) => Heartbeat(s, id, boot, c.tick, c.wall).0
    case OpExpireLiveness => ExpireLiveness(o, s, c.tick)
    case OpDeclareWorkload(id, owner, generation, description) =>
      DeclareWorkload(o, s, id, owner, generation, c.tick, description).0
    case OpProposeContract(contract) => ProposeContract(o, s, contract, c.tick).0
    case OpActivateContract(id, caller) => ActivateContract(o, s, id, caller, c.tick).0
    case OpRetireContract(id, caller) => RetireContract(o, s, id, caller, c.tick).0
    case OpRetireWorkload(id, generation) => RetireWorkload(o, s, id, generation, c.tick).0
    case OpRegisterFlow(key, generation, session) => RegisterFlow(o, s, key, generation, session, c.tick).0
    case OpSubmitEvidence(env, payload) => SubmitEvidence(o, s, env, payload, c.tick, c.later, c.wall).0
    case OpWithdrawEvidence(env, id, reason) => WithdrawEvidence(o, s, env, id, reason, c.tick).0
    case OpRevokeGeneration(env, flow, generation, reason) => RevokeGeneration(o, s, env, flow, generation, reason, c.tick).0
    case OpClassify(query) => Classify(o, s, query, c.tick).0
  }

  datatype Life =
    | Begin(policy: ClassifierPolicy, epoch: nat, boot: nat)
    | Step(before: Life, call: Call)
    | Reboot(before: Life, policy: ClassifierPolicy, image: DurableState, boot: nat, tick: Tick)

  ghost function StateOf(o: Oracles, life: Life): State {
    match life
    case Begin(policy, epoch, boot) => Initial(policy, epoch, boot)
    case Step(before, call) => Apply(o, StateOf(o, before), call)
    case Reboot(before, policy, image, boot, tick) => Start(o, policy, image, boot, tick).0
  }

  /** The last clock reading of the running process. */
  function Clock(life: Life): Tick {
    match life
    case Begin(_, _, _) => 0
    case Step(_, call) => call.later
    case Reboot(_, _, _, _, tick) => tick
  }

  /** The limits the running process was configured with. */
  function Configured(life: Life): ResourceLimits {
    match life
    case Begin(policy, _, _) => policy.limits
    case Step(before, _) => Configured(before)
    case Reboot(_, policy, _, _, _) => policy.limits
  }

  ghost predicate Valid(o: Oracles, life: Life) {
    match life
    case Begin(policy, _, _) => Policy.Canonicalized(policy) == Ok(policy)
    case Step(before, call) => Valid(o, before) && Clock(before) <= call.tick <= call.later
    case Reboot(before, policy, image, boot, tick) =>
      && Valid(o, before)
      && ImageOf(StateOf(o, before), image)
      && Start(o, policy, image, boot, tick).1.Ok?
  }

  /** The life is possible and ends in this state. */
  ghost predicate Lived(o: Oracles, life: Life, s: State) {
    Valid(o, life) && StateOf(o, life) == s
  }

  lemma LivedStep(o: Oracles, life: Life, s: State, call: Call)
    requires Lived(o, life, s) && Clock(life) <= call.tick <= call.later
    ensures Lived(o, Step(life, call), Apply(o, s, call))
  {
    hide Apply, Start, ImageOf;
  }

  /** `b` continues `a`. */
  predicate After(a: Life, b: Life) {
    a == b || (!b.Begin? && After(a, b.before))
  }

  /** No restart separates the two. */
  predicate SameProcess(a: Life, b: Life) {
    a == b || (b.Step? && SameProcess(a, b.before))
  }

  // ---- every life is sound ------------------------------------------------

  lemma ApplyIsSound(o: Oracles, s: State, c: Call)
    requires DistinctIdentities(o) && Inv(o, s) && !c.op.OpClassify?
    ensures Sound(o, s, Apply(o, s, c))
  {
    hide Inv, Sound, DistinctIdentities, AdvanceEpoch, SetPolicy, RegisterPublisher, EndSession, Heartbeat,
         ExpireLiveness, DeclareWorkload, ProposeContract, ActivateContract, RetireContract, RetireWorkload,
         RegisterFlow, SubmitEvidence, WithdrawEvidence, RevokeGeneration, Classify;
    match c.op
    case OpAdvanceEpoch(boot) => AdvanceEpochKeepsInv(o, s, boot);
    case OpSetPolicy(policy) => SetPolicyKeepsInv(o, s, policy);
    case OpRegisterPublisher(hello) => RegisterPublisherKeepsInv(o, s, hello, c.tick, c.wall);
    case OpEndSession(id, boot, session) => EndSessionKeepsInv(o, s, id, boot, session, c.tick);
    case OpHeartbeat(id, boot) => HeartbeatKeepsInv(o, s, id, boot, c.tick, c.wall);
    case OpExpireLiveness => ExpireLivenessKeepsInv(o, s, c.tick);
    case OpDeclareWorkload(id, owner, generation, description) =>
      DeclareWorkloadKeepsInv(o, s, id, owner, generation, c.tick, description);
    case OpProposeContract(contract) => ProposeContractKeepsInv(o, s, contract, c.tick);
    case OpActivateContract(id, caller) => ActivateContractKeepsInv(o, s, id, caller, c.tick);
    case OpRetireContract(id, caller) => RetireContractKeepsInv(o, s, id, caller, c.tick);
    case OpRetireWorkload(id, generation) => RetireWorkloadKeepsInv(o, s, id, generation, c.tick);
    case OpRegisterFlow(key, generation, session) => RegisterFlowKeepsInv(o, s, key, generation, session, c.tick);
    case OpSubmitEvidence(env, payload) => SubmitEvidenceKeepsInv(o, s, env, payload, c.tick, c.later, c.wall);
    case OpWithdrawEvidence(env, id, reason) => WithdrawEvidenceKeepsInv(o, s, env, id, reason, c.tick);
    case OpRevokeGeneration(env, flow, generation, reason) =>
      RevokeGenerationKeepsInv(o, s, env, flow, generation, reason, c.tick);
  }

  lemma ApplyClassify(o: Oracles, s: State, c: Call, query: Query)
    requires c.op == OpClassify(query)
    ensures Apply(o, s, c) == Classify(o, s, query, c.tick).0
  {
    hide Classify;
  }

  lemma SoundMoves(o: Oracles, s: State, t: State)
    requires Sound(o, s, t)
    ensures Evolves(o, s, t) && MemoShrinks(s, t)
  {
  }

  lemma DistinctParts(o: Oracles)
    requires DistinctIdentities(o)
    ensures DistinctEvidenceIds(o) && DistinctFlowIds(o)
  {
  }

  lemma ApplyKeeps(o: Oracles, s: State, c: Call)
    requires DistinctIdentities(o) && Inv(o, s)
    ensures Inv(o, Apply(o, s, c)) && Evolves(o, s, Apply(o, s, c))
    ensures MemoBacked(o, s) ==> MemoBacked(o, Apply(o, s, c))
  {
    hide *;
    if c.op.OpClassify? {
      ApplyClassify(o, s, c, c.op.query);
      ClassifyKeepsInv(o, s, c.op.query, c.tick);
      if MemoBacked(o, s) {
        ClassifyKeepsMemo(o, s, c.op.query, c.tick);
      }
    } else {
      DistinctParts(o);
      ApplyIsSound(o, s, c);
      SoundInv(o, s, Apply(o, s, c));
      SoundMoves(o, s, Apply(o, s, c));
      if MemoBacked(o, s) {
        MemoCarries(o, s, Apply(o, s, c));
      }
    }
  }

  lemma EmptyMemoBacked(o: Oracles, s: State)
    requires s.decisions.memo == map[]
    ensures MemoBacked(o, s)
  {
    hide Backs;
  }

  /** Every state of every life satisfies the invariant, and every memo entry is backed. */
  lemma {:induction false} LivesAreSound(o: Oracles, life: Life)
    requires DistinctIdentities(o) && Valid(o, life)
    ensures Inv(o, StateOf(o, life)) && MemoBacked(o, StateOf(o, life))
    decreases life
  {
    hide Inv, MemoBacked, Apply, Start, ImageOf, DistinctIdentities, Policy.Canonicalized, Evolves, DurableForward,
         OnlyOldRecords, AllBefore, P.LiveIncarnations;
    match life
    case Begin(policy, epoch, boot) =>
      InitialInv(o, policy, epoch, boot);
      EmptyMemoBacked(o, StateOf(o, life));
    case Step(before, call) =>
      LivesAreSound(o, before);
      ApplyKeeps(o, StateOf(o, before), call);
    case Reboot(before, policy, image, boot, tick) =>
      LivesAreSound(o, before);
      RestartIsSafe(o, StateOf(o, before), policy, image, boot, tick);
      EmptyMemoBacked(o, StateOf(o, life));
  }

  lemma EvolvesDurably(o: Oracles, s: State, t: State)
    requires Evolves(o, s, t)
    ensures DurableForward(s, t)
  {
  }

  lemma RestartedDurably(s: State, t: State)
    requires RestartedFrom(s, t)
    ensures DurableForward(s, t)
  {
  }

  lemma DurableForwardRefl(s: State)
    ensures DurableForward(s, s)
  {
  }

  /** Epochs, sequence numbers, publisher marks, flow generations and contracts never move back. */
  lemma {:induction false} LivesMoveForward(o: Oracles, a: Life, b: Life)
    requires DistinctIdentities(o) && Valid(o, b) && After(a, b)
    ensures Valid(o, a) && DurableForward(StateOf(o, a), StateOf(o, b))
    decreases b
  {
    hide Inv, Apply, Start, ImageOf, DistinctIdentities, Policy.Canonicalized, Evolves, DurableForward, RestartedFrom,
         MemoBacked;
    if a == b {
      DurableForwardRefl(StateOf(o, a));
    } else {
      var s, t := StateOf(o, b.before), StateOf(o, b);
      LivesMoveForward(o, a, b.before);
      LivesAreSound(o, b.before);
      if b.Step? {
        ApplyKeeps(o, s, b.call);
        EvolvesDurably(o, s, t);
      } else {
        RestartIsSafe(o, s, b.policy, b.image, b.boot, b.tick);
        RestartedDurably(s, t);
      }
      DurableForwardTransitive(StateOf(o, a), s, t);
    }
  }
}
