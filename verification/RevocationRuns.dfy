/**
 * How long a revoked generation stays revoked, over whole lives of a classifier.
 */
module RevocationRuns {
  import opened Domain
  import opened DecisionEngine
  import opened ClassifierState
  import opened ClassifierSteps
  import opened ClassifierPublication
  import opened ClassifierMemo
  import opened ClassifierRuns
  import opened Restart
  import opened RestartSafety
  import DecisionDigest
  import Policy
  import E = EvidenceStore
  import P = PublisherRegistry
  import W = WorkloadRegistry
  import F = FlowRegistry
  import D = ClassificationIndex

  // ---- the ring of one classifier -----------------------------------------

  ghost predicate RingFits(d: D.Decisions) {
    d.bounds.revocations > 0 ==> |d.revocations| <= d.bounds.revocations
  }

  /** The generation is revoked by a filing with at most `n` younger ones. */
  ghost predicate Held(d: D.Decisions, flow: FlowId, generation: nat, n: nat) {
    exists i | 0 <= i < |d.revocations| :: D.Revokes(d.revocations[i], flow, generation) && |d.revocations| - 1 - i <= n
  }

  ghost predicate JustFiled(d: D.Decisions, flow: FlowId, generation: nat) {
    Held(d, flow, generation, 0)
  }

  ghost predicate OneMore(d: D.Decisions, e: D.Decisions) {
    exists r :: e.revocations == D.Pushed(d.revocations, d.bounds.revocations, r)
  }

  lemma OneMoreKeepsHeld(d: D.Decisions, e: D.Decisions, flow: FlowId, generation: nat, n: nat)
    requires RingFits(d) && OneMore(d, e) && Held(d, flow, generation, n) && n + 1 < d.bounds.revocations
    ensures Held(e, flow, generation, n + 1)
  {
    var i :| 0 <= i < |d.revocations| && D.Revokes(d.revocations[i], flow, generation) && |d.revocations| - 1 - i <= n;
    var dropped := |d.revocations| + 1 - |e.revocations|;
    assert e.revocations[i - dropped] == d.revocations[i];
  }

  /** What a step other than installing a policy can do to the ring. */
  ghost predicate RingStep(d: D.Decisions, e: D.Decisions) {
    e.bounds == d.bounds && (e.revocations == d.revocations || OneMore(d, e))
  }

  lemma {:induction false} DisplaceRing(o: Oracles, x: Displacement, r: EvidenceRecord, ids: seq<string>, tick: Tick)
    ensures var d := Displace(o, x, r, ids, tick).decisions;
            d.revocations == x.decisions.revocations && d.bounds == x.decisions.bounds
    decreases |ids|
  {
    if ids != [] {
      DisplaceRing(o, x, r, ids[..|ids| - 1], tick);
    }
  }

  lemma PublishRing(o: Oracles, s: State, env: SessionEnvelope, p: EvidencePayload, flow: FlowRegistration, tick: Tick,
                    later: Tick, wall: nat)
    requires env.publisher in s.publishers.live
    ensures var d := Publish(o, s, env, p, flow, tick, later, wall).0.decisions;
            d.revocations == s.decisions.revocations && d.bounds == s.decisions.bounds
  {
    hide Displace, E.Inserted, P.Touched, E.FlowRecords, Mint, E.IdsOf;
    if s.sequence < MAX_U64 {
      var r := Mint(o, s, env, p, flow.record, s.sequence + 1, tick);
      DisplaceRing(o, Displacement(s.evidence, s.decisions, None), r, E.IdsOf(E.FlowRecords(s.evidence, r.flowId)), tick);
    }
  }

  lemma RegisterFlowRing(o: Oracles, s: State, key: FlowKey, requested: nat, session: string, tick: Tick)
    ensures var t := RegisterFlow(o, s, key, requested, session, tick).0;
            t.decisions.revocations == s.decisions.revocations && t.decisions.bounds == s.decisions.bounds
  {
    hide F.Registered, Fence;
  }

  lemma SubmitRing(o: Oracles, s: State, env: SessionEnvelope, p: EvidencePayload, tick: Tick, later: Tick, wall: nat)
    ensures RingStep(s.decisions, SubmitEvidence(o, s, env, p, tick, later, wall).0.decisions)
  {
    hide SubmitEvidence, Publish, RegisterFlow, P.Observed, OneMore;
    RegisterFlowRing(o, s, p.flowKey, p.flowGeneration, env.session, tick);
    SubmitCases(o, s, env, p, tick, later, wall);
    var (s1, flow) := RegisterFlow(o, s, p.flowKey, p.flowGeneration, env.session, tick);
    var s2 := Observing(s1, env.publisher, env.publisherBoot, p.evidenceGeneration);
    if flow.Ok? && env.publisher in s2.publishers.live {
      PublishRing(o, s2, env, p, flow.value, tick, later, wall);
    }
  }

  lemma RevokeRing(o: Oracles, s: State, env: SessionEnvelope, flow: FlowId, generation: nat, reason: string, tick: Tick)
    ensures var (t, r) := RevokeGeneration(o, s, env, flow, generation, reason, tick);
            RingStep(s.decisions, t.decisions) && (r.Ok? ==> JustFiled(t.decisions, flow, generation))
  {
    hide F.HasGeneration, AppliedReason;
    var (t, r) := RevokeGeneration(o, s, env, flow, generation, reason, tick);
    if r.Ok? {
      var ring := t.decisions.revocations;
      assert D.Revokes(ring[|ring| - 1], flow, generation);
    }
  }

  lemma WithdrawRing(o: Oracles, s: State, env: SessionEnvelope, id: string, reason: string, tick: Tick)
    ensures RingStep(s.decisions, WithdrawEvidence(o, s, env, id, reason, tick).0.decisions)
  {
    hide E.WithState, AppliedReason;
  }

  lemma ClassifyRing(o: Oracles, s: State, query: Query, tick: Tick)
    ensures RingStep(s.decisions, Classify(o, s, query, tick).0.decisions)
  {
    hide Classify, Answered, Question, Decision, KeyOf, D.MemoStored, Subject, OneMore;
    ClassifyCases(o, s, query, tick);
    if Subject(s, query).Ok? {
      var q := Question(s, s.flows.current[query.flowKey], Subject(s, query).value, tick);
      AnsweredCases(o, s, q);
      D.MemoStoredContents(s.decisions, KeyOf(o, q), Decision(o, q));
    }
  }

  lemma OtherRing(o: Oracles, s: State, c: Call)
    requires !c.op.OpSetPolicy? && !c.op.OpRegisterFlow? && !c.op.OpSubmitEvidence? && !c.op.OpWithdrawEvidence?
    requires !c.op.OpRevokeGeneration? && !c.op.OpClassify?
    ensures Apply(o, s, c).decisions == s.decisions
  {
    hide Classify, E.MarkEpochStale, P.ClearedSessions, P.Bound, P.Ended, P.Touched, P.Expire, P.ExpiredIds, Disowned,
         E.MarkStale, StaleContracts, W.Declared, W.Proposed, W.Activated, W.ContractRetirement, W.WorkloadRetirement,
         W.RetiredByDeclaring, W.RetiredByActivating, SubmitEvidence, WithdrawEvidence, RevokeGeneration, RegisterFlow,
         SetPolicy;
  }

  /** The call puts a policy in force. */
  ghost predicate Installs(o: Oracles, s: State, c: Call) {
    c.op.OpSetPolicy? && Apply(o, s, c) != s
  }

  /** The call files a revocation, of a generation or of one record. */
  ghost predicate Files(o: Oracles, s: State, c: Call) {
    Apply(o, s, c).decisions.revocations != s.decisions.revocations
  }

  lemma SetPolicyRing(o: Oracles, s: State, c: Call)
    requires c.op.OpSetPolicy?
    ensures Apply(o, s, c).decisions == if Installs(o, s, c) then D.Cleared(s.decisions) else s.decisions
  {
    hide SetPolicy, Classify, SubmitEvidence;
    SetPolicyCases(o, s, c.op.policy);
  }

  lemma ApplyRing(o: Oracles, s: State, c: Call)
    ensures Apply(o, s, c).decisions.bounds == s.decisions.bounds
    ensures !Installs(o, s, c) ==> RingStep(s.decisions, Apply(o, s, c).decisions)
    ensures Installs(o, s, c) ==> Apply(o, s, c).decisions.revocations == []
  {
    hide SetPolicy, RegisterFlow, SubmitEvidence, WithdrawEvidence, RevokeGeneration, Classify, AdvanceEpoch,
         RegisterPublisher, EndSession, Heartbeat, ExpireLiveness, DeclareWorkload, ProposeContract, ActivateContract,
         RetireContract, RetireWorkload, OneMore;
    match c.op
    case OpSetPolicy(_) => SetPolicyRing(o, s, c);
    case OpRegisterFlow(key, generation, session) => RegisterFlowRing(o, s, key, generation, session, c.tick);
    case OpSubmitEvidence(env, payload) => SubmitRing(o, s, env, payload, c.tick, c.later, c.wall);
    case OpWithdrawEvidence(env, id, reason) => WithdrawRing(o, s, env, id, reason, c.tick);
    case OpRevokeGeneration(env, flow, generation, reason) => RevokeRing(o, s, env, flow, generation, reason, c.tick);
    case OpClassify(query) => ClassifyRing(o, s, query, c.tick);
    case _ => OtherRing(o, s, c);
  }

  lemma StepFits(d: D.Decisions, e: D.Decisions)
    requires RingFits(d) && RingStep(d, e)
    ensures RingFits(e)
  {
  }

  // ---- the ring of a restarted classifier ---------------------------------

  lemma {:induction false} RestoredRing(d: D.Decisions, rs: seq<RevocationRecord>)
    ensures RestoreRevocations(d, rs)
         == d.(revocations := D.PushedAll(d.revocations, d.bounds.revocations, rs))
  {
    if rs != [] {
      RestoredRing(d, rs[..|rs| - 1]);
    }
  }

  lemma DecisionsRing(d: D.Decisions, img: DurableState)
    requires d.revocations == []
    ensures RestoreDecisions(d, img).bounds == d.bounds
    ensures d.bounds.revocations > 0 ==>
              RestoreDecisions(d, img).revocations == D.Youngest(img.revocations, d.bounds.revocations)
  {
    hide RestoreClassifications, RestoreRevocations, RestoreSupersessions, D.PushedAll, D.Youngest;
    var d1 := RestoreClassifications(d, img.classifications);
    ClassificationsFrame(d, img.classifications);
    RestoredRing(d1, img.revocations);
    SupersessionsFrame(RestoreRevocations(d1, img.revocations), img.supersessions);
    if d.bounds.revocations > 0 {
      D.RingIsYoungest([], d.bounds.revocations, img.revocations);
      assert [] + img.revocations == img.revocations;
    }
  }

  lemma StartRing(o: Oracles, policy: ClassifierPolicy, img: DurableState, boot: nat, tick: Tick)
    requires Start(o, policy, img, boot, tick).1.Ok?
    ensures var d := Start(o, policy, img, boot, tick).0.decisions;
            && d.bounds.revocations == policy.limits.maxRevocations
            && (d.bounds.revocations > 0 ==> d.revocations == D.Youngest(img.revocations, d.bounds.revocations))
  {
    hide Restore, AdvanceEpoch, SetPolicy, Advanced, RestoreDecisions, D.Youngest, P.RestoredRecords, RestoreAll,
         P.ClearedSessions;
    var built := Initial(policy, 1, 1);
    SetPolicyCases(o, built, img.policy);
    var start := if img.policy.generation != 0 then SetPolicy(o, built, img.policy).0 else built;
    RestoreParts(o, start, img, boot, tick);
    DecisionsRing(start.decisions, img);
    var t := Restore(o, start, img, boot, tick).0;
    AdvanceEpochCases(o, t, boot);
    AdvancedFrame(o, t, boot);
  }

  lemma YoungestKeepsHeld(d: D.Decisions, e: D.Decisions, flow: FlowId, generation: nat, n: nat)
    requires Held(d, flow, generation, n) && n < e.bounds.revocations
    requires e.revocations == D.Youngest(d.revocations, e.bounds.revocations)
    ensures Held(e, flow, generation, n)
  {
    var i :| 0 <= i < |d.revocations| && D.Revokes(d.revocations[i], flow, generation) && |d.revocations| - 1 - i <= n;
    assert e.revocations[i - (|d.revocations| - |e.revocations|)] == d.revocations[i];
  }

  // ---- over a life --------------------------------------------------------

  /**
   * `b` continues `a`, installing no policy; at most `n` revocations were filed on the way, and
   * never as many as the running process keeps.
   */
  ghost predicate Spares(o: Oracles, a: Life, b: Life, n: nat)
    decreases b
  {
    && n < Configured(b).maxRevocations
    && (a == b
        || match b
           case Begin(_, _, _) => false
           case Step(before, call) =>
             && !Installs(o, StateOf(o, before), call)
             && if Files(o, StateOf(o, before), call) then n > 0 && Spares(o, a, before, n - 1) else Spares(o, a, before, n)
           case Reboot(before, _, _, _, _) => Spares(o, a, before, n))
  }

  lemma {:induction false} RingsFit(o: Oracles, life: Life)
    requires Valid(o, life)
    ensures RingFits(StateOf(o, life).decisions) && StateOf(o, life).decisions.bounds.revocations == Configured(life).maxRevocations
    decreases life
  {
    hide Apply, Start, ImageOf, RingStep, Installs, Policy.Canonicalized;
    match life
    case Begin(_, _, _) =>
    case Step(before, call) =>
      RingsFit(o, before);
      ApplyRing(o, StateOf(o, before), call);
      if !Installs(o, StateOf(o, before), call) {
        StepFits(StateOf(o, before).decisions, StateOf(o, life).decisions);
      }
    case Reboot(before, policy, image, boot, tick) =>
      StartRing(o, policy, image, boot, tick);
  }

  lemma HeldLonger(d: D.Decisions, flow: FlowId, generation: nat, n: nat, m: nat)
    requires Held(d, flow, generation, n) && n <= m
    ensures Held(d, flow, generation, m)
  {
  }

  lemma FilesOne(o: Oracles, s: State, c: Call)
    requires RingStep(s.decisions, Apply(o, s, c).decisions) && Files(o, s, c)
    ensures OneMore(s.decisions, Apply(o, s, c).decisions)
  {
    hide Apply, OneMore;
  }

  lemma SameRing(o: Oracles, s: State, c: Call, flow: FlowId, generation: nat, n: nat)
    requires !Files(o, s, c) && Held(s.decisions, flow, generation, n)
    ensures Held(Apply(o, s, c).decisions, flow, generation, n)
  {
    hide Apply;
  }

  lemma {:induction false} HeldOn(o: Oracles, a: Life, b: Life, flow: FlowId, generation: nat, n: nat)
    requires Valid(o, b) && Spares(o, a, b, n) && JustFiled(StateOf(o, a).decisions, flow, generation)
    ensures Held(StateOf(o, b).decisions, flow, generation, n)
    decreases b
  {
    hide Apply, Start, Installs, Files, RingFits, OneMore, D.Youngest, D.Revokes, Policy.Canonicalized, Gathers, Lists;
    if a == b {
      HeldLonger(StateOf(o, a).decisions, flow, generation, 0, n);
    } else {
      RingsFit(o, b);
      RingsFit(o, b.before);
      var s, t := StateOf(o, b.before), StateOf(o, b);
      if b.Step? {
        ApplyRing(o, s, b.call);
        if Files(o, s, b.call) {
          HeldOn(o, a, b.before, flow, generation, n - 1);
          FilesOne(o, s, b.call);
          OneMoreKeepsHeld(s.decisions, t.decisions, flow, generation, n - 1);
        } else {
          HeldOn(o, a, b.before, flow, generation, n);
          SameRing(o, s, b.call, flow, generation, n);
        }
      } else {
        HeldOn(o, a, b.before, flow, generation, n);
        StartRing(o, b.policy, b.image, b.boot, b.tick);
        YoungestKeepsHeld(s.decisions, t.decisions, flow, generation, n);
      }
    }
  }

  lemma HeldIsDecided(o: Oracles, t: State, flow: FlowId, generation: nat, n: nat, record: FlowRecord, now: Tick)
    requires Held(t.decisions, flow, generation, n) && record.id == flow
    ensures Decision(o, Question(t, record, generation, now)).state == Revoked
  {
    hide Decision, E.FlowRecords, W.ActiveContracts, Authority;
    DecisionDigest.RevokedState(o, Question(t, record, generation, now));
  }

  lemma RevokedStep(o: Oracles, a: Life, s: State, env: SessionEnvelope, flow: FlowId, generation: nat, reason: string,
                    tick: Tick,
                    later: Tick, wall: nat)
    requires Lived(o, a, s) && RevokeGeneration(o, s, env, flow, generation, reason, tick).1.Ok?
    ensures var call := Call(OpRevokeGeneration(env, flow, generation, reason), tick, later, wall);
            JustFiled(StateOf(o, Step(a, call)).decisions, flow, generation)
  {
    hide RevokeGeneration, Held, Valid, SubmitEvidence, Classify, SetPolicy;
    RevokeRing(o, s, env, flow, generation, reason, tick);
  }

  /**
   * A revoked generation is decided REVOKED at every later point of a life, restarts included,
   * until as many revocations followed as the running process keeps or a policy is installed.
   */
  lemma RevocationOutlivesRestarts(o: Oracles, a: Life, s: State, b: Life, t: State, n: nat, env: SessionEnvelope, flow: FlowId,
                                   generation: nat, reason: string, tick: Tick, later: Tick, wall: nat, record: FlowRecord,
                                   now: Tick)
    requires Lived(o, a, s) && RevokeGeneration(o, s, env, flow, generation, reason, tick).1.Ok?
    requires Lived(o, b, t)
    requires Spares(o, Step(a, Call(OpRevokeGeneration(env, flow, generation, reason), tick, later, wall)), b, n)
    ensures D.IsRevoked(t.decisions, flow, generation)
    ensures record.id == flow ==> Decision(o, Question(t, record, generation, now)).state == Revoked
  {
    hide StateOf, Valid, Spares, RevokeGeneration, Decision, Question;
    RevokedStep(o, a, s, env, flow, generation, reason, tick, later, wall);
    HeldOn(o, Step(a, Call(OpRevokeGeneration(env, flow, generation, reason), tick, later, wall)), b, flow, generation, n);
    if record.id == flow {
      HeldIsDecided(o, t, flow, generation, n, record, now);
    }
  }
}
