/**
 * Each step of the classifier keeps the invariant and evolves the state; submissions are in
 * ClassifierSubmission.dfy.
 */
module ClassifierSteps {
  import opened Domain
  import opened ClassifierState
  import opened ClassifierInvariant
  import E = EvidenceStore
  import P = PublisherRegistry
  import W = WorkloadRegistry
  import F = FlowRegistry
  import D = ClassificationIndex

  /** What is asked of the hash-derived identities in the results about runs. */
  ghost predicate DistinctIdentities(o: Oracles) {
    DistinctFlowIds(o) && DistinctEvidenceIds(o)
  }

  lemma InitialInv(o: Oracles, policy: ClassifierPolicy, epoch: nat, boot: nat)
    ensures Inv(o, Initial(policy, epoch, boot))
  {
  }

  /** Inv, Evolves and a memo that has only lost entries. */
  ghost predicate Sound(o: Oracles, s: State, t: State) {
    Inv(o, t) && Evolves(o, s, t) && MemoShrinks(s, t)
  }

  lemma SoundInv(o: Oracles, s: State, t: State)
    requires Sound(o, s, t)
    ensures Inv(o, t)
  {
  }

  lemma PartsOf(o: Oracles, s: State)
    requires Inv(o, s)
    ensures P.RegistryInvariant(s.publishers) && W.ContractInvariant(o, s.workloads) && F.FlowInvariant(o, s.flows)
    ensures D.MemoInvariant(s.decisions) && RecordsInvariant(o, s)
    ensures E.IndexInvariant(s.evidence) && TopicInvariant(s.evidence) && Numbered(s)
  {
  }

  lemma StayKeepsInv(o: Oracles, s: State)
    requires DistinctIdentities(o) && Inv(o, s)
    ensures Sound(o, s, s)
  {
    RelabelledRefl(s.evidence);
    GroundsUnchanged(o, s, s);
    QuietStepKeepsInv(o, s, s);
  }

  // ---- lifecycle and policy -----------------------------------------------

  ghost predicate NoneCurrent(e: E.Evidence) {
    forall id | id in e.byId :: e.byId[id].state != EvidenceCurrent
  }

  ghost predicate AllBefore(e: E.Evidence, epoch: nat) {
    forall id | id in e.byId :: e.byId[id].acceptedEpoch < epoch
  }

  /** After the epoch has advanced no stored record is CURRENT, and every one is of an older epoch. */
  lemma NoneCurrentAfterAdvance(o: Oracles, s: State, boot: nat)
    requires RecordsInvariant(o, s)
    ensures NoneCurrent(Advanced(o, s, boot).evidence)
    ensures AllBefore(Advanced(o, s, boot).evidence, Advanced(o, s, boot).epoch)
  {
    var e := Advanced(o, s, boot).evidence;
    forall id | id in e.byId
      ensures e.byId[id].state != EvidenceCurrent && e.byId[id].acceptedEpoch <= s.epoch
    {
      assert RecordInvariant(o, s, s.evidence.byId[id]);
    }
  }

  lemma AdvancedMoves(o: Oracles, s: State, boot: nat)
    requires P.RegistryInvariant(s.publishers)
    ensures MovesForward(s, Advanced(o, s, boot))
    ensures P.RegistryInvariant(Advanced(o, s, boot).publishers)
  {
    P.ClearedKeepsInvariant(s.publishers);
  }

  lemma DormantStepKeepsInv(o: Oracles, s: State, t: State)
    requires DistinctIdentities(o) && Inv(o, s)
    requires t.workloads == s.workloads && t.flows == s.flows && t.decisions == s.decisions && t.policy == s.policy
    requires MovesForward(s, t) && P.RegistryInvariant(t.publishers)
    requires Relabelled(s.evidence, t.evidence) && NoneCurrent(t.evidence)
    ensures Sound(o, s, t)
  {
    QuietStepKeepsInv(o, s, t);
  }

  lemma AdvancedFrame(o: Oracles, s: State, boot: nat)
    ensures var t := Advanced(o, s, boot);
            && t.workloads == s.workloads && t.flows == s.flows && t.decisions == s.decisions && t.policy == s.policy
            && Relabelled(s.evidence, t.evidence)
  {
    MarkEpochStaleRelabels(o, s.evidence, s.epoch + 1);
  }

  lemma AdvancedKeepsInv(o: Oracles, s: State, boot: nat)
    requires DistinctIdentities(o) && Inv(o, s)
    ensures Sound(o, s, Advanced(o, s, boot))
  {
    hide *;
    PartsOf(o, s);
    AdvancedFrame(o, s, boot);
    AdvancedMoves(o, s, boot);
    NoneCurrentAfterAdvance(o, s, boot);
    DormantStepKeepsInv(o, s, Advanced(o, s, boot));
  }

  lemma AdvanceEpochCases(o: Oracles, s: State, boot: nat)
    ensures AdvanceEpoch(o, s, boot).0 in [s, s.(sequence := s.sequence + 1), Advanced(o, s, boot)]
    ensures AdvanceEpoch(o, s, boot).1.Ok? ==> AdvanceEpoch(o, s, boot).0 == Advanced(o, s, boot)
  {
  }

  lemma AdvanceEpochKeepsInv(o: Oracles, s: State, boot: nat)
    requires DistinctIdentities(o) && Inv(o, s)
    ensures Sound(o, s, AdvanceEpoch(o, s, boot).0)
  {
    hide *;
    AdvanceEpochCases(o, s, boot);
    StayKeepsInv(o, s);
    AdvancedKeepsInv(o, s, boot);
    TickKeepsInv(o, s);
  }

  lemma TickKeepsInv(o: Oracles, s: State)
    requires DistinctIdentities(o) && Inv(o, s)
    ensures Sound(o, s, s.(sequence := s.sequence + 1))
  {
    DecisionStepKeepsInv(o, s, s.(sequence := s.sequence + 1));
  }

  /** Steps that leave the stores alone but for the index, and do not add to the memo. */
  lemma DecisionStepKeepsInv(o: Oracles, s: State, t: State)
    requires DistinctIdentities(o) && Inv(o, s)
    requires t == s.(policy := t.policy, decisions := t.decisions, sequence := t.sequence)
    requires s.sequence <= t.sequence && MemoShrinks(s, t) && RingsNumbered(t)
    ensures Sound(o, s, t)
  {
    RelabelledRefl(s.evidence);
    GroundsUnchanged(o, s, t);
    QuietStepKeepsInv(o, s, t);
  }

  lemma InstalledKeepsInv(o: Oracles, s: State, next: ClassifierPolicy)
    requires DistinctIdentities(o) && Inv(o, s)
    ensures Sound(o, s, Installed(s, next))
  {
    DecisionStepKeepsInv(o, s, Installed(s, next));
  }

  lemma SetPolicyCases(o: Oracles, s: State, policy: ClassifierPolicy)
    ensures SetPolicy(o, s, policy).0 == s || exists next :: SetPolicy(o, s, policy).0 == Installed(s, next)
  {
  }

  lemma SetPolicyKeepsInv(o: Oracles, s: State, policy: ClassifierPolicy)
    requires DistinctIdentities(o) && Inv(o, s)
    ensures Sound(o, s, SetPolicy(o, s, policy).0)
  {
    hide *;
    SetPolicyCases(o, s, policy);
    if SetPolicy(o, s, policy).0 == s {
      StayKeepsInv(o, s);
    } else {
      var next :| SetPolicy(o, s, policy).0 == Installed(s, next);
      InstalledKeepsInv(o, s, next);
    }
  }

  // ---- publishers ---------------------------------------------------------

  /** Records that are CURRENT and were attended still are. */
  ghost predicate AttendanceKept(e: E.Evidence, p: P.Publishers, q: P.Publishers) {
    forall id | id in e.byId && e.byId[id].state == EvidenceCurrent && Attended(p, e.byId[id]) :: Attended(q, e.byId[id])
  }

  lemma GroundsByAttendance(o: Oracles, s: State, t: State)
    requires RecordsInvariant(o, s) && Relabelled(s.evidence, t.evidence)
    requires t.epoch == s.epoch && t.flows == s.flows && AttendanceKept(t.evidence, s.publishers, t.publishers)
    ensures GroundsKept(t)
  {
    forall id | id in t.evidence.byId && t.evidence.byId[id].state == EvidenceCurrent
      ensures Grounded(t, t.evidence.byId[id])
    {
      CurrentIsUntouched(s.evidence.byId[id], t.evidence.byId[id]);
      assert RecordInvariant(o, s, s.evidence.byId[id]);
    }
  }

  /** Boots do not fall, and a live incarnation is not taken down. */
  ghost predicate KeepsLive(p: P.Publishers, q: P.Publishers) {
    forall id | id in p.live ::
      && id in q.live
      && (|| q.live[id].boot > p.live[id].boot
          || (q.live[id].boot == p.live[id].boot && (p.live[id].state == PublisherLive ==> q.live[id].state == PublisherLive)))
  }

  lemma KeepsLiveAttends(e: E.Evidence, p: P.Publishers, q: P.Publishers)
    requires KeepsLive(p, q)
    ensures AttendanceKept(e, p, q)
  {
  }

  lemma BoundKeepsLive(p: P.Publishers, b: P.Binding)
    requires P.RegistryInvariant(p)
    ensures KeepsLive(p, P.Bound(p, b).0)
  {
    P.BoundCases(p, b);
  }

  /** What a step on the publishers alone owes. */
  ghost predicate PublisherStep(s: State, t: State) {
    && t == s.(publishers := t.publishers, evidence := t.evidence, authoritySequence := t.authoritySequence)
    && AuthorityForward(s, t)
    && P.RegistryInvariant(t.publishers)
    && P.Forward(s.publishers, t.publishers)
    && Relabelled(s.evidence, t.evidence)
    && AttendanceKept(t.evidence, s.publishers, t.publishers)
  }

  lemma PublisherStepKeepsInv(o: Oracles, s: State, t: State)
    requires DistinctIdentities(o) && Inv(o, s) && PublisherStep(s, t)
    ensures Sound(o, s, t)
  {
    GroundsByAttendance(o, s, t);
    QuietStepKeepsInv(o, s, t);
  }

  lemma RegisterPublisherStep(s: State, h: Hello, tick: Tick, wall: nat)
    requires P.RegistryInvariant(s.publishers)
    ensures PublisherStep(s, RegisterPublisher(s, h, tick, wall).0)
  {
    var t := RegisterPublisher(s, h, tick, wall).0;
    P.BoundKeepsInvariant(s.publishers, BindingOf(s, h, tick, wall));
    BoundKeepsLive(s.publishers, BindingOf(s, h, tick, wall));
    KeepsLiveAttends(s.evidence, s.publishers, t.publishers);
    RelabelledRefl(s.evidence);
  }

  lemma RegisterPublisherKeepsInv(o: Oracles, s: State, h: Hello, tick: Tick, wall: nat)
    requires DistinctIdentities(o) && Inv(o, s)
    ensures Sound(o, s, RegisterPublisher(s, h, tick, wall).0)
  {
    hide *;
    PartsOf(o, s);
    RegisterPublisherStep(s, h, tick, wall);
    PublisherStepKeepsInv(o, s, RegisterPublisher(s, h, tick, wall).0);
  }

  lemma TouchedKeepsLive(p: P.Publishers, id: string, boot: nat, tick: Tick, wall: nat)
    ensures KeepsLive(p, P.Touched(p, id, boot, tick, wall).0)
  {
  }

  lemma HeartbeatStep(s: State, id: string, boot: nat, tick: Tick, wall: nat)
    requires P.RegistryInvariant(s.publishers)
    ensures PublisherStep(s, Heartbeat(s, id, boot, tick, wall).0)
  {
    var t := Heartbeat(s, id, boot, tick, wall).0;
    P.TouchedKeepsInvariant(s.publishers, id, boot, tick, wall);
    TouchedKeepsLive(s.publishers, id, boot, tick, wall);
    KeepsLiveAttends(s.evidence, s.publishers, t.publishers);
    RelabelledRefl(s.evidence);
  }

  lemma HeartbeatKeepsInv(o: Oracles, s: State, id: string, boot: nat, tick: Tick, wall: nat)
    requires DistinctIdentities(o) && Inv(o, s)
    ensures Sound(o, s, Heartbeat(s, id, boot, tick, wall).0)
  {
    hide *;
    PartsOf(o, s);
    HeartbeatStep(s, id, boot, tick, wall);
    PublisherStepKeepsInv(o, s, Heartbeat(s, id, boot, tick, wall).0);
  }

  lemma DisownedRelabels(o: Oracles, e: E.Evidence, p: P.Publishers, id: string, boot: nat, session: string)
    ensures Relabelled(e, Disowned(o, e, p, id, boot, session))
  {
    MarkStaleRelabels(e, OfIncarnation(id, boot), o.render(IncarnationEnded(id, boot)));
    MarkStaleRelabels(e, OfSession(id, boot, session), o.render(SessionEnded(session, id, boot)));
    RelabelledRefl(e);
  }

  lemma EndSessionAttends(o: Oracles, e: E.Evidence, p: P.Publishers, id: string, boot: nat, session: string, tick: Tick)
    requires P.Ended(p, id, boot, session, tick).1.Ok?
    ensures var q := P.Ended(p, id, boot, session, tick).0;
            AttendanceKept(Disowned(o, e, q, id, boot, session), p, q)
  {
    var q := P.Ended(p, id, boot, session, tick).0;
    var f := Disowned(o, e, q, id, boot, session);
    forall k | k in f.byId && f.byId[k].state == EvidenceCurrent && Attended(p, f.byId[k])
      ensures Attended(q, f.byId[k])
    {
      if f.byId[k].publisher == id && f.byId[k].publisherBoot == boot {
        assert q.live[id].liveSessions != [];
      }
    }
  }

  lemma EndSessionStep(o: Oracles, s: State, id: string, boot: nat, session: string, tick: Tick)
    requires P.RegistryInvariant(s.publishers)
    ensures var (t, r) := EndSession(o, s, id, boot, session, tick);
            if r.Err? then t == s else PublisherStep(s, t)
  {
    var (t, r) := EndSession(o, s, id, boot, session, tick);
    if r.Ok? {
      P.EndedKeepsInvariant(s.publishers, id, boot, session, tick);
      DisownedRelabels(o, s.evidence, t.publishers, id, boot, session);
      EndSessionAttends(o, s.evidence, s.publishers, id, boot, session, tick);
    }
  }

  lemma EndSessionKeepsInv(o: Oracles, s: State, id: string, boot: nat, session: string, tick: Tick)
    requires DistinctIdentities(o) && Inv(o, s)
    ensures Sound(o, s, EndSession(o, s, id, boot, session, tick).0)
  {
    hide *;
    PartsOf(o, s);
    EndSessionStep(o, s, id, boot, session, tick);
    if EndSession(o, s, id, boot, session, tick).1.Err? {
      StayKeepsInv(o, s);
    } else {
      PublisherStepKeepsInv(o, s, EndSession(o, s, id, boot, session, tick).0);
    }
  }

  lemma NothingExpires(p: P.Publishers, tick: Tick)
    requires P.ExpiredIds(p, tick) == {}
    ensures P.Expire(p, tick) == p
  {
    forall id | id in p.live
      ensures P.Expire(p, tick).live[id] == p.live[id]
    {
      assert id !in P.ExpiredIds(p, tick);
    }
    assert P.Expire(p, tick).live == p.live;
  }

  lemma ExpireAttends(e: E.Evidence, p: P.Publishers, tick: Tick, reason: string)
    ensures AttendanceKept(E.MarkStale(e, Unattended(P.Expire(p, tick)), reason), p, P.Expire(p, tick))
  {
  }

  lemma ExpireLivenessStep(o: Oracles, s: State, tick: Tick)
    requires P.RegistryInvariant(s.publishers)
    ensures ExpireLiveness(o, s, tick) == s || PublisherStep(s, ExpireLiveness(o, s, tick))
  {
    var t := ExpireLiveness(o, s, tick);
    if P.ExpiredIds(s.publishers, tick) == {} {
      NothingExpires(s.publishers, tick);
    } else {
      P.ExpireKeepsInvariant(s.publishers, tick);
      MarkStaleRelabels(s.evidence, Unattended(t.publishers), o.render(LivenessLost));
      ExpireAttends(s.evidence, s.publishers, tick, o.render(LivenessLost));
    }
  }

  lemma ExpireLivenessKeepsInv(o: Oracles, s: State, tick: Tick)
    requires DistinctIdentities(o) && Inv(o, s)
    ensures Sound(o, s, ExpireLiveness(o, s, tick))
  {
    hide *;
    PartsOf(o, s);
    ExpireLivenessStep(o, s, tick);
    if ExpireLiveness(o, s, tick) == s {
      StayKeepsInv(o, s);
    } else {
      PublisherStepKeepsInv(o, s, ExpireLiveness(o, s, tick));
    }
  }

  // ---- workloads and contracts --------------------------------------------

  /** What a step on workloads and contracts owes. */
  ghost predicate WorkloadStep(o: Oracles, s: State, t: State) {
    && t == s.(workloads := t.workloads, evidence := t.evidence)
    && W.ContractInvariant(o, t.workloads)
    && W.ContractsForward(s.workloads, t.workloads)
    && Relabelled(s.evidence, t.evidence)
  }

  lemma WorkloadStepKeepsInv(o: Oracles, s: State, t: State)
    requires DistinctIdentities(o) && Inv(o, s) && WorkloadStep(o, s, t)
    ensures Sound(o, s, t)
  {
    GroundsUnchanged(o, s, t);
    QuietStepKeepsInv(o, s, t);
  }

  lemma DeclareWorkloadStep(o: Oracles, s: State, id: string, owner: string, generation: nat, tick: Tick, description: string)
    requires W.ContractInvariant(o, s.workloads)
    ensures WorkloadStep(o, s, DeclareWorkload(o, s, id, owner, generation, tick, description).0)
  {
    W.DeclaredKeepsInvariant(o, s.workloads, id, owner, generation, tick, description);
    W.DeclaredForward(s.workloads, id, owner, generation, tick, description);
    RelabelledRefl(s.evidence);
    StaleContractsRelabels(s.evidence, W.RetiredByDeclaring(s.workloads, id, owner, generation), AdvancedReason(o, id));
  }

  lemma DeclareWorkloadKeepsInv(o: Oracles, s: State, id: string, owner: string, generation: nat, tick: Tick,
                                description: string)
    requires DistinctIdentities(o) && Inv(o, s)
    ensures Sound(o, s, DeclareWorkload(o, s, id, owner, generation, tick, description).0)
  {
    hide *;
    PartsOf(o, s);
    DeclareWorkloadStep(o, s, id, owner, generation, tick, description);
    WorkloadStepKeepsInv(o, s, DeclareWorkload(o, s, id, owner, generation, tick, description).0);
  }

  lemma ProposeContractStep(o: Oracles, s: State, c: WorkloadContract, tick: Tick)
    requires W.ContractInvariant(o, s.workloads)
    ensures WorkloadStep(o, s, ProposeContract(o, s, c, tick).0)
  {
    W.ProposedKeepsInvariant(o, s.workloads, c, tick);
    W.ProposedForward(o, s.workloads, c, tick);
    RelabelledRefl(s.evidence);
  }

  lemma ProposeContractKeepsInv(o: Oracles, s: State, c: WorkloadContract, tick: Tick)
    requires DistinctIdentities(o) && Inv(o, s)
    ensures Sound(o, s, ProposeContract(o, s, c, tick).0)
  {
    hide *;
    PartsOf(o, s);
    ProposeContractStep(o, s, c, tick);
    WorkloadStepKeepsInv(o, s, ProposeContract(o, s, c, tick).0);
  }

  lemma ActivateContractStep(o: Oracles, s: State, id: string, caller: string, tick: Tick)
    requires W.ContractInvariant(o, s.workloads)
    ensures WorkloadStep(o, s, ActivateContract(o, s, id, caller, tick).0)
  {
    W.ActivatedKeepsInvariant(o, s.workloads, id, caller, tick);
    W.ActivatedForward(s.workloads, id, caller, tick);
    RelabelledRefl(s.evidence);
    StaleContractsRelabels(s.evidence, W.RetiredByActivating(s.workloads, id, caller), ReplacedReason(o, id));
  }

  lemma ActivateContractKeepsInv(o: Oracles, s: State, id: string, caller: string, tick: Tick)
    requires DistinctIdentities(o) && Inv(o, s)
    ensures Sound(o, s, ActivateContract(o, s, id, caller, tick).0)
  {
    hide *;
    PartsOf(o, s);
    ActivateContractStep(o, s, id, caller, tick);
    WorkloadStepKeepsInv(o, s, ActivateContract(o, s, id, caller, tick).0);
  }

  lemma RetireContractStep(o: Oracles, s: State, id: string, caller: string, tick: Tick)
    requires W.ContractInvariant(o, s.workloads)
    ensures WorkloadStep(o, s, RetireContract(o, s, id, caller, tick).0)
  {
    W.ContractRetirementKeepsInvariant(o, s.workloads, id, caller, tick);
    W.ContractRetirementForward(s.workloads, id, caller, tick);
    RelabelledRefl(s.evidence);
    MarkStaleRelabels(s.evidence, CitesContract(id), o.render(ContractRetiredPhrase(id)));
  }

  lemma RetireContractKeepsInv(o: Oracles, s: State, id: string, caller: string, tick: Tick)
    requires DistinctIdentities(o) && Inv(o, s)
    ensures Sound(o, s, RetireContract(o, s, id, caller, tick).0)
  {
    hide *;
    PartsOf(o, s);
    RetireContractStep(o, s, id, caller, tick);
    WorkloadStepKeepsInv(o, s, RetireContract(o, s, id, caller, tick).0);
  }

  lemma RetireWorkloadStep(o: Oracles, s: State, id: string, generation: nat, tick: Tick)
    requires W.ContractInvariant(o, s.workloads)
    ensures WorkloadStep(o, s, RetireWorkload(o, s, id, generation, tick).0)
  {
    W.WorkloadRetirementKeepsInvariant(o, s.workloads, id, generation, tick);
    W.WorkloadRetirementForward(s.workloads, id, generation, tick);
    RelabelledRefl(s.evidence);
    MarkStaleRelabels(s.evidence, CitesWorkload(id), o.render(WorkloadRetiredPhrase(id)));
  }

  lemma RetireWorkloadKeepsInv(o: Oracles, s: State, id: string, generation: nat, tick: Tick)
    requires DistinctIdentities(o) && Inv(o, s)
    ensures Sound(o, s, RetireWorkload(o, s, id, generation, tick).0)
  {
    hide *;
    PartsOf(o, s);
    RetireWorkloadStep(o, s, id, generation, tick);
    WorkloadStepKeepsInv(o, s, RetireWorkload(o, s, id, generation, tick).0);
  }
}
