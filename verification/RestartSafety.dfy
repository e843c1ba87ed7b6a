/**
 * What a restart can never bring back: restoring the image of any sound state into a new
 * classifier and advancing the epoch.
 */
module RestartSafety {
  import opened Domain
  import opened ClassifierState
  import opened ClassifierInvariant
  import opened ClassifierSteps
  import opened Restart
  import E = EvidenceStore
  import P = PublisherRegistry
  import W = WorkloadRegistry
  import F = FlowRegistry
  import D = ClassificationIndex

  // ---- each store comes back ----------------------------------------------

  function StoredAt(tick: Tick): PublisherRecord -> PublisherRecord {
    (r: PublisherRecord) => P.StoredRecord(r, tick)
  }

  function Same<T>(): T -> T {
    x => x
  }

  function Reload(o: Oracles): EvidenceRecord -> EvidenceRecord {
    (r: EvidenceRecord) => E.StaledIf(true, r, o.render(Reloaded))
  }

  lemma {:induction false} PublishersFill(p: P.Publishers, rs: seq<PublisherRecord>, tick: Tick)
    requires P.RestoredRecords(p, rs, tick).1.Ok?
    ensures P.RestoredRecords(p, rs, tick).0.records == FillTable(p.records, PublisherKey(), StoredAt(tick), rs)
    decreases |rs|
  {
    if rs != [] {
      PublishersFill(P.RestoredRecord(p, rs[0], tick).0, rs[1..], tick);
    }
  }

  lemma {:induction false} WorkloadsFill(w: W.Workloads, rs: seq<WorkloadRecord>)
    requires RestoreAll(WorkloadRestore(), w, rs).1.Ok?
    ensures RestoreAll(WorkloadRestore(), w, rs).0 == w.(workloads := FillTable(w.workloads, WorkloadKey(), Same(), rs))
    decreases |rs|
  {
    if rs != [] {
      WorkloadsFill(W.RestoredWorkload(w, rs[0]).0, rs[1..]);
    }
  }

  ghost predicate DigestsMatch(o: Oracles, cs: seq<WorkloadContract>) {
    forall i | 0 <= i < |cs| :: cs[i].definitionDigest == ContractDigest(o, cs[i])
  }

  lemma {:induction false} ContractsFill(o: Oracles, w: W.Workloads, cs: seq<WorkloadContract>)
    requires DigestsMatch(o, cs) && RestoreAll(ContractRestore(o), w, cs).1.Ok?
    ensures RestoreAll(ContractRestore(o), w, cs).0 == w.(contracts := FillTable(w.contracts, ContractKey(), Same(), cs))
    decreases |cs|
  {
    if cs != [] {
      assert DigestsMatch(o, cs[1..]);
      ContractsFill(o, W.RestoredContract(o, w, cs[0]).0, cs[1..]);
    }
  }

  ghost predicate AllAbsent(f: F.Flows, rs: seq<FlowRecord>) {
    && (forall i | 0 <= i < |rs| :: rs[i].key !in f.current)
    && (forall i, j | 0 <= i < j < |rs| :: rs[i].key != rs[j].key)
  }

  lemma {:induction false} FlowsFill(f: F.Flows, rs: seq<FlowRecord>)
    requires AllAbsent(f, rs) && RestoreAll(FlowRestore(), f, rs).1.Ok?
    ensures RestoreAll(FlowRestore(), f, rs).0 == f.(current := FillTable(f.current, FlowRecordKey(), Same(), rs))
    decreases |rs|
  {
    if rs != [] {
      var g := F.RestoredFlow(f, rs[0]).0;
      assert g == f.(current := f.current[rs[0].key := rs[0]]);
      assert AllAbsent(g, rs[1..]) by {
        forall i | 0 <= i < |rs[1..]|
          ensures rs[1..][i].key !in g.current
        {
          assert rs[1..][i] == rs[i + 1];
        }
      }
      FlowsFill(g, rs[1..]);
    }
  }

  lemma {:induction false} EvidenceFill(o: Oracles, e: E.Evidence, rs: seq<EvidenceRecord>)
    requires E.IndexInvariant(e) && RestoreAll(EvidenceRestore(o), e, rs).1.Ok?
    ensures E.IndexInvariant(RestoreAll(EvidenceRestore(o), e, rs).0)
    ensures RestoreAll(EvidenceRestore(o), e, rs).0.byId == FillTable(e.byId, EvidenceKey(), Reload(o), rs)
    decreases |rs|
  {
    hide E.IndexInvariant;
    if rs != [] {
      E.RestoreKeepsIndex(o, e, rs[0]);
      EvidenceFill(o, E.Restored(o, e, rs[0]).0, rs[1..]);
    }
  }

  // ---- the decision index keeps its rings and gains no memo ----------------

  lemma {:induction false} ClassificationsFrame(d: D.Decisions, cs: seq<Classification>)
    ensures RestoreClassifications(d, cs) == d.(history := RestoreClassifications(d, cs).history)
  {
    if cs != [] {
      ClassificationsFrame(d, cs[..|cs| - 1]);
    }
  }

  lemma {:induction false} RevocationsFrame(d: D.Decisions, rs: seq<RevocationRecord>)
    ensures RestoreRevocations(d, rs) == d.(revocations := RestoreRevocations(d, rs).revocations)
    ensures forall x | x in RestoreRevocations(d, rs).revocations :: x in d.revocations || x in rs
  {
    if rs != [] {
      RevocationsFrame(d, rs[..|rs| - 1]);
    }
  }

  lemma {:induction false} SupersessionsFrame(d: D.Decisions, rs: seq<SupersessionRecord>)
    ensures RestoreSupersessions(d, rs) == d.(supersessions := RestoreSupersessions(d, rs).supersessions)
    ensures forall x | x in RestoreSupersessions(d, rs).supersessions :: x in d.supersessions || x in rs
  {
    if rs != [] {
      SupersessionsFrame(d, rs[..|rs| - 1]);
    }
  }

  lemma DecisionsFrame(d: D.Decisions, img: DurableState)
    ensures var r := RestoreDecisions(d, img);
            && r.memo == d.memo && r.memoOrder == d.memoOrder && r.bounds == d.bounds
            && (forall x | x in r.revocations :: x in d.revocations || x in img.revocations)
            && (forall x | x in r.supersessions :: x in d.supersessions || x in img.supersessions)
  {
    hide RestoreClassifications, RestoreRevocations, RestoreSupersessions;
    var d1 := RestoreClassifications(d, img.classifications);
    var d2 := RestoreRevocations(d1, img.revocations);
    ClassificationsFrame(d, img.classifications);
    RevocationsFrame(d1, img.revocations);
    SupersessionsFrame(d2, img.supersessions);
  }

  // ---- the restored state -------------------------------------------------

  /** Nothing to restore over: a classifier as it was built. */
  ghost predicate Unused(s: State) {
    && s.flows.current == map[] && s.flows.history == map[]
    && s.publishers.live == map[] && s.publishers.records == map[]
    && s.workloads.workloads == map[] && s.workloads.contracts == map[]
    && s.evidence.byId == map[] && s.evidence.byFlow == map[] && s.evidence.order == []
    && s.decisions.memo == map[] && s.decisions.memoOrder == []
    && s.decisions.revocations == [] && s.decisions.supersessions == []
  }

  /** `t` holds what the image of `s` held: every record, none of them CURRENT. */
  ghost predicate CameBack(o: Oracles, s: State, t: State) {
    && s.epoch <= t.epoch && s.sequence <= t.sequence
    && P.RegistryInvariant(t.publishers)
    && P.Forward(s.publishers, t.publishers)
    && t.workloads.workloads == s.workloads.workloads
    && t.workloads.contracts == s.workloads.contracts
    && t.flows.current == s.flows.current
    && t.flows.history == map[]
    && E.IndexInvariant(t.evidence)
    && t.evidence.byId.Keys == s.evidence.byId.Keys
    && (forall id | id in t.evidence.byId :: t.evidence.byId[id] == Reload(o)(s.evidence.byId[id]))
    && t.decisions.memo == map[] && t.decisions.memoOrder == []
    && RingsNumbered(t)
  }

  lemma PublishersComeBack(s: P.Publishers, start: P.Publishers, rs: seq<PublisherRecord>, tick: Tick)
    requires start.live == map[] && start.records == map[]
    requires Lists(s.records, PublisherKey(), rs)
    requires P.RestoredRecords(start, rs, tick).1.Ok?
    ensures P.RegistryInvariant(P.RestoredRecords(start, rs, tick).0)
    ensures P.Forward(s, P.RestoredRecords(start, rs, tick).0)
  {
    hide P.RestoredRecords, Lists, P.StoredRecord;
    P.RestoredRecordsKeepInvariant(start, rs, tick);
    PublishersFill(start, rs, tick);
    FillFromListing(s.records, PublisherKey(), StoredAt(tick), rs);
    var q := P.RestoredRecords(start, rs, tick).0;
    forall id | id in s.records
      ensures id in q.records && q.records[id].highestBoot == s.records[id].highestBoot
      ensures id in q.records && q.records[id].highestGeneration == s.records[id].highestGeneration
    {
      StoredKeepsMarks(s.records[id], tick);
    }
  }

  lemma StoredKeepsMarks(r: PublisherRecord, tick: Tick)
    ensures P.StoredRecord(r, tick).highestBoot == r.highestBoot
    ensures P.StoredRecord(r, tick).highestGeneration == r.highestGeneration
  {
  }

  lemma TableComesBack<K(!new), T(!new)>(table: map<K, T>, key: T -> K, xs: seq<T>)
    requires Lists(table, key, xs)
    ensures FillTable(map[], key, Same(), xs) == table
  {
    FillFromListing(table, key, Same(), xs);
  }

  lemma DigestsOf(o: Oracles, s: W.Workloads, cs: seq<WorkloadContract>)
    requires W.ContractInvariant(o, s) && Lists(s.contracts, ContractKey(), cs)
    ensures DigestsMatch(o, cs)
  {
    hide ContractDigest;
    forall i | 0 <= i < |cs|
      ensures cs[i].definitionDigest == ContractDigest(o, cs[i])
    {
      assert ContractKey()(cs[i]) in s.contracts;
      assert W.Bound(o, s, s.contracts[cs[i].id]);
    }
  }

  lemma WorkloadsComeBack(o: Oracles, s: W.Workloads, start: W.Workloads, ws: seq<WorkloadRecord>, cs: seq<WorkloadContract>)
    requires W.ContractInvariant(o, s) && start.workloads == map[] && start.contracts == map[]
    requires Lists(s.workloads, WorkloadKey(), ws) && Lists(s.contracts, ContractKey(), cs)
    requires RestoreAll(WorkloadRestore(), start, ws).1.Ok?
    requires RestoreAll(ContractRestore(o), RestoreAll(WorkloadRestore(), start, ws).0, cs).1.Ok?
    ensures var w := RestoreAll(ContractRestore(o), RestoreAll(WorkloadRestore(), start, ws).0, cs).0;
            w.workloads == s.workloads && w.contracts == s.contracts
  {
    hide RestoreAll, FillTable;
    DigestsOf(o, s, cs);
    WorkloadsFill(start, ws);
    var w1 := RestoreAll(WorkloadRestore(), start, ws).0;
    ContractsFill(o, w1, cs);
    TableComesBack(s.workloads, WorkloadKey(), ws);
    TableComesBack(s.contracts, ContractKey(), cs);
  }

  lemma FlowsComeBack(s: F.Flows, start: F.Flows, rs: seq<FlowRecord>)
    requires start.current == map[] && start.history == map[] && Lists(s.current, FlowRecordKey(), rs)
    requires RestoreAll(FlowRestore(), start, rs).1.Ok?
    ensures RestoreAll(FlowRestore(), start, rs).0.current == s.current
    ensures RestoreAll(FlowRestore(), start, rs).0.history == map[]
  {
    hide RestoreAll, FillTable;
    assert AllAbsent(start, rs) by {
      forall i, j | 0 <= i < j < |rs|
        ensures rs[i].key != rs[j].key
      {
        assert FlowRecordKey()(rs[i]) != FlowRecordKey()(rs[j]);
      }
    }
    FlowsFill(start, rs);
    TableComesBack(s.current, FlowRecordKey(), rs);
  }

  lemma EvidenceComesBack(o: Oracles, s: E.Evidence, start: E.Evidence, rs: seq<EvidenceRecord>)
    requires start.byId == map[] && start.byFlow == map[] && start.order == []
    requires Lists(s.byId, EvidenceKey(), rs)
    requires RestoreAll(EvidenceRestore(o), start, rs).1.Ok?
    ensures var e := RestoreAll(EvidenceRestore(o), start, rs).0;
            && E.IndexInvariant(e)
            && e.byId.Keys == s.byId.Keys
            && forall id | id in e.byId :: e.byId[id] == Reload(o)(s.byId[id])
  {
    hide RestoreAll, FillTable, Reload, Lists;
    EmptyIndex(start);
    EvidenceFill(o, start, rs);
    FillFromListing(s.byId, EvidenceKey(), Reload(o), rs);
  }

  lemma EmptyIndex(e: E.Evidence)
    requires e.byId == map[] && e.byFlow == map[] && e.order == []
    ensures E.IndexInvariant(e)
  {
  }

  lemma RingsComeBack(s: State, d: D.Decisions, img: DurableState, t: State)
    requires RingsNumbered(s) && s.sequence <= t.sequence
    requires img.revocations == s.decisions.revocations && img.supersessions == s.decisions.supersessions
    requires d.revocations == [] && d.supersessions == [] && t.decisions == RestoreDecisions(d, img)
    ensures RingsNumbered(t)
  {
    hide RestoreDecisions;
    DecisionsFrame(d, img);
    forall i | 0 <= i < |t.decisions.revocations|
      ensures t.decisions.revocations[i].seqno <= t.sequence
    {
      assert t.decisions.revocations[i] in img.revocations;
    }
    forall i | 0 <= i < |t.decisions.supersessions|
      ensures t.decisions.supersessions[i].seqno <= t.sequence
    {
      assert t.decisions.supersessions[i] in img.supersessions;
    }
  }

  lemma RestoreParts(o: Oracles, start: State, img: DurableState, boot: nat, tick: Tick)
    requires Restore(o, start, img, boot, tick).1.Ok?
    ensures var t := Restore(o, start, img, boot, tick).0;
            var p := P.RestoredRecords(start.publishers, img.publishers, tick);
            var w1 := RestoreAll(WorkloadRestore(), start.workloads, img.workloads);
            var w := RestoreAll(ContractRestore(o), w1.0, img.contracts);
            var f := RestoreAll(FlowRestore(), start.flows, img.flows);
            var e := RestoreAll(EvidenceRestore(o), start.evidence, img.evidence);
            && p.1.Ok? && w1.1.Ok? && w.1.Ok? && f.1.Ok? && e.1.Ok?
            && t.publishers == P.ClearedSessions(p.0) && t.workloads == w.0 && t.flows == f.0 && t.evidence == e.0
            && t.decisions == RestoreDecisions(start.decisions, img)
            && img.epoch <= t.epoch && img.sequence <= t.sequence
  {
    hide P.RestoredRecords, RestoreAll, RestoreDecisions, P.ClearedSessions;
  }

  lemma RestoredCameBack(o: Oracles, s: State, start: State, img: DurableState, boot: nat, tick: Tick)
    requires Inv(o, s) && ImageOf(s, img) && Unused(start) && Restore(o, start, img, boot, tick).1.Ok?
    ensures CameBack(o, s, Restore(o, start, img, boot, tick).0)
  {
    hide Inv, Restore, P.RestoredRecords, RestoreAll, RestoreDecisions, P.ClearedSessions, Lists, P.RegistryInvariant,
         P.Forward, E.IndexInvariant, W.ContractInvariant, F.FlowInvariant, RecordsInvariant, TopicInvariant,
         D.MemoInvariant, Reload, P.LiveIncarnations, RingsNumbered, Numbered;
    PartsOf(o, s);
    RingsOf(o, s);
    var t := Restore(o, start, img, boot, tick).0;
    RestoreParts(o, start, img, boot, tick);
    var p := P.RestoredRecords(start.publishers, img.publishers, tick).0;
    PublishersComeBack(s.publishers, start.publishers, img.publishers, tick);
    P.ClearedKeepsInvariant(p);
    P.ForwardTransitive(s.publishers, p, t.publishers);
    WorkloadsComeBack(o, s.workloads, start.workloads, img.workloads, img.contracts);
    FlowsComeBack(s.flows, start.flows, img.flows);
    EvidenceComesBack(o, s.evidence, start.evidence, img.evidence);
    DecisionsFrame(start.decisions, img);
    RingsComeBack(s, start.decisions, img, t);
  }

  lemma RingsOf(o: Oracles, s: State)
    requires Inv(o, s)
    ensures RingsNumbered(s)
  {
  }

  // ---- the restored state is sound ----------------------------------------

  lemma ReloadAges(o: Oracles, r: EvidenceRecord)
    ensures Ages(r, Reload(o)(r)) && Reload(o)(r).state != EvidenceCurrent
  {
  }

  lemma CameBackForward(o: Oracles, s: State, t: State)
    requires CameBack(o, s, t)
    ensures DurableForward(s, t) && NoneCurrent(t.evidence)
  {
    hide E.IndexInvariant, P.RegistryInvariant, Reload;
    forall id | id in t.evidence.byId
      ensures t.evidence.byId[id].state != EvidenceCurrent
    {
      ReloadAges(o, s.evidence.byId[id]);
    }
  }

  lemma CameBackRecords(o: Oracles, s: State, t: State)
    requires RecordsInvariant(o, s) && CameBack(o, s, t)
    ensures RecordsInvariant(o, t)
  {
    hide E.IndexInvariant, P.RegistryInvariant, Reload, RecordInvariant, DurableForward;
    CameBackForward(o, s, t);
    forall id | id in t.evidence.byId
      ensures RecordInvariant(o, t, t.evidence.byId[id])
    {
      ReloadAges(o, s.evidence.byId[id]);
      AgedRecordInvariant(o, s, t, s.evidence.byId[id], t.evidence.byId[id]);
    }
  }

  lemma CameBackStores(o: Oracles, s: State, t: State)
    requires W.ContractInvariant(o, s.workloads) && F.FlowInvariant(o, s.flows) && CameBack(o, s, t)
    ensures StoresInvariant(o, t)
  {
    hide E.IndexInvariant, P.RegistryInvariant, Reload, P.Forward, RingsNumbered;
    forall k | k in t.flows.current
      ensures F.Fenced(o, t.flows, k)
    {
      assert F.Fenced(o, s.flows, k);
    }
    assert W.ContractInvariant(o, t.workloads);
  }

  lemma CameBackNumbers(o: Oracles, s: State, t: State)
    requires Numbered(s) && CameBack(o, s, t)
    ensures Numbered(t)
  {
    hide E.IndexInvariant, P.RegistryInvariant, P.Forward, Reload;
    forall a, b | a in t.evidence.byId && b in t.evidence.byId && a != b
      ensures t.evidence.byId[a].acceptedSeq != t.evidence.byId[b].acceptedSeq
    {
      ReloadAges(o, s.evidence.byId[a]);
      ReloadAges(o, s.evidence.byId[b]);
    }
  }

  lemma QuietTopics(e: E.Evidence)
    requires NoneCurrent(e)
    ensures TopicInvariant(e)
  {
  }

  lemma CameBackInv(o: Oracles, s: State, t: State)
    requires Inv(o, s) && CameBack(o, s, t)
    ensures Inv(o, t)
  {
    hide RecordsInvariant, StoresInvariant, Numbered, TopicInvariant, P.RegistryInvariant, P.Forward, E.IndexInvariant,
         Reload, W.ContractInvariant, F.FlowInvariant, NoneCurrent;
    PartsOf(o, s);
    CameBackForward(o, s, t);
    CameBackRecords(o, s, t);
    CameBackStores(o, s, t);
    CameBackNumbers(o, s, t);
    QuietTopics(t.evidence);
  }

  // ---- starting -----------------------------------------------------------

  /** Every record of `t` was a record of `s` and has aged past CURRENT. */
  ghost predicate OnlyOldRecords(s: State, t: State) {
    && t.evidence.byId.Keys == s.evidence.byId.Keys
    && forall id | id in t.evidence.byId ::
         Ages(s.evidence.byId[id], t.evidence.byId[id]) && t.evidence.byId[id].state != EvidenceCurrent
  }

  /** What a restart guarantees about the new process, `s` being the state whose image it read. */
  ghost predicate RestartedFrom(s: State, t: State) {
    && t.epoch > s.epoch
    && t.sequence > s.sequence
    && DurableForward(s, t)
    && OnlyOldRecords(s, t)
    && AllBefore(t.evidence, t.epoch)
    && P.LiveIncarnations(t.publishers) == {}
    && t.decisions.memo == map[]
  }

  lemma StartParts(o: Oracles, policy: ClassifierPolicy, img: DurableState, boot: nat, tick: Tick)
    requires Start(o, policy, img, boot, tick).1.Ok?
    ensures exists start :: && Unused(start) && Restore(o, start, img, boot, tick).1.Ok?
                            && Start(o, policy, img, boot, tick) == AdvanceEpoch(o, Restore(o, start, img, boot, tick).0, boot)
  {
    hide Restore, AdvanceEpoch;
    var built := Initial(policy, 1, 1);
    SetPolicyCases(o, built, img.policy);
    StartUnused(o, built, img);
    var start := if img.policy.generation != 0 then SetPolicy(o, built, img.policy).0 else built;
    assert Unused(start);
  }

  lemma StartUnused(o: Oracles, built: State, img: DurableState)
    requires Unused(built)
    ensures Unused(SetPolicy(o, built, img.policy).0)
  {
    hide SetPolicy;
    SetPolicyCases(o, built, img.policy);
  }

  lemma AdvancedFromBack(o: Oracles, s: State, t0: State, boot: nat)
    requires Inv(o, s) && CameBack(o, s, t0) && Inv(o, t0)
    ensures RestartedFrom(s, Advanced(o, t0, boot))
  {
    hide Inv, Reload, E.IndexInvariant, P.RegistryInvariant, RingsNumbered, DurableForward, P.LiveIncarnations,
         RecordsInvariant, W.ContractInvariant, F.FlowInvariant, TopicInvariant, Numbered, D.MemoInvariant;
    var t := Advanced(o, t0, boot);
    PartsOf(o, t0);
    CameBackForward(o, s, t0);
    AdvancedMoves(o, t0, boot);
    DurableForwardTransitive(s, t0, t);
    NoneCurrentAfterAdvance(o, t0, boot);
    AdvancedFrame(o, t0, boot);
    P.ClearedKeepsInvariant(t0.publishers);
    forall id | id in t.evidence.byId
      ensures Ages(s.evidence.byId[id], t.evidence.byId[id])
    {
      ReloadAges(o, s.evidence.byId[id]);
      AgesTransitive(s.evidence.byId[id], t0.evidence.byId[id], t.evidence.byId[id]);
    }
  }

  /**
   * Restart safety: no stored record is CURRENT, the epoch is above every record's, sequence
   * numbers and publisher high-water marks have not fallen, and the state is sound.
   */
  lemma RestartIsSafe(o: Oracles, s: State, policy: ClassifierPolicy, img: DurableState, boot: nat, tick: Tick)
    requires DistinctIdentities(o) && Inv(o, s) && ImageOf(s, img) && Start(o, policy, img, boot, tick).1.Ok?
    ensures Inv(o, Start(o, policy, img, boot, tick).0)
    ensures RestartedFrom(s, Start(o, policy, img, boot, tick).0)
  {
    hide *;
    StartParts(o, policy, img, boot, tick);
    var start :| && Unused(start) && Restore(o, start, img, boot, tick).1.Ok?
                 && Start(o, policy, img, boot, tick) == AdvanceEpoch(o, Restore(o, start, img, boot, tick).0, boot);
    var t0 := Restore(o, start, img, boot, tick).0;
    RestoredCameBack(o, s, start, img, boot, tick);
    CameBackInv(o, s, t0);
    AdvanceEpochCases(o, t0, boot);
    AdvancedFromBack(o, s, t0, boot);
    AdvancedKeepsInv(o, t0, boot);
    SoundInv(o, t0, Advanced(o, t0, boot));
  }

  // ---- what is refused ever after -----------------------------------------

  /** An envelope of an earlier epoch is refused by every operation that takes one. */
  lemma EarlierEnvelopeRefused(o: Oracles, t: State, env: SessionEnvelope, p: EvidencePayload, id: string, flow: FlowId,
                               generation: nat, reason: string, tick: Tick, later: Tick, wall: nat)
    requires env.epoch < t.epoch
    ensures SubmitEvidence(o, t, env, p, tick, later, wall) == (t, Err(StaleEpoch))
    ensures WithdrawEvidence(o, t, env, id, reason, tick) == (t, Err(StaleEpoch))
    ensures RevokeGeneration(o, t, env, flow, generation, reason, tick) == (t, Err(StaleEpoch))
  {
  }

  lemma SubmitNeedsFreshGeneration(o: Oracles, t: State, env: SessionEnvelope, p: EvidencePayload, tick: Tick, later: Tick,
                                   wall: nat)
    requires P.Observed(RegisterFlow(o, t, p.flowKey, p.flowGeneration, env.session, tick).0.publishers,
                        env.publisher, env.publisherBoot, p.evidenceGeneration).1.Err?
    ensures SubmitEvidence(o, t, env, p, tick, later, wall).1.Err?
  {
    hide P.Observed, RegisterFlow, Publish, AdmissionFault;
  }

  lemma RegisterFlowKeepsPublishers(o: Oracles, t: State, key: FlowKey, requested: nat, session: string, tick: Tick)
    ensures RegisterFlow(o, t, key, requested, session, tick).0.publishers == t.publishers
  {
    hide F.Registered, Fence;
  }

  /** A used evidence generation is refused under every session of the same boot. */
  lemma UsedGenerationRefused(o: Oracles, t: State, env: SessionEnvelope, p: EvidencePayload, tick: Tick, later: Tick,
                              wall: nat)
    requires Inv(o, t) && P.Used(t.publishers, env.publisher, env.publisherBoot, p.evidenceGeneration)
    ensures SubmitEvidence(o, t, env, p, tick, later, wall).1.Err?
  {
    hide *;
    PartsOf(o, t);
    RegisterFlowKeepsPublishers(o, t, p.flowKey, p.flowGeneration, env.session, tick);
    P.UsedIsRefused(t.publishers, env.publisher, env.publisherBoot, p.evidenceGeneration);
    SubmitNeedsFreshGeneration(o, t, env, p, tick, later, wall);
  }
}
