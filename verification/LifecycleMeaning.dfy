/**
 * What declaring, proposing, activating and retiring do to workloads, contracts and the records
 * that cite them, and that a retired contract never speaks again.
 */
module LifecycleMeaning {
  import opened Domain
  import opened Enumeration
  import opened DecisionEngine
  import opened ContractMeaning
  import opened ClassifierState
  import opened ClassifierInvariant
  import opened ClassifierSteps
  import opened ClassifierRuns
  import opened Sweeps
  import E = EvidenceStore
  import W = WorkloadRegistry
  import D = ClassificationIndex

  /** The contracts that satisfy `p` are RETIRED at the tick, and no other has changed. */
  ghost predicate Retires(before: map<string, WorkloadContract>, after: map<string, WorkloadContract>, tick: Tick,
                          p: WorkloadContract -> bool)
  {
    && after.Keys == before.Keys
    && forall k | k in before ::
         after[k] == if p(before[k]) then before[k].(state := ContractRetired, retiredTick := tick) else before[k]
  }

  /** Only this workload may have changed. */
  ghost predicate OnlyWorkload(w: W.Workloads, v: W.Workloads, id: string) {
    v.workloads - {id} == w.workloads - {id}
  }

  ghost predicate InForce(w: W.Workloads, id: string) {
    id in w.contracts && w.contracts[id].state == ContractActive
  }

  // ---- retiring a contract ------------------------------------------------

  ghost predicate OwnedBy(w: W.Workloads, id: string, caller: string) {
    id in w.contracts && w.contracts[id].owner == caller
  }

  /** The contract is RETIRED, nothing names it, nothing else has changed. */
  ghost predicate ContractGone(w: W.Workloads, v: W.Workloads, id: string, tick: Tick) {
    && id in w.contracts
    && Retires(w.contracts, v.contracts, tick, (c: WorkloadContract) => c.id == id)
    && v.workloads.Keys == w.workloads.Keys
    && (forall k | k in w.workloads ::
          && v.workloads[k].activeContract != id
          && (w.workloads[k].activeContract != id ==> v.workloads[k] == w.workloads[k])
          && v.workloads[k] == w.workloads[k].(activeContract := v.workloads[k].activeContract))
    && v == w.(contracts := v.contracts, workloads := v.workloads)
  }

  ghost predicate RetiresContract(s: State, id: string, caller: string, tick: Tick, t: State, r: Result<()>) {
    && (r.Ok? <==> OwnedBy(s.workloads, id, caller))
    && (r.Err? ==> t == s)
    && (r.Ok? ==>
          && ContractGone(s.workloads, t.workloads, id, tick)
          && Staled(s.evidence, t.evidence, (x: EvidenceRecord) => x.contract == id)
          && t == s.(workloads := t.workloads, evidence := t.evidence))
  }

  lemma ContractRetirementMeans(o: Oracles, w: W.Workloads, id: string, caller: string, tick: Tick)
    requires W.ContractInvariant(o, w)
    ensures var e := W.ContractRetirement(w, id, caller, tick);
            && (e.1.Ok? <==> OwnedBy(w, id, caller))
            && (e.1.Err? ==> e.0 == w)
            && (e.1.Ok? ==> ContractGone(w, e.0, id, tick))
  {
    if OwnedBy(w, id, caller) {
      assert W.Bound(o, w, w.contracts[id]);
      forall k | k in w.workloads && w.workloads[k].activeContract == id
        ensures k == w.contracts[id].workload
      {
        assert W.NamesItsOwn(w, w.workloads[k]);
      }
    }
  }

  /** What retiring a contract does. */
  lemma ContractIsRetired(o: Oracles, s: State, id: string, caller: string, tick: Tick)
    requires W.ContractInvariant(o, s.workloads)
    ensures var e := RetireContract(o, s, id, caller, tick);
            RetiresContract(s, id, caller, tick, e.0, e.1)
  {
    hide W.ContractRetirement, W.ContractInvariant, E.MarkStale, Staled, ContractGone, OwnedBy;
    ContractRetirementMeans(o, s.workloads, id, caller, tick);
    MarkStaleMeans(s.evidence, CitesContract(id), o.render(ContractRetiredPhrase(id)));
    StaledAlike(s.evidence, E.MarkStale(s.evidence, CitesContract(id), o.render(ContractRetiredPhrase(id))), CitesContract(id),
                (x: EvidenceRecord) => x.contract == id);
  }

  // ---- retiring a workload ------------------------------------------------

  ghost predicate AtThatGeneration(w: W.Workloads, id: string, generation: nat) {
    id in w.workloads && w.workloads[id].generation == generation
  }

  /** The workload is RETIRED, and with it exactly its contracts in force. */
  ghost predicate WorkloadGone(w: W.Workloads, v: W.Workloads, id: string, tick: Tick) {
    && id in w.workloads && id in v.workloads
    && v.workloads[id] == w.workloads[id].(state := WorkloadRetired, retiredTick := tick)
    && OnlyWorkload(w, v, id)
    && Retires(w.contracts, v.contracts, tick, (c: WorkloadContract) => c.workload == id && c.state == ContractActive)
    && v == w.(contracts := v.contracts, workloads := v.workloads)
  }

  ghost predicate RetiresWorkload(s: State, id: string, generation: nat, tick: Tick, t: State, r: Result<()>) {
    && (r.Ok? <==> AtThatGeneration(s.workloads, id, generation))
    && (r.Err? ==> t == s)
    && (r.Ok? ==>
          && WorkloadGone(s.workloads, t.workloads, id, tick)
          && Staled(s.evidence, t.evidence, (x: EvidenceRecord) => x.workload == id)
          && t == s.(workloads := t.workloads, evidence := t.evidence))
  }

  lemma WorkloadRetirementMeans(w: W.Workloads, id: string, generation: nat, tick: Tick)
    ensures var e := W.WorkloadRetirement(w, id, generation, tick);
            && (e.1.Ok? <==> AtThatGeneration(w, id, generation))
            && (e.1.Err? ==> e.0 == w)
            && (e.1.Ok? ==> WorkloadGone(w, e.0, id, tick))
  {
  }

  lemma WorkloadIsRetired(o: Oracles, s: State, id: string, generation: nat, tick: Tick)
    ensures var e := RetireWorkload(o, s, id, generation, tick);
            RetiresWorkload(s, id, generation, tick, e.0, e.1)
  {
    hide W.WorkloadRetirement, E.MarkStale, Staled, WorkloadGone, AtThatGeneration;
    WorkloadRetirementMeans(s.workloads, id, generation, tick);
    MarkStaleMeans(s.evidence, CitesWorkload(id), o.render(WorkloadRetiredPhrase(id)));
    StaledAlike(s.evidence, E.MarkStale(s.evidence, CitesWorkload(id), o.render(WorkloadRetiredPhrase(id))), CitesWorkload(id),
                (x: EvidenceRecord) => x.workload == id);
  }

  // ---- activating ---------------------------------------------------------

  /** The caller owns the contract, it is not retired, and its workload is in use at its generation. */
  ghost predicate MayActivate(w: W.Workloads, id: string, caller: string) {
    && OwnedBy(w, id, caller)
    && var c := w.contracts[id];
       && c.state != ContractRetired
       && AtThatGeneration(w, c.workload, c.workloadGeneration)
       && w.workloads[c.workload].state != WorkloadRetired
  }

  /** In force for the same workload, and not this contract. */
  ghost predicate Rival(w: W.Workloads, id: string, other: string) {
    id in w.contracts && other != id && InForce(w, other) && w.contracts[other].workload == w.contracts[id].workload
  }

  /** The contract is in force, its rivals are retired, its workload names it, nothing else has changed. */
  ghost predicate ContractInForce(w: W.Workloads, v: W.Workloads, id: string, tick: Tick) {
    && id in w.contracts
    && v.contracts.Keys == w.contracts.Keys
    && v.contracts[id] == w.contracts[id].(state := ContractActive, activatedTick := tick, retiredTick := 0)
    && (forall k | k in w.contracts && k != id ::
          v.contracts[k] == if Rival(w, id, k) then w.contracts[k].(state := ContractRetired, retiredTick := tick)
                            else w.contracts[k])
    && var name := w.contracts[id].workload;
       && name in w.workloads && name in v.workloads
       && v.workloads[name] == w.workloads[name].(activeContract := id, state := WorkloadActive, activatedTick := tick)
       && OnlyWorkload(w, v, name)
       && v == w.(contracts := v.contracts, workloads := v.workloads)
  }

  ghost predicate ActivatesContract(s: State, id: string, caller: string, tick: Tick, t: State, r: Result<WorkloadContract>) {
    && (r.Ok? <==> MayActivate(s.workloads, id, caller))
    && (r.Err? ==> t == s)
    && (r.Ok? ==>
          && InForce(t.workloads, id) && r.value == t.workloads.contracts[id]
          && (InForce(s.workloads, id) ==> t == s)
          && (!InForce(s.workloads, id) ==>
                && ContractInForce(s.workloads, t.workloads, id, tick)
                && Staled(s.evidence, t.evidence, (x: EvidenceRecord) => Rival(s.workloads, id, x.contract))
                && t == s.(workloads := t.workloads, evidence := t.evidence)))
  }

  lemma ActivatedWhen(o: Oracles, w: W.Workloads, id: string, caller: string, tick: Tick)
    ensures var e := W.Activated(w, id, caller, tick);
            && (e.1.Ok? <==> MayActivate(w, id, caller))
            && (e.1.Err? ==> e.0 == w)
            && (e.1.Ok? && InForce(w, id) ==>
                  e.0 == w && e.1.value == w.contracts[id] && W.RetiredByActivating(w, id, caller) == {})
  {
    hide W.AsActivated, W.RetireAll;
  }

  lemma RivalsAreRetired(o: Oracles, w: W.Workloads, id: string, caller: string)
    requires W.ContractInvariant(o, w) && MayActivate(w, id, caller) && !InForce(w, id)
    ensures forall k :: k in W.RetiredByActivating(w, id, caller) <==> Rival(w, id, k)
  {
    hide ContractDigest;
  }

  lemma ActivatedMeans(o: Oracles, w: W.Workloads, id: string, caller: string, tick: Tick)
    requires W.ContractInvariant(o, w) && MayActivate(w, id, caller) && !InForce(w, id)
    ensures var e := W.Activated(w, id, caller, tick);
            && e.1.Ok? && InForce(e.0, id) && e.1.value == e.0.contracts[id]
            && ContractInForce(w, e.0, id, tick)
  {
    hide W.RetiredByActivating, Rival, W.Bound, W.Backed, W.NamesItsOwn;
    RivalsAreRetired(o, w, id, caller);
    var ids := W.RetiredByActivating(w, id, caller);
    assert w.contracts[id].id == id;
  }

  /** What activating a contract does. */
  lemma ContractIsActivated(o: Oracles, s: State, id: string, caller: string, tick: Tick)
    requires W.ContractInvariant(o, s.workloads)
    ensures var e := ActivateContract(o, s, id, caller, tick);
            ActivatesContract(s, id, caller, tick, e.0, e.1)
  {
    hide W.Activated, W.ContractInvariant, W.RetiredByActivating, StaleContracts, Staled, ContractInForce, MayActivate,
         Rival, InForce;
    ActivatedWhen(o, s.workloads, id, caller, tick);
    var ids := W.RetiredByActivating(s.workloads, id, caller);
    var f := StaleContracts(s.evidence, ids, ReplacedReason(o, id));
    StaleContractsMeans(s.evidence, ids, ReplacedReason(o, id));
    if ActivateContract(o, s, id, caller, tick).1.Ok? {
      if InForce(s.workloads, id) {
        NothingStaled(s.evidence, ReplacedReason(o, id));
      } else {
        ActivatedMeans(o, s.workloads, id, caller, tick);
        RivalsAreRetired(o, s.workloads, id, caller);
        StaledAlike(s.evidence, f, (x: EvidenceRecord) => x.contract in ids,
                    (x: EvidenceRecord) => Rival(s.workloads, id, x.contract));
      }
    }
  }

  lemma NothingStaled(e: E.Evidence, reason: string -> string)
    ensures StaleContracts(e, {}, reason) == e
  {
    assert StaleContracts(e, {}, reason).byId == e.byId;
  }

  // ---- declaring ----------------------------------------------------------

  /** A contract of the workload in force. */
  ghost predicate InForceFor(w: W.Workloads, id: string, contract: string) {
    InForce(w, contract) && w.contracts[contract].workload == id
  }

  /** The description is replaced unless the new one is empty. */
  function Redescribed(r: WorkloadRecord, description: string): WorkloadRecord {
    r.(description := if description == "" then r.description else description)
  }

  ghost predicate DeclaresWorkload(s: State, id: string, owner: string, generation: nat, tick: Tick, description: string,
                                   t: State, r: Result<WorkloadRecord>)
  {
    var w, v := s.workloads, t.workloads;
    if id == "" || generation == 0 then r == Err(InvalidArgument) && t == s
    else if id !in w.workloads then
      if |w.workloads| >= w.maxWorkloads then r == Err(CapacityExceeded) && t == s
      else
        && r == Ok(WorkloadRecord(id, owner, generation, WorkloadActive, "", tick, tick, 0, description))
        && v == w.(workloads := w.workloads[id := r.value]) && t == s.(workloads := v)
    else if owner != w.workloads[id].owner then r == Err(Unauthorized) && t == s
    else if generation < w.workloads[id].generation then r == Err(StaleGeneration) && t == s
    else if generation == w.workloads[id].generation then
      && v == w.(workloads := w.workloads[id := Redescribed(w.workloads[id], description)]) && t == s.(workloads := v)
      && r == if w.workloads[id].state == WorkloadRetired then Err(StaleGeneration) else Ok(v.workloads[id])
    else
      && r.Ok? && id in v.workloads && r.value == v.workloads[id]
      && v.workloads[id] == Redescribed(w.workloads[id].(generation := generation, state := WorkloadActive, activeContract := "",
                                                         activatedTick := tick), description)
      && OnlyWorkload(w, v, id)
      && Retires(w.contracts, v.contracts, tick, (c: WorkloadContract) => c.workload == id && c.state == ContractActive)
      && v == w.(contracts := v.contracts, workloads := v.workloads)
      && Staled(s.evidence, t.evidence, (x: EvidenceRecord) => InForceFor(w, id, x.contract))
      && t == s.(workloads := v, evidence := t.evidence)
  }

  lemma DeclaredAdvances(o: Oracles, w: W.Workloads, id: string, owner: string, generation: nat, tick: Tick,
                         description: string)
    requires W.ContractInvariant(o, w) && id != "" && id in w.workloads && owner == w.workloads[id].owner
    requires generation > w.workloads[id].generation
    ensures var e := W.Declared(w, id, owner, generation, tick, description);
            && e.1.Ok? && id in e.0.workloads && e.1.value == e.0.workloads[id]
            && e.0.workloads[id] == Redescribed(w.workloads[id].(generation := generation, state := WorkloadActive,
                                                                 activeContract := "", activatedTick := tick), description)
            && OnlyWorkload(w, e.0, id)
            && Retires(w.contracts, e.0.contracts, tick, (c: WorkloadContract) => c.workload == id && c.state == ContractActive)
            && e.0 == w.(contracts := e.0.contracts, workloads := e.0.workloads)
    ensures forall k :: k in W.RetiredByDeclaring(w, id, owner, generation) <==> InForceFor(w, id, k)
  {
    hide ContractDigest;
    W.DeclaringRetiresAll(o, w, id, generation);
  }

  /** What declaring a workload does, in each case. */
  lemma WorkloadIsDeclared(o: Oracles, s: State, id: string, owner: string, generation: nat, tick: Tick, description: string)
    requires W.ContractInvariant(o, s.workloads)
    ensures var e := DeclareWorkload(o, s, id, owner, generation, tick, description);
            DeclaresWorkload(s, id, owner, generation, tick, description, e.0, e.1)
  {
    hide W.ContractInvariant, StaleContracts, Staled, Retires, OnlyWorkload, InForceFor, W.BoundBelow, W.RetireAll;
    var w := s.workloads;
    var ids := W.RetiredByDeclaring(w, id, owner, generation);
    var reason := AdvancedReason(o, id);
    NothingStaled(s.evidence, reason);
    if id != "" && id in w.workloads && owner == w.workloads[id].owner && generation > w.workloads[id].generation {
      DeclaredAdvances(o, w, id, owner, generation, tick, description);
      StaleContractsMeans(s.evidence, ids, reason);
      StaledAlike(s.evidence, StaleContracts(s.evidence, ids, reason), (x: EvidenceRecord) => x.contract in ids,
                  (x: EvidenceRecord) => InForceFor(w, id, x.contract));
    }
  }

  // ---- proposing ----------------------------------------------------------

  /** Named, scoped, of a class, new, for a workload of the same owner at its generation, with room. */
  ghost predicate MayPropose(w: W.Workloads, c: WorkloadContract) {
    && c.id != "" && c.workloadGeneration != 0 && c.declaredClass != UnknownClass
    && (c.matchAnyRemoteAddress || c.remoteScope != [] || c.localPortScope != [] || c.remotePort != 0)
    && c.id !in w.contracts
    && AtThatGeneration(w, c.workload, c.workloadGeneration) && w.workloads[c.workload].owner == c.owner
    && |set k | k in w.contracts && w.contracts[k].state == ContractPending| < w.maxPending
    && |w.contracts| < w.maxContracts
  }

  ghost predicate ProposesContract(o: Oracles, s: State, c: WorkloadContract, tick: Tick, t: State,
                                   r: Result<WorkloadContract>)
  {
    && (r.Ok? <==> MayPropose(s.workloads, c))
    && (r.Err? ==> t == s)
    && (r.Ok? ==>
          && r.value == c.(state := ContractPending, createdTick := tick, activatedTick := 0, retiredTick := 0,
                           definitionDigest := ContractDigest(o, c))
          && t == s.(workloads := s.workloads.(contracts := s.workloads.contracts[c.id := r.value])))
  }

  lemma ContractIsProposed(o: Oracles, s: State, c: WorkloadContract, tick: Tick)
    ensures var e := ProposeContract(o, s, c, tick);
            ProposesContract(o, s, c, tick, e.0, e.1)
  {
    hide ContractDigest;
  }

  // ---- a retired contract never speaks again ------------------------------

  ghost predicate IsRetired(w: W.Workloads, id: string) {
    id in w.contracts && w.contracts[id].state == ContractRetired
  }

  lemma RetiredStays(s: State, t: State, id: string)
    requires DurableForward(s, t) && IsRetired(s.workloads, id)
    ensures IsRetired(t.workloads, id)
  {
  }

  lemma ActiveMeans(o: Oracles, w: W.Workloads, c: WorkloadContract)
    requires W.ContractInvariant(o, w)
    ensures c in W.ActiveContracts(w) <==> InForce(w, c.id) && w.contracts[c.id] == c
  {
    hide ContractDigest;
    EntriesAreValues(W.ActiveTable(w), c);
    if c in W.ActiveContracts(w) {
      var k :| k in W.ActiveTable(w) && W.ActiveTable(w)[k] == c;
      assert w.contracts[k].id == k;
    }
    if InForce(w, c.id) && w.contracts[c.id] == c {
      assert c.id in W.ActiveTable(w);
    }
  }

  /** Nothing the engine derives for any question comes from the contract. */
  ghost predicate SpeaksNoMore(o: Oracles, t: State, id: string, flow: FlowRecord, generation: nat, tick: Tick) {
    var q := Question(t, flow, generation, tick);
    forall r | r in DerivedRecords(o, q, |q.contracts|) :: r.contract != id
  }

  lemma RetiredSpeaksNoMore(o: Oracles, t: State, id: string, flow: FlowRecord, generation: nat, tick: Tick)
    requires W.ContractInvariant(o, t.workloads) && IsRetired(t.workloads, id)
    ensures SpeaksNoMore(o, t, id, flow, generation, tick)
  {
    hide W.ContractInvariant, W.ActiveContracts, Entries, E.FlowRecords, Authority, DerivedRecords, Speaks, Statement,
         D.IsRevoked;
    var q := Question(t, flow, generation, tick);
    forall r | r in DerivedRecords(o, q, |q.contracts|)
      ensures r.contract != id
    {
      DerivedMeans(o, q, |q.contracts|, r);
      var c :| c in q.contracts[..|q.contracts|] && Speaks(q, c) && Statement(q, c, r);
      ActiveMeans(o, t.workloads, c);
      StatementNames(q, c, r);
    }
  }

  lemma StatementNames(q: DecisionInput, c: WorkloadContract, r: EvidenceRecord)
    requires Statement(q, c, r)
    ensures r.contract == c.id
  {
  }

  /** Activating the contract is refused and changes nothing. */
  ghost predicate CannotBeActivated(o: Oracles, t: State, id: string, caller: string, tick: Tick) {
    var e := ActivateContract(o, t, id, caller, tick);
    e.0 == t && e.1.Err?
  }

  /** An owner's retirement retires the contract. */
  lemma OwnerRetires(o: Oracles, s: State, id: string, caller: string, tick: Tick)
    requires W.ContractInvariant(o, s.workloads) && OwnedBy(s.workloads, id, caller)
    ensures IsRetired(RetireContract(o, s, id, caller, tick).0.workloads, id)
  {
    hide RetireContract, Staled, ContractDigest;
    ContractIsRetired(o, s, id, caller, tick);
    assert s.workloads.contracts[id].id == id;
  }

  /** Retiring a workload retires its contracts in force. */
  lemma RetiredWithWorkload(o: Oracles, s: State, id: string, generation: nat, tick: Tick, contract: string)
    requires AtThatGeneration(s.workloads, id, generation) && InForceFor(s.workloads, id, contract)
    ensures IsRetired(RetireWorkload(o, s, id, generation, tick).0.workloads, contract)
  {
    hide RetireWorkload, Staled, OnlyWorkload;
    WorkloadIsRetired(o, s, id, generation, tick);
  }

  /**
   * Once retired, by its owner, by its workload or by a rival, a contract stays retired at every
   * later point of the life, restarts included: it cannot be activated, and no decision is
   * derived from it.
   */
  lemma RetiredForGood(o: Oracles, a: Life, s: State, b: Life, t: State, id: string, caller: string, flow: FlowRecord,
                       generation: nat, tick: Tick)
    requires DistinctIdentities(o) && Lived(o, a, s) && Lived(o, b, t) && After(a, b) && IsRetired(s.workloads, id)
    ensures IsRetired(t.workloads, id)
    ensures CannotBeActivated(o, t, id, caller, tick)
    ensures SpeaksNoMore(o, t, id, flow, generation, tick)
  {
    hide Inv, StateOf, Valid, DistinctIdentities, MemoBacked, DurableForward, SpeaksNoMore, ActivateContract,
         W.ContractInvariant, E.IndexInvariant, RecordsInvariant, TopicInvariant, Numbered, ContractInForce, Staled;
    LivesMoveForward(o, a, b);
    LivesAreSound(o, b);
    PartsOf(o, t);
    RetiredStays(s, t, id);
    ContractIsActivated(o, t, id, caller, tick);
    RetiredSpeaksNoMore(o, t, id, flow, generation, tick);
  }
}
