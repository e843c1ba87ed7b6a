/**
 * Workloads and their contracts.  A contract is proposed, activated and retired; advancing or
 * retiring a workload retires what was bound to it.
 */
module WorkloadRegistry {
  import opened Domain
  import opened Enumeration

  datatype Workloads = Workloads(
    workloads: map<string, WorkloadRecord>,
    contracts: map<string, WorkloadContract>,
    maxWorkloads: nat,
    maxContracts: nat,
    maxPending: nat)

  function EmptyWorkloads(limits: ResourceLimits): Workloads {
    Workloads(map[], map[], limits.maxWorkloads, limits.maxContracts, limits.maxPendingContracts)
  }

  // ---- what the operations compute ----------------------------------------

  function RetiredAt(c: WorkloadContract, tick: Tick): WorkloadContract {
    c.(state := ContractRetired, retiredTick := tick)
  }

  function RetireAll(contracts: map<string, WorkloadContract>, ids: set<string>, tick: Tick): map<string, WorkloadContract> {
    map k | k in contracts :: if k in ids then RetiredAt(contracts[k], tick) else contracts[k]
  }

  /** The active contracts of a workload bound below a generation. */
  function BoundBelow(w: Workloads, workload: string, generation: nat): set<string> {
    set k | k in w.contracts && w.contracts[k].workload == workload
            && w.contracts[k].workloadGeneration < generation && w.contracts[k].state == ContractActive
  }

  function ActiveOf(w: Workloads, workload: string): set<string> {
    set k | k in w.contracts && w.contracts[k].workload == workload && w.contracts[k].state == ContractActive
  }

  function NewWorkload(id: string, owner: string, generation: nat, tick: Tick, description: string): WorkloadRecord {
    WorkloadRecord(id, owner, generation, WorkloadActive, "", tick, tick, 0, description)
  }

  function Described(r: WorkloadRecord, description: string): WorkloadRecord {
    if description == "" then r else r.(description := description)
  }

  function AdvancedWorkload(r: WorkloadRecord, generation: nat, tick: Tick, description: string): WorkloadRecord {
    Described(r.(generation := generation, state := WorkloadActive, activeContract := "", activatedTick := tick),
              description)
  }

  /** The contracts that declaring this generation retires. */
  function RetiredByDeclaring(w: Workloads, id: string, owner: string, generation: nat): set<string> {
    if id in w.workloads && owner == w.workloads[id].owner && generation > w.workloads[id].generation && id != ""
    then BoundBelow(w, id, generation)
    else {}
  }

  function Declared(w: Workloads, id: string, owner: string, generation: nat, tick: Tick, description: string)
    : (Workloads, Result<WorkloadRecord>)
  {
    if id == "" || generation == 0 then
      (w, Err(InvalidArgument))
    else if id !in w.workloads then
      if |w.workloads| >= w.maxWorkloads then
        (w, Err(CapacityExceeded))
      else
        var r := NewWorkload(id, owner, generation, tick, description);
        (w.(workloads := w.workloads[id := r]), Ok(r))
    else if owner != w.workloads[id].owner then
      (w, Err(Unauthorized))
    else if generation < w.workloads[id].generation then
      (w, Err(StaleGeneration))
    else if generation == w.workloads[id].generation then
      var r := Described(w.workloads[id], description);
      (w.(workloads := w.workloads[id := r]), if r.state == WorkloadRetired then Err(StaleGeneration) else Ok(r))
    else
      var r := AdvancedWorkload(w.workloads[id], generation, tick, description);
      (w.(workloads := w.workloads[id := r], contracts := RetireAll(w.contracts, BoundBelow(w, id, generation), tick)),
       Ok(r))
  }

  function WorkloadRetirement(w: Workloads, id: string, generation: nat, tick: Tick): (Workloads, Result<()>) {
    if id !in w.workloads then
      (w, Err(UnknownWorkload))
    else if generation != w.workloads[id].generation then
      (w, Err(StaleGeneration))
    else
      (w.(workloads := w.workloads[id := w.workloads[id].(state := WorkloadRetired, retiredTick := tick)],
          contracts := RetireAll(w.contracts, ActiveOf(w, id), tick)),
       Ok(()))
  }

  function PendingContracts(w: Workloads): set<string> {
    set k | k in w.contracts && w.contracts[k].state == ContractPending
  }

  predicate Unscoped(c: WorkloadContract) {
    !c.matchAnyRemoteAddress && c.remoteScope == [] && c.localPortScope == [] && c.remotePort == 0
  }

  /** Why a proposal is refused, if it is. */
  function ProposalFault(w: Workloads, c: WorkloadContract): Option<ErrorCode> {
    if c.id == "" || c.workloadGeneration == 0 || c.declaredClass == UnknownClass || Unscoped(c) then Some(InvalidArgument)
    else if c.id in w.contracts then Some(AlreadyExists)
    else if c.workload !in w.workloads then Some(UnknownWorkload)
    else if w.workloads[c.workload].owner != c.owner then Some(Unauthorized)
    else if w.workloads[c.workload].generation != c.workloadGeneration then Some(StaleGeneration)
    else if |PendingContracts(w)| >= w.maxPending then Some(CapacityExceeded)
    else if |w.contracts| >= w.maxContracts then Some(CapacityExceeded)
    else None
  }

  function AsProposed(o: Oracles, c: WorkloadContract, tick: Tick): WorkloadContract {
    c.(state := ContractPending, createdTick := tick, activatedTick := 0, retiredTick := 0,
       definitionDigest := ContractDigest(o, c))
  }

  function Proposed(o: Oracles, w: Workloads, c: WorkloadContract, tick: Tick): (Workloads, Result<WorkloadContract>) {
    var fault := ProposalFault(w, c);
    if fault.Some? then
      (w, Err(fault.value))
    else
      (w.(contracts := w.contracts[c.id := AsProposed(o, c, tick)]), Ok(AsProposed(o, c, tick)))
  }

  function ActivationFault(w: Workloads, id: string, caller: string): Option<ErrorCode> {
    if id !in w.contracts then Some(UnknownContract)
    else
      var c := w.contracts[id];
      if c.owner != caller then Some(Unauthorized)
      else if c.state == ContractRetired then Some(RetiredContract)
      else if c.workload !in w.workloads then Some(UnknownWorkload)
      else if w.workloads[c.workload].generation != c.workloadGeneration then Some(StaleGeneration)
      else if w.workloads[c.workload].state == WorkloadRetired then Some(RetiredContract)
      else None
  }

  function AsActivated(c: WorkloadContract, tick: Tick): WorkloadContract {
    c.(state := ContractActive, activatedTick := tick, retiredTick := 0)
  }

  /** The contracts that activating this one retires. */
  function RetiredByActivating(w: Workloads, id: string, caller: string): set<string> {
    if ActivationFault(w, id, caller).None? && w.contracts[id].state != ContractActive
    then set k | k in ActiveOf(w, w.contracts[id].workload) && w.contracts[k].id != w.contracts[id].id
    else {}
  }

  function Activated(w: Workloads, id: string, caller: string, tick: Tick): (Workloads, Result<WorkloadContract>) {
    var fault := ActivationFault(w, id, caller);
    if fault.Some? then
      (w, Err(fault.value))
    else
      var c := w.contracts[id];
      if c.state == ContractActive then
        (w, Ok(c))
      else
        var active := AsActivated(c, tick);
        (w.(contracts := RetireAll(w.contracts, RetiredByActivating(w, id, caller), tick)[id := active],
            workloads := w.workloads[c.workload := w.workloads[c.workload].(activeContract := c.id, state := WorkloadActive,
                                                                            activatedTick := tick)]),
         Ok(active))
  }

  function Withdrawn(w: Workloads, id: string): map<string, WorkloadRecord>
    requires id in w.contracts
  {
    var workload := w.contracts[id].workload;
    if workload in w.workloads && w.workloads[workload].activeContract == id
    then w.workloads[workload := w.workloads[workload].(activeContract := "")]
    else w.workloads
  }

  function ContractRetirement(w: Workloads, id: string, caller: string, tick: Tick): (Workloads, Result<()>) {
    if id !in w.contracts then
      (w, Err(UnknownContract))
    else if w.contracts[id].owner != caller then
      (w, Err(Unauthorized))
    else
      (w.(contracts := w.contracts[id := RetiredAt(w.contracts[id], tick)], workloads := Withdrawn(w, id)), Ok(()))
  }

  function ActiveTable(w: Workloads): map<string, WorkloadContract> {
    map k | k in w.contracts && w.contracts[k].state == ContractActive :: w.contracts[k]
  }

  /** The active contracts in identity order. */
  ghost function ActiveContracts(w: Workloads): seq<WorkloadContract> {
    Entries(ActiveTable(w))
  }

  function RestoredWorkload(w: Workloads, r: WorkloadRecord): (Workloads, Result<()>) {
    if r.id !in w.workloads && |w.workloads| >= w.maxWorkloads then
      (w, Err(CapacityExceeded))
    else
      (w.(workloads := w.workloads[r.id := r]), Ok(()))
  }

  function RestoredContract(o: Oracles, w: Workloads, c: WorkloadContract): (Workloads, Result<()>) {
    if c.id !in w.contracts && |w.contracts| >= w.maxContracts then
      (w, Err(CapacityExceeded))
    else if c.definitionDigest != ZERO_DIGEST && c.definitionDigest != ContractDigest(o, c) then
      (w, Err(CorruptState))
    else
      (w.(contracts := w.contracts[c.id := c.(definitionDigest := ContractDigest(o, c))]), Ok(()))
  }

  // ---- the active-contract invariant --------------------------------------

  /** The contract names a workload of the same owner that has not fallen behind it. */
  ghost predicate Bound(o: Oracles, w: Workloads, c: WorkloadContract) {
    && c.workload in w.workloads
    && w.workloads[c.workload].owner == c.owner
    && c.workloadGeneration <= w.workloads[c.workload].generation
    && c.definitionDigest == ContractDigest(o, c)
  }

  /** An active contract is the one its workload names, at the workload's own generation. */
  ghost predicate Backed(w: Workloads, c: WorkloadContract) {
    && c.workload in w.workloads
    && w.workloads[c.workload].generation == c.workloadGeneration
    && w.workloads[c.workload].state != WorkloadRetired
    && w.workloads[c.workload].activeContract == c.id
  }

  /** A workload that names a contract names one of its own. */
  ghost predicate NamesItsOwn(w: Workloads, r: WorkloadRecord) {
    r.activeContract != "" ==> r.activeContract in w.contracts && w.contracts[r.activeContract].workload == r.id
  }

  ghost predicate ContractInvariant(o: Oracles, w: Workloads) {
    && (forall k | k in w.workloads :: w.workloads[k].id == k && NamesItsOwn(w, w.workloads[k]))
    && (forall k | k in w.contracts ::
          && k != ""
          && w.contracts[k].id == k
          && Bound(o, w, w.contracts[k])
          && (w.contracts[k].state == ContractActive ==> Backed(w, w.contracts[k])))
  }

  /** A workload has at most one active contract. */
  lemma AtMostOneActive(o: Oracles, w: Workloads, a: string, b: string)
    requires ContractInvariant(o, w)
    requires a in w.contracts && b in w.contracts
    requires w.contracts[a].state == ContractActive && w.contracts[b].state == ContractActive
    requires w.contracts[a].workload == w.contracts[b].workload
    ensures a == b
  {
  }

  /** Declaring a higher generation retires every active contract of the workload. */
  lemma DeclaringRetiresAll(o: Oracles, w: Workloads, id: string, generation: nat)
    requires ContractInvariant(o, w) && id in w.workloads && generation > w.workloads[id].generation
    ensures BoundBelow(w, id, generation) == ActiveOf(w, id)
  {
  }

  lemma DeclaredKeepsInvariant(o: Oracles, w: Workloads, id: string, owner: string, generation: nat, tick: Tick,
                               description: string)
    requires ContractInvariant(o, w)
    ensures ContractInvariant(o, Declared(w, id, owner, generation, tick, description).0)
  {
    hide ContractDigest;
    RetiredSameDigest(o, w.contracts, tick);
    if id in w.workloads && generation > w.workloads[id].generation {
      DeclaringRetiresAll(o, w, id, generation);
    }
  }

  lemma RetiredSameDigest(o: Oracles, contracts: map<string, WorkloadContract>, tick: Tick)
    ensures forall k | k in contracts :: ContractDigest(o, RetiredAt(contracts[k], tick)) == ContractDigest(o, contracts[k])
  {
    forall k | k in contracts
      ensures ContractDigest(o, RetiredAt(contracts[k], tick)) == ContractDigest(o, contracts[k])
    {
      assert ContractContent(RetiredAt(contracts[k], tick)) == ContractContent(contracts[k]);
    }
  }

  lemma WorkloadRetirementKeepsInvariant(o: Oracles, w: Workloads, id: string, generation: nat, tick: Tick)
    requires ContractInvariant(o, w)
    ensures ContractInvariant(o, WorkloadRetirement(w, id, generation, tick).0)
  {
  }

  lemma ProposedKeepsInvariant(o: Oracles, w: Workloads, c: WorkloadContract, tick: Tick)
    requires ContractInvariant(o, w)
    ensures ContractInvariant(o, Proposed(o, w, c, tick).0)
  {
    assert ContractContent(AsProposed(o, c, tick)) == ContractContent(c);
  }

  /** Activation retires at most one contract, so reporting a single one is complete. */
  lemma ActivationRetiresAtMostOne(o: Oracles, w: Workloads, id: string, caller: string)
    requires ContractInvariant(o, w)
    ensures |RetiredByActivating(w, id, caller)| <= 1
    ensures forall k | k in RetiredByActivating(w, id, caller) ::
              RetiredByActivating(w, id, caller) == {k} && w.workloads[w.contracts[id].workload].activeContract == k
  {
    var s := RetiredByActivating(w, id, caller);
    if s != {} {
      var k :| k in s;
      forall x | x in s
        ensures x == k
      {
        AtMostOneActive(o, w, x, k);
      }
      assert s == {k};
    }
  }

  lemma ActivatedKeepsInvariant(o: Oracles, w: Workloads, id: string, caller: string, tick: Tick)
    requires ContractInvariant(o, w)
    ensures ContractInvariant(o, Activated(w, id, caller, tick).0)
  {
    var v := Activated(w, id, caller, tick).0;
    if v != w {
      var c := w.contracts[id];
      assert ContractContent(AsActivated(c, tick)) == ContractContent(c);
      forall k | k in v.contracts
        ensures v.contracts[k].id == k && Bound(o, v, v.contracts[k])
        ensures v.contracts[k].state == ContractActive ==> Backed(v, v.contracts[k])
      {
        assert Bound(o, w, w.contracts[k]);
        assert ContractContent(v.contracts[k]) == ContractContent(w.contracts[k]);
        if k != id && w.contracts[k].workload == c.workload && w.contracts[k].state == ContractActive {
          assert k in RetiredByActivating(w, id, caller);
        }
      }
    }
  }

  lemma ContractRetirementKeepsInvariant(o: Oracles, w: Workloads, id: string, caller: string, tick: Tick)
    requires ContractInvariant(o, w)
    ensures ContractInvariant(o, ContractRetirement(w, id, caller, tick).0)
  {
    var v := ContractRetirement(w, id, caller, tick).0;
    if v != w {
      assert ContractContent(v.contracts[id]) == ContractContent(w.contracts[id]);
      forall k | k in v.contracts
        ensures v.contracts[k].id == k && Bound(o, v, v.contracts[k])
        ensures v.contracts[k].state == ContractActive ==> Backed(v, v.contracts[k])
      {
        assert Bound(o, w, w.contracts[k]);
      }
    }
  }

  // ---- contracts are immutable and only move forward ----------------------

  function Stage(s: ContractState): nat {
    match s
    case ContractPending => 0
    case ContractActive => 1
    case ContractRetired => 2
  }

  /** No contract is dropped, none changes its content or digest, none moves back. */
  ghost predicate ContractsForward(w: Workloads, v: Workloads) {
    forall k | k in w.contracts ::
      && k in v.contracts
      && ContractContent(v.contracts[k]) == ContractContent(w.contracts[k])
      && v.contracts[k].definitionDigest == w.contracts[k].definitionDigest
      && Stage(v.contracts[k].state) >= Stage(w.contracts[k].state)
  }

  lemma SameContractsForward(w: Workloads, v: Workloads)
    requires v.contracts == w.contracts
    ensures ContractsForward(w, v)
  {
  }

  lemma RetiredContractsForward(w: Workloads, v: Workloads, ids: set<string>, tick: Tick)
    requires v.contracts == RetireAll(w.contracts, ids, tick)
    ensures ContractsForward(w, v)
  {
  }

  lemma DeclaredForward(w: Workloads, id: string, owner: string, generation: nat, tick: Tick, description: string)
    ensures ContractsForward(w, Declared(w, id, owner, generation, tick, description).0)
  {
    hide ContractsForward, RetireAll, BoundBelow, NewWorkload, Described, AdvancedWorkload;
    var v := Declared(w, id, owner, generation, tick, description).0;
    if v.contracts == w.contracts {
      SameContractsForward(w, v);
    } else {
      RetiredContractsForward(w, v, BoundBelow(w, id, generation), tick);
    }
  }

  lemma WorkloadRetirementForward(w: Workloads, id: string, generation: nat, tick: Tick)
    ensures ContractsForward(w, WorkloadRetirement(w, id, generation, tick).0)
  {
  }

  lemma ProposedForward(o: Oracles, w: Workloads, c: WorkloadContract, tick: Tick)
    ensures ContractsForward(w, Proposed(o, w, c, tick).0)
  {
  }

  lemma ActivatedForward(w: Workloads, id: string, caller: string, tick: Tick)
    ensures ContractsForward(w, Activated(w, id, caller, tick).0)
  {
  }

  lemma ContractRetirementForward(w: Workloads, id: string, caller: string, tick: Tick)
    ensures ContractsForward(w, ContractRetirement(w, id, caller, tick).0)
  {
  }

  // ---- the registry as it runs --------------------------------------------

  class Registry {
    const maxWorkloads: nat
    const maxContracts: nat
    const maxPending: nat
    var workloads: map<string, WorkloadRecord>
    var contracts: map<string, WorkloadContract>

    ghost function State(): Workloads
      reads this
    {
      Workloads(workloads, contracts, maxWorkloads, maxContracts, maxPending)
    }

    constructor (limits: ResourceLimits)
      ensures State() == EmptyWorkloads(limits)
    {
      maxWorkloads, maxContracts, maxPending := limits.maxWorkloads, limits.maxContracts, limits.maxPendingContracts;
      workloads, contracts := map[], map[];
    }

    /** Retires, in one sweep, the active contracts of a workload bound below `generation`, if given. */
    method SweepContracts(workload: string, below: Option<nat>, except: Option<string>, tick: Tick)
      returns (retired: set<string>)
      modifies this`contracts
      ensures retired == set k | k in old(contracts) && Sweeps(old(contracts)[k], workload, below, except)
      ensures contracts == RetireAll(old(contracts), retired, tick)
    {
      var was, swept := contracts, contracts;
      retired := set k | k in was && Sweeps(was[k], workload, below, except);
      var todo := retired;
      while todo != {}
        invariant todo <= retired && swept.Keys == was.Keys
        invariant forall k | k in was ::
                    swept[k] == if k in retired && k !in todo then RetiredAt(was[k], tick) else was[k]
        decreases |todo|
      {
        var k :| k in todo;
        swept := swept[k := was[k].(state := ContractRetired, retiredTick := tick)];
        todo := todo - {k};
      }
      contracts := swept;
    }

    method DeclareWorkload(id: string, owner: string, generation: nat, tick: Tick, description: string)
      returns (r: Result<WorkloadRecord>, retired: set<string>)
      modifies this
      ensures (State(), r) == Declared(old(State()), id, owner, generation, tick, description)
      ensures retired == RetiredByDeclaring(old(State()), id, owner, generation)
    {
      retired := {};
      if id == "" || generation == 0 {
        return Err(InvalidArgument), {};
      }
      if id !in workloads {
        if |workloads| >= maxWorkloads {
          return Err(CapacityExceeded), {};
        }
        var created := NewWorkload(id, owner, generation, tick, description);
        workloads := workloads[id := created];
        return Ok(created), {};
      }
      var record := workloads[id];
      if owner != record.owner {
        return Err(Unauthorized), {};
      }
      if generation < record.generation {
        return Err(StaleGeneration), {};
      }
      if generation == record.generation {
        if description != "" {
          record := record.(description := description);
        }
        workloads := workloads[id := record];
        if record.state == WorkloadRetired {
          return Err(StaleGeneration), {};
        }
        return Ok(record), {};
      }
      retired := SweepContracts(id, Some(generation), None, tick);
      assert retired == BoundBelow(old(State()), id, generation);
      record := record.(generation := generation, state := WorkloadActive, activeContract := "", activatedTick := tick);
      if description != "" {
        record := record.(description := description);
      }
      workloads := workloads[id := record];
      r := Ok(record);
    }

    method RetireWorkload(id: string, generation: nat, tick: Tick) returns (r: Result<()>)
      modifies this
      ensures (State(), r) == WorkloadRetirement(old(State()), id, generation, tick)
    {
      if id !in workloads {
        return Err(UnknownWorkload);
      }
      if generation != workloads[id].generation {
        return Err(StaleGeneration);
      }
      workloads := workloads[id := workloads[id].(state := WorkloadRetired, retiredTick := tick)];
      var retired := SweepContracts(id, None, None, tick);
      assert retired == ActiveOf(old(State()), id);
      r := Ok(());
    }

    method ProposeContract(o: Oracles, contract: WorkloadContract, tick: Tick) returns (r: Result<WorkloadContract>)
      modifies this
      ensures (State(), r) == Proposed(o, old(State()), contract, tick)
    {
      if contract.id == "" || contract.workloadGeneration == 0 || contract.declaredClass == UnknownClass {
        return Err(InvalidArgument);
      }
      if !contract.matchAnyRemoteAddress && contract.remoteScope == [] && contract.localPortScope == []
         && contract.remotePort == 0
      {
        return Err(InvalidArgument);
      }
      if contract.id in contracts {
        return Err(AlreadyExists);
      }
      if contract.workload !in workloads {
        return Err(UnknownWorkload);
      }
      if workloads[contract.workload].owner != contract.owner {
        return Err(Unauthorized);
      }
      if workloads[contract.workload].generation != contract.workloadGeneration {
        return Err(StaleGeneration);
      }
      var pending := |set k | k in contracts && contracts[k].state == ContractPending|;
      if pending >= maxPending || |contracts| >= maxContracts {
        return Err(CapacityExceeded);
      }
      var proposal := AsProposed(o, contract, tick);
      contracts := contracts[proposal.id := proposal];
      r := Ok(proposal);
    }

    /** `retired` is the identity of a contract this activation displaced, or empty. */
    method ActivateContract(ghost o: Oracles, id: string, caller: string, tick: Tick)
      returns (r: Result<WorkloadContract>, retired: string)
      requires ContractInvariant(o, State())
      modifies this
      ensures (State(), r) == Activated(old(State()), id, caller, tick)
      ensures RetiredByActivating(old(State()), id, caller) == if retired == "" then {} else {retired}
    {
      retired := "";
      if id !in contracts {
        return Err(UnknownContract), "";
      }
      var contract := contracts[id];
      if contract.owner != caller {
        return Err(Unauthorized), "";
      }
      if contract.state == ContractRetired {
        return Err(RetiredContract), "";
      }
      if contract.workload !in workloads {
        return Err(UnknownWorkload), "";
      }
      if workloads[contract.workload].generation != contract.workloadGeneration {
        return Err(StaleGeneration), "";
      }
      if workloads[contract.workload].state == WorkloadRetired {
        return Err(RetiredContract), "";
      }
      if contract.state == ContractActive {
        return Ok(contract), "";
      }
      ActivationRetiresAtMostOne(o, State(), id, caller);
      var displaced := SweepContracts(contract.workload, None, Some(contract.id), tick);
      assert displaced == RetiredByActivating(old(State()), id, caller);
      if displaced != {} {
        retired :| retired in displaced;
      }
      contract := contract.(state := ContractActive, activatedTick := tick, retiredTick := 0);
      contracts := contracts[id := contract];
      var workload := workloads[contract.workload];
      workloads := workloads[contract.workload := workload.(activeContract := contract.id, state := WorkloadActive,
                                                            activatedTick := tick)];
      r := Ok(contract);
    }

    method RetireContract(id: string, caller: string, tick: Tick) returns (r: Result<()>)
      modifies this
      ensures (State(), r) == ContractRetirement(old(State()), id, caller, tick)
    {
      if id !in contracts {
        return Err(UnknownContract);
      }
      var contract := contracts[id];
      if contract.owner != caller {
        return Err(Unauthorized);
      }
      contracts := contracts[id := contract.(state := ContractRetired, retiredTick := tick)];
      if contract.workload in workloads && workloads[contract.workload].activeContract == id {
        workloads := workloads[contract.workload := workloads[contract.workload].(activeContract := "")];
      }
      r := Ok(());
    }

    method ActiveContractList(ghost o: Oracles) returns (out: seq<WorkloadContract>)
      requires ContractInvariant(o, State())
      ensures out == ActiveContracts(State())
    {
      var table := map k | k in contracts && contracts[k].state == ContractActive :: contracts[k];
      assert table == ActiveTable(State());
      out := SortedEntries(table, (c: WorkloadContract) => c.id);
    }

    method RestoreWorkload(record: WorkloadRecord) returns (r: Result<()>)
      modifies this
      ensures (State(), r) == RestoredWorkload(old(State()), record)
    {
      if record.id !in workloads && |workloads| >= maxWorkloads {
        return Err(CapacityExceeded);
      }
      workloads := workloads[record.id := record];
      r := Ok(());
    }

    method RestoreContract(o: Oracles, contract: WorkloadContract) returns (r: Result<()>)
      modifies this
      ensures (State(), r) == RestoredContract(o, old(State()), contract)
    {
      if contract.id !in contracts && |contracts| >= maxContracts {
        return Err(CapacityExceeded);
      }
      var recomputed := ContractDigest(o, contract);
      if contract.definitionDigest != ZERO_DIGEST && contract.definitionDigest != recomputed {
        return Err(CorruptState);
      }
      contracts := contracts[contract.id := contract.(definitionDigest := recomputed)];
      r := Ok(());
    }
  }

  /** Which contracts a sweep over a workload retires. */
  predicate Sweeps(c: WorkloadContract, workload: string, below: Option<nat>, except: Option<string>) {
    && c.workload == workload
    && c.state == ContractActive
    && (below.Some? ==> c.workloadGeneration < below.value)
    && (except.Some? ==> c.id != except.value)
  }
}
