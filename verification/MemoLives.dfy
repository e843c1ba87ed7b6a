/**
 * Lives in which the memo disagrees with the engine.  They start from the initial policy and
 * break the condition of the agreement, one half of it each.
 */
module MemoLives {
  import opened Domain
  import opened Sorting
  import opened Enumeration
  import opened Numerals
  import opened DecisionEngine
  import opened DecisionTheorems
  import opened DecisionDigest
  import opened DigestExactness
  import opened ClassifierState
  import opened ClassifierMemo
  import opened ClassifierRuns
  import opened Restart
  import Policy
  import E = EvidenceStore
  import W = WorkloadRegistry
  import F = FlowRegistry
  import D = ClassificationIndex

  /** The query is answered from the memo with what the engine would not decide now. */
  ghost predicate Disagrees(o: Oracles, s: State, query: Query, tick: Tick) {
    && Subject(s, query).Ok? && query.flowKey in s.flows.current
    && var r := Classify(o, s, query, tick).1;
       && r.Ok? && r.value.memoHit
       && r.value.classification != Decision(o, Question(s, s.flows.current[query.flowKey], Subject(s, query).value, tick))
  }

  // ---- steps while nothing is submitted -----------------------------------

  lemma DeclareOnly(o: Oracles, s: State, id: string, owner: string, generation: nat, tick: Tick, description: string)
    requires s.evidence.byId == map[]
    ensures DeclareWorkload(o, s, id, owner, generation, tick, description).0
         == s.(workloads := W.Declared(s.workloads, id, owner, generation, tick, description).0)
  {
    hide W.Declared, W.RetiredByDeclaring;
  }

  lemma ActivateOnly(o: Oracles, s: State, id: string, caller: string, tick: Tick)
    requires s.evidence.byId == map[]
    ensures ActivateContract(o, s, id, caller, tick).0 == s.(workloads := W.Activated(s.workloads, id, caller, tick).0)
  {
    hide W.Activated, W.RetiredByActivating;
  }

  lemma RegisterOnly(o: Oracles, s: State, key: FlowKey, tick: Tick)
    requires s.evidence.byId == map[] && s.flows.current == map[] && s.flows.history == map[] && s.flows.maxFlows > 0
    ensures RegisterFlow(o, s, key, 1, "", tick).0
         == s.(flows := s.flows.(current := map[key := F.NewIncarnation(o.flowId(key), key, 1, 0, tick, "")]))
  {
  }

  // ---- one round: a workload with its contract ----------------------------

  predicate Proposable(c: WorkloadContract) {
    c.id != "" && c.workload != "" && c.workloadGeneration != 0 && c.declaredClass != UnknownClass && !W.Unscoped(c)
  }

  function InForce(o: Oracles, c: WorkloadContract): WorkloadContract {
    W.AsActivated(W.AsProposed(o, c, 1), 1)
  }

  /** Nothing pends, contracts are filed under their identities and none names `workload`. */
  ghost predicate Ready(w: W.Workloads, workload: string, id: string) {
    && workload !in w.workloads && id !in w.contracts
    && |w.workloads| < w.maxWorkloads && |w.contracts| < w.maxContracts && w.maxPending > 0
    && (forall k | k in w.contracts ::
          w.contracts[k].id == k && w.contracts[k].state == ContractActive && w.contracts[k].workload != workload)
  }

  function Declares(w: W.Workloads, c: WorkloadContract): W.Workloads {
    W.Declared(w, c.workload, c.owner, c.workloadGeneration, 1, "").0
  }

  function Proposes(o: Oracles, w: W.Workloads, c: WorkloadContract): W.Workloads {
    W.Proposed(o, w, c, 1).0
  }

  function Activates(w: W.Workloads, c: WorkloadContract): W.Workloads {
    W.Activated(w, c.id, c.owner, 1).0
  }

  lemma DeclaredFresh(w: W.Workloads, c: WorkloadContract)
    requires Proposable(c) && Ready(w, c.workload, c.id)
    ensures Declares(w, c)
         == w.(workloads := w.workloads[c.workload := W.NewWorkload(c.workload, c.owner, c.workloadGeneration, 1, "")])
  {
  }

  lemma ProposedFresh(o: Oracles, w: W.Workloads, c: WorkloadContract)
    requires Proposable(c) && c.id !in w.contracts && |w.contracts| < w.maxContracts && W.PendingContracts(w) == {}
             && w.maxPending > 0
    requires c.workload in w.workloads && w.workloads[c.workload].owner == c.owner
    requires w.workloads[c.workload].generation == c.workloadGeneration
    ensures Proposes(o, w, c) == w.(contracts := w.contracts[c.id := W.AsProposed(o, c, 1)])
  {
  }

  /** A pending contract of a workload in use can be activated. */
  ghost predicate Activatable(w: W.Workloads, c: WorkloadContract) {
    && c.id in w.contracts && w.contracts[c.id].state == ContractPending && w.contracts[c.id].id == c.id
    && w.contracts[c.id].workload == c.workload && w.contracts[c.id].owner == c.owner
    && w.contracts[c.id].workloadGeneration == c.workloadGeneration
    && c.workload in w.workloads && w.workloads[c.workload].generation == c.workloadGeneration
    && w.workloads[c.workload].state == WorkloadActive
  }

  lemma ActivatedOver(w: W.Workloads, c: WorkloadContract)
    requires Activatable(w, c)
    ensures var v := Activates(w, c);
            && v.contracts == W.RetireAll(w.contracts, W.RetiredByActivating(w, c.id, c.owner),
                                          1)[c.id := W.AsActivated(w.contracts[c.id], 1)]
            && v == w.(contracts := v.contracts, workloads := v.workloads)
            && v.workloads.Keys == w.workloads.Keys
            && (forall k | k in w.workloads ::
                  && v.workloads[k].id == w.workloads[k].id && v.workloads[k].generation == w.workloads[k].generation
                  && v.workloads[k].owner == w.workloads[k].owner && v.workloads[k].state == w.workloads[k].state)
  {
    hide W.RetireAll, W.RetiredByActivating;
  }

  lemma RetireNone(contracts: map<string, WorkloadContract>)
    ensures W.RetireAll(contracts, {}, 1) == contracts
  {
  }

  /** The registry after a workload was declared and its contract proposed and activated. */
  function Round(o: Oracles, w: W.Workloads, c: WorkloadContract): W.Workloads {
    Activates(Proposes(o, Declares(w, c), c), c)
  }

  /** What a round changes. */
  ghost predicate Adds(o: Oracles, w: W.Workloads, v: W.Workloads, c: WorkloadContract) {
    && v == w.(contracts := v.contracts, workloads := v.workloads)
    && v.contracts == w.contracts[c.id := InForce(o, c)]
    && v.workloads.Keys == w.workloads.Keys + {c.workload}
    && Runs(v, c)
    && (forall k | k in w.workloads :: v.workloads[k].id == w.workloads[k].id)
  }

  /** The contract's workload is active at its generation under its owner. */
  ghost predicate Runs(w: W.Workloads, c: WorkloadContract) {
    && c.workload in w.workloads && w.workloads[c.workload].id == c.workload && w.workloads[c.workload].owner == c.owner
    && w.workloads[c.workload].generation == c.workloadGeneration && w.workloads[c.workload].state == WorkloadActive
  }

  lemma RoundAdds(o: Oracles, w: W.Workloads, c: WorkloadContract)
    requires Proposable(c) && Ready(w, c.workload, c.id)
    ensures Adds(o, w, Round(o, w, c), c)
  {
    hide Declares, Proposes, Activates, W.AsActivated, W.RetiredByActivating, W.AsProposed, Activatable, Runs,
         Proposable, Ready, W.NewWorkload;
    ProposedAfresh(o, w, c);
    ActivatesAlone(Proposed(o, w, c), c);
    UpdateTwice(w.contracts, c.id, W.AsProposed(o, c, 1), InForce(o, c));
    NewIsNamed(c);
  }

  /** The registry with the workload declared and the contract proposed. */
  function Proposed(o: Oracles, w: W.Workloads, c: WorkloadContract): W.Workloads {
    w.(workloads := w.workloads[c.workload := W.NewWorkload(c.workload, c.owner, c.workloadGeneration, 1, "")],
       contracts := w.contracts[c.id := W.AsProposed(o, c, 1)])
  }

  lemma NewIsNamed(c: WorkloadContract)
    ensures W.NewWorkload(c.workload, c.owner, c.workloadGeneration, 1, "").id == c.workload
  {
  }

  lemma ProposedAfresh(o: Oracles, w: W.Workloads, c: WorkloadContract)
    requires Proposable(c) && Ready(w, c.workload, c.id)
    ensures var v := Proposed(o, w, c);
            && Proposes(o, Declares(w, c), c) == v && c.workload !in w.workloads
            && Activatable(v, c) && W.RetiredByActivating(v, c.id, c.owner) == {} && Runs(v, c)
  {
    hide Declares, Proposes, W.RetiredByActivating, W.PendingContracts, Ready, W.AsProposed, Activatable, Proposable;
    DeclaredFresh(w, c);
    var w1 := Declares(w, c);
    ReadyToPropose(w, w1, c);
    ProposedFresh(o, w1, c);
    ProposedActivatable(o, w1, Proposed(o, w, c), c);
    NothingRetires(o, w, Proposed(o, w, c), c);
  }

  /** Activation that retires nothing else. */
  lemma ActivatesAlone(w: W.Workloads, c: WorkloadContract)
    requires Activatable(w, c) && W.RetiredByActivating(w, c.id, c.owner) == {}
    ensures var v := Activates(w, c);
            && c.id in w.contracts && v.contracts == w.contracts[c.id := W.AsActivated(w.contracts[c.id], 1)]
            && v == w.(contracts := v.contracts, workloads := v.workloads)
            && v.workloads.Keys == w.workloads.Keys
            && Runs(v, c) == Runs(w, c)
            && (forall k | k in w.workloads :: v.workloads[k].id == w.workloads[k].id)
  {
    hide Activates, W.AsActivated, W.RetireAll, W.RetiredByActivating;
    ActivatedOver(w, c);
    RetireNone(w.contracts);
  }

  lemma ProposedActivatable(o: Oracles, w: W.Workloads, v: W.Workloads, c: WorkloadContract)
    requires v == w.(contracts := w.contracts[c.id := W.AsProposed(o, c, 1)])
    requires c.workload in w.workloads && w.workloads[c.workload].generation == c.workloadGeneration
    requires w.workloads[c.workload].state == WorkloadActive
    ensures Activatable(v, c)
  {
    hide ContractDigest;
  }

  lemma UpdateTwice<T>(m: map<string, T>, k: string, x: T, y: T)
    ensures m[k := x][k := y] == m[k := y]
  {
  }

  lemma ReadyToPropose(w: W.Workloads, v: W.Workloads, c: WorkloadContract)
    requires Ready(w, c.workload, c.id) && v == w.(workloads := v.workloads)
    ensures c.id !in v.contracts && |v.contracts| < v.maxContracts && W.PendingContracts(v) == {} && v.maxPending > 0
    ensures c.workload !in w.workloads
  {
  }

  lemma NothingRetires(o: Oracles, w: W.Workloads, v: W.Workloads, c: WorkloadContract)
    requires Ready(w, c.workload, c.id) && v.contracts == w.contracts[c.id := W.AsProposed(o, c, 1)]
    ensures W.RetiredByActivating(v, c.id, c.owner) == {}
  {
  }

  // ---- lives --------------------------------------------------------------

  function At(op: Op): Call {
    Call(op, 1, 1, 0)
  }

  function Newborn(): Life {
    Begin(Policy.InitialPolicy(), 1, 1)
  }

  function WithRound(life: Life, c: WorkloadContract): Life {
    Step(Step(Step(life, At(OpDeclareWorkload(c.workload, c.owner, c.workloadGeneration, ""))), At(OpProposeContract(c))),
         At(OpActivateContract(c.id, c.owner)))
  }

  /** The first state, except for its workloads. */
  function Stocked(w: W.Workloads): State {
    Initial(Policy.InitialPolicy(), 1, 1).(workloads := w)
  }

  lemma NewbornLives(o: Oracles)
    ensures Lived(o, Newborn(), Stocked(W.EmptyWorkloads(Policy.InitialPolicy().limits)))
  {
    hide Apply, Start, ImageOf;
    Policy.InitialIsCanonical();
  }

  lemma RoundLives(o: Oracles, life: Life, w: W.Workloads, c: WorkloadContract)
    requires Lived(o, life, Stocked(w)) && Clock(life) <= 1
    ensures Lived(o, WithRound(life, c), Stocked(Round(o, w, c))) && Clock(WithRound(life, c)) == 1
  {
    hide W.Declared, W.Proposed, W.Activated, DeclareWorkload, ActivateContract, Lived, RegisterFlow, SubmitEvidence,
         Classify, WithdrawEvidence, RevokeGeneration, SetPolicy, AdvanceEpoch, RegisterPublisher, EndSession,
         Heartbeat, ExpireLiveness;
    var s := Stocked(w);
    var declare := At(OpDeclareWorkload(c.workload, c.owner, c.workloadGeneration, ""));
    var propose, activate := At(OpProposeContract(c)), At(OpActivateContract(c.id, c.owner));
    DeclareOnly(o, s, c.workload, c.owner, c.workloadGeneration, 1, "");
    var s1 := Stocked(Declares(w, c));
    var s2 := Stocked(Proposes(o, s1.workloads, c));
    ActivateOnly(o, s2, c.id, c.owner, 1);
    LivedStep(o, life, s, declare);
    LivedStep(o, Step(life, declare), s1, propose);
    LivedStep(o, Step(Step(life, declare), propose), s2, activate);
  }

  lemma EntriesSingle<T(!new)>(m: map<string, T>, k: string)
    requires m.Keys == {k}
    ensures Entries(m) == [m[k]]
  {
    EntriesMembers(m);
    assert |m| == |m.Keys| == 1;
    assert m[k] in Entries(m);
  }

  // ---- a question about one contract --------------------------------------

  /** No evidence and one active contract, which covers the flow and exhausted its encoder. */
  ghost predicate Single(q: DecisionInput, c: WorkloadContract) {
    && q.evidence == [] && q.contracts == [c]
    && c.definitionDigest == ZERO_DIGEST && c.state == ContractActive && ContractCovers(c, q.flow.key)
    && WorkloadGeneration(q.workloads, c.workload) == Some(c.workloadGeneration)
  }

  lemma SingleSameKey(o: Oracles, a: DecisionInput, b: DecisionInput, c: WorkloadContract, d: WorkloadContract)
    requires Single(a, c) && Single(b, d) && b == a.(contracts := b.contracts, workloads := b.workloads)
    ensures KeyOf(o, a) == KeyOf(o, b)
  {
    hide TotalWidth, WorkloadGeneration, ContractCovers, InputFields, Sort;
    assert SortedContracts(a) == [c] && SortedContracts(b) == [d] by {
      SortSingle(ContractIdLess, c);
      SortSingle(ContractIdLess, d);
    }
    SameFieldsContracts([c], [d]);
    SameInputFields(a, b);
  }

  lemma SortSingle<T>(less: (T, T) -> bool, x: T)
    ensures Sort(less, [x]) == [x]
  {
    assert [x][1..] == [];
  }

  lemma SingleConsiders(o: Oracles, q: DecisionInput, c: WorkloadContract)
    requires Single(q, c)
    ensures Considered(o, q) == [DerivedRecord(o, q, c)]
  {
    hide DerivedRecord, DerivedId, ContractCovers, WorkloadGeneration;
    assert DerivedRecords(o, q, 0) == [];
    assert DerivedRecords(o, q, 1) == [DerivedRecord(o, q, c)];
  }

  lemma SingleDecidesOtherwise(o: Oracles, a: DecisionInput, b: DecisionInput, c: WorkloadContract, d: WorkloadContract)
    requires Single(a, c) && Single(b, d) && c.declaredClass != d.declaredClass
    ensures Decision(o, a) != Decision(o, b)
  {
    hide Decision, Considered, DerivedRecord, WorkloadGeneration, ContractCovers;
    SingleConsiders(o, a, c);
    SingleConsiders(o, b, d);
    DerivedClaim(o, a, c);
    DerivedClaim(o, b, d);
    if Decision(o, a) == Decision(o, b) {
      var y := EqualDecisionsShareRecords(o, a, b, DerivedRecord(o, a, c));
      assert false;
    }
  }

  // ---- the life -----------------------------------------------------------

  /** The stocked state with one flow registered. */
  function Opened(o: Oracles, w: W.Workloads, key: FlowKey): State {
    Stocked(w).(flows := F.EmptyFlows(Policy.InitialPolicy().limits).(current := map[key := FlowOf(o, key)]))
  }

  function FlowOf(o: Oracles, key: FlowKey): FlowRecord {
    F.NewIncarnation(o.flowId(key), key, 1, 0, 1, "")
  }

  function Registering(key: FlowKey): Call {
    At(OpRegisterFlow(key, 1, ""))
  }

  function Asking(key: FlowKey): Query {
    Query(key, 1, false)
  }

  lemma OpenedLives(o: Oracles, life: Life, w: W.Workloads, key: FlowKey)
    requires Lived(o, life, Stocked(w)) && Clock(life) <= 1
    ensures Lived(o, Step(life, Registering(key)), Opened(o, w, key))
  {
    hide Lived, RegisterFlow, SubmitEvidence, Classify, WithdrawEvidence, RevokeGeneration, SetPolicy, AdvanceEpoch,
         RegisterPublisher, EndSession, Heartbeat, ExpireLiveness, DeclareWorkload, ActivateContract, ProposeContract;
    RegisterOnly(o, Stocked(w), key, 1);
    LivedStep(o, life, Stocked(w), Registering(key));
  }

  lemma OpenedQuestion(o: Oracles, w: W.Workloads, key: FlowKey)
    ensures var s := Opened(o, w, key);
            && Subject(s, Asking(key)) == Ok(1) && s.flows.current[key] == FlowOf(o, key)
            && F.HasGeneration(s.flows, FlowOf(o, key).id, 1)
            && D.MemoInvariant(s.decisions) && s.decisions.bounds.memoEntries > 0 && s.decisions.memo == map[]
            && var q := Question(s, FlowOf(o, key), 1, 1);
               && q.evidence == [] && q.contracts == W.ActiveContracts(w) && q.workloads == Entries(w.workloads) && !q.revoked
               && q.flow.key == key
  {
    hide W.ActiveContracts, Entries;
    var s := Opened(o, w, key);
    assert key in s.flows.current;
  }

  // ---- definitions that exhaust their encoder -----------------------------

  /**
   * Two contracts of one workload, both too wide for their digest encoder, that cover the
   * flow and declare different classes.
   */
  predicate Rivals(a: WorkloadContract, b: WorkloadContract, key: FlowKey) {
    && Proposable(a) && Proposable(b) && a.id != b.id
    && a.workload == b.workload && a.owner == b.owner && a.workloadGeneration == b.workloadGeneration
    && !DefinitionFits(a) && !DefinitionFits(b)
    && ContractCovers(a, key) && ContractCovers(b, key) && a.declaredClass != b.declaredClass
  }

  function FirstWorkloads(): W.Workloads {
    W.EmptyWorkloads(Policy.InitialPolicy().limits)
  }

  function Rivalled(o: Oracles, a: WorkloadContract, b: WorkloadContract): W.Workloads {
    Activates(Proposes(o, Round(o, FirstWorkloads(), a), b), b)
  }

  lemma FirstRound(o: Oracles, a: WorkloadContract)
    requires Proposable(a)
    ensures var w := Round(o, FirstWorkloads(), a);
            && w.contracts == map[a.id := InForce(o, a)] && w.workloads.Keys == {a.workload} && Runs(w, a)
            && w.maxContracts == 4096 && w.maxPending == 1024
  {
    hide Round, InForce;
    assert Ready(FirstWorkloads(), a.workload, a.id);
    RoundAdds(o, FirstWorkloads(), a);
  }

  lemma OnlyFirstActive(o: Oracles, w: W.Workloads, a: WorkloadContract)
    requires w.contracts == map[a.id := InForce(o, a)]
    ensures W.ActiveTable(w) == w.contracts && W.PendingContracts(w) == {}
  {
    hide ContractDigest;
  }

  lemma FirstIsRetired(o: Oracles, w: W.Workloads, a: WorkloadContract, b: WorkloadContract, key: FlowKey)
    requires Rivals(a, b, key) && w.contracts == map[a.id := InForce(o, a), b.id := W.AsProposed(o, b, 1)] && Activatable(w, b)
    ensures W.RetiredByActivating(w, b.id, b.owner) == {a.id}
  {
    hide ContractDigest, DefinitionFits, ContractCovers, W.Unscoped;
    assert W.ActivationFault(w, b.id, b.owner).None?;
  }

  lemma OnlySecondActive(o: Oracles, w: W.Workloads, a: WorkloadContract, b: WorkloadContract)
    requires a.id != b.id
    requires w.contracts == W.RetireAll(map[a.id := InForce(o, a), b.id := W.AsProposed(o, b, 1)], {a.id},
                                        1)[b.id := InForce(o, b)]
    ensures W.ActiveTable(w) == map[b.id := InForce(o, b)]
  {
    hide ContractDigest;
  }

  lemma RivalledRegistry(o: Oracles, a: WorkloadContract, b: WorkloadContract, key: FlowKey)
    requires Rivals(a, b, key)
    ensures var w := Rivalled(o, a, b);
            W.ActiveTable(w) == map[b.id := InForce(o, b)] && w.workloads.Keys == {b.workload} && Runs(w, b)
  {
    hide Round, Proposes, Activates, W.AsProposed, W.AsActivated, W.RetireAll, W.RetiredByActivating, W.ActiveTable,
         W.PendingContracts, Activatable, DefinitionFits, ContractCovers, W.Unscoped;
    var w := Round(o, FirstWorkloads(), a);
    FirstRound(o, a);
    OnlyFirstActive(o, w, a);
    assert |w.contracts| == 1;
    ProposedFresh(o, w, b);
    var v := Proposes(o, w, b);
    ProposedActivatable(o, w, v, b);
    ActivatedOver(v, b);
    FirstIsRetired(o, v, a, b, key);
    OnlySecondActive(o, Rivalled(o, a, b), a, b);
  }

  lemma InForceClaims(o: Oracles, c: WorkloadContract, key: FlowKey)
    requires !DefinitionFits(c) && ContractCovers(c, key)
    ensures var d := InForce(o, c);
            && d.definitionDigest == ZERO_DIGEST && d.state == ContractActive && ContractCovers(d, key)
            && d.workload == c.workload && d.workloadGeneration == c.workloadGeneration && d.declaredClass == c.declaredClass
  {
    hide DefinitionWidth;
  }

  lemma ListedAlone(w: W.Workloads, c: WorkloadContract)
    requires w.workloads.Keys == {c.workload} && Runs(w, c)
    ensures WorkloadGeneration(Entries(w.workloads), c.workload) == Some(c.workloadGeneration)
  {
    EntriesSingle(w.workloads, c.workload);
  }

  lemma SingleQuestion(o: Oracles, q: DecisionInput, w: W.Workloads, c: WorkloadContract)
    requires !DefinitionFits(c) && ContractCovers(c, q.flow.key)
    requires W.ActiveTable(w) == map[c.id := InForce(o, c)] && w.workloads.Keys == {c.workload} && Runs(w, c)
    requires q.evidence == [] && q.contracts == W.ActiveContracts(w) && q.workloads == Entries(w.workloads)
    ensures Single(q, InForce(o, c))
  {
    hide DefinitionFits, ContractCovers, InForce, WorkloadGeneration, Entries, W.ActiveTable, Runs;
    InForceClaims(o, c, q.flow.key);
    ListedAlone(w, c);
    EntriesSingle(W.ActiveTable(w), c.id);
  }

  function RivalLife(a: WorkloadContract, b: WorkloadContract, key: FlowKey): Life {
    var begun := Step(WithRound(Newborn(), a), Registering(key));
    Step(Step(Step(begun, At(OpClassify(Asking(key)))), At(OpProposeContract(b))), At(OpActivateContract(b.id, b.owner)))
  }

  /** The state the life ends in: the memo of the first answer, and the second contract in force. */
  ghost function RivalState(o: Oracles, a: WorkloadContract, b: WorkloadContract, key: FlowKey): State {
    Classify(o, Opened(o, Round(o, FirstWorkloads(), a), key), Asking(key), 1).0.(workloads := Rivalled(o, a, b))
  }

  lemma AnswerKeepsRest(o: Oracles, s: State, query: Query, tick: Tick)
    ensures var t := Classify(o, s, query, tick).0; t == s.(decisions := t.decisions)
  {
    hide Decision, KeyOf, Question, D.MemoStored, D.Recorded, F.HasGeneration;
  }

  lemma RivalLives(o: Oracles, a: WorkloadContract, b: WorkloadContract, key: FlowKey)
    ensures Lived(o, RivalLife(a, b, key), RivalState(o, a, b, key))
  {
    hide W.Declared, W.Proposed, W.Activated, DeclareWorkload, ActivateContract, Lived, RegisterFlow, SubmitEvidence,
         Classify, WithdrawEvidence, RevokeGeneration, SetPolicy, AdvanceEpoch, RegisterPublisher, EndSession,
         Heartbeat, ExpireLiveness, Round, WithRound;
    NewbornLives(o);
    RoundLives(o, Newborn(), FirstWorkloads(), a);
    var w := Round(o, FirstWorkloads(), a);
    var life, s := Step(WithRound(Newborn(), a), Registering(key)), Opened(o, w, key);
    OpenedLives(o, WithRound(Newborn(), a), w, key);
    var ask, propose, activate := At(OpClassify(Asking(key))), At(OpProposeContract(b)), At(OpActivateContract(b.id, b.owner));
    LivedStep(o, life, s, ask);
    AnswerKeepsRest(o, s, Asking(key), 1);
    var s1 := Classify(o, s, Asking(key), 1).0;
    LivedStep(o, Step(life, ask), s1, propose);
    var s2 := s1.(workloads := Proposes(o, w, b));
    ActivateOnly(o, s2, b.id, b.owner, 1);
    LivedStep(o, Step(Step(life, ask), propose), s2, activate);
  }

  lemma RivalQuestions(o: Oracles, a: WorkloadContract, b: WorkloadContract, key: FlowKey)
    requires Rivals(a, b, key)
    ensures var flow := FlowOf(o, key);
            var p := Question(Opened(o, Round(o, FirstWorkloads(), a), key), flow, 1, 1);
            var q := Question(RivalState(o, a, b, key), flow, 1, 1);
            && Single(p, InForce(o, a)) && Single(q, InForce(o, b))
                && q == p.(contracts := q.contracts, workloads := q.workloads)
            && KeyOf(o, p) in RivalState(o, a, b, key).decisions.memo
            && RivalState(o, a, b, key).decisions.memo[KeyOf(o, p)] == Decision(o, p)
  {
    hide Round, Rivalled, InForce, Classify, Answered, Decision, KeyOf, W.ActiveTable, Runs, Single, D.MemoInvariant,
         F.HasGeneration, W.Unscoped, DefinitionFits, ContractCovers, Entries, E.FlowRecords, Opened;
    var w, v := Round(o, FirstWorkloads(), a), Rivalled(o, a, b);
    var s, flow := Opened(o, w, key), FlowOf(o, key);
    OpenedQuestion(o, w, key);
    FirstRound(o, a);
    OnlyFirstActive(o, w, a);
    RivalledRegistry(o, a, b, key);
    var p := Question(s, flow, 1, 1);
    SingleQuestion(o, p, w, a);
    MissIsRemembered(o, s, flow, 1, 1);
    ClassifyCases(o, s, Asking(key), 1);
    var t := Classify(o, s, Asking(key), 1).0;
    WorkloadsOnly(t, v, flow);
    SingleQuestion(o, Question(t.(workloads := v), flow, 1, 1), v, b);
  }

  lemma WorkloadsOnly(s: State, w: W.Workloads, flow: FlowRecord)
    ensures var q := Question(s.(workloads := w), flow, 1, 1);
            q == Question(s, flow, 1, 1).(contracts := W.ActiveContracts(w), workloads := Entries(w.workloads))
  {
    hide E.FlowRecords, W.ActiveContracts, Entries;
  }

  /** The same flow, the same query, and one memo entry. */
  lemma HitDisagrees(o: Oracles, s: State, key: FlowKey, was: DecisionInput)
    requires Subject(s, Asking(key)) == Ok(1) && key in s.flows.current
    requires var q := Question(s, s.flows.current[key], 1, 1);
             && KeyOf(o, was) == KeyOf(o, q) && KeyOf(o, was) in s.decisions.memo
             && s.decisions.memo[KeyOf(o, was)] == Decision(o, was) && Decision(o, was) != Decision(o, q)
    ensures Disagrees(o, s, Asking(key), 1)
  {
    hide Decision, KeyOf, Question, Answered, Classify, Subject;
    ClassifyCases(o, s, Asking(key), 1);
    AnsweredValue(o, s, Question(s, s.flows.current[key], 1, 1));
  }

  /** The query about the key is answered at tick 1, and not with what the engine decides. */
  ghost predicate AnswersWrongly(o: Oracles, s: State, key: FlowKey) {
    Disagrees(o, s, Asking(key), 1)
  }

  /** The question behind that query fits its encoder. */
  ghost predicate AskedFits(o: Oracles, s: State, key: FlowKey) {
    Fits(Question(s, FlowOf(o, key), 1, 1))
  }

  /**
   * Definitions that exhaust their encoder break the agreement within any other bound: the
   * contract in force is replaced, and the query is still answered with the class of the old
   * one, although the evidence set of one contract fits its encoder.
   */
  lemma WideDefinitionsDisagree(o: Oracles, a: WorkloadContract, b: WorkloadContract, key: FlowKey)
    requires Rivals(a, b, key)
    ensures Lived(o, RivalLife(a, b, key), RivalState(o, a, b, key))
    ensures AnswersWrongly(o, RivalState(o, a, b, key), key)
    ensures AskedFits(o, RivalState(o, a, b, key), key)
  {
    hide Lived, RivalLife, RivalState, Single, Decision, KeyOf, Question, Disagrees, Round, Opened, DefinitionFits,
         ContractCovers, InForce, Subject, Fits;
    RivalLives(o, a, b, key);
    RivalQuestions(o, a, b, key);
    RivalFrame(o, a, b, key);
    var p := Question(Opened(o, Round(o, FirstWorkloads(), a), key), FlowOf(o, key), 1, 1);
    var q := Question(RivalState(o, a, b, key), FlowOf(o, key), 1, 1);
    SingleSameKey(o, p, q, InForce(o, a), InForce(o, b));
    InForceClaims(o, a, key);
    InForceClaims(o, b, key);
    SingleDecidesOtherwise(o, p, q, InForce(o, a), InForce(o, b));
    HitDisagrees(o, RivalState(o, a, b, key), key, p);
    SingleFits(q, InForce(o, b));
  }

  lemma SingleFits(q: DecisionInput, c: WorkloadContract)
    requires Single(q, c)
    ensures Fits(q)
  {
    hide Fits, WorkloadGeneration, ContractCovers;
    FitsExactlyWhen(q);
  }

  lemma RivalFrame(o: Oracles, a: WorkloadContract, b: WorkloadContract, key: FlowKey)
    ensures var s := RivalState(o, a, b, key);
            Subject(s, Asking(key)) == Ok(1) && key in s.flows.current && s.flows.current[key] == FlowOf(o, key)
  {
    hide Classify, Round, Rivalled, W.ActiveContracts, Entries, E.FlowRecords;
    AnswerKeepsRest(o, Opened(o, Round(o, FirstWorkloads(), a), key), Asking(key), 1);
    OpenedQuestion(o, Round(o, FirstWorkloads(), a), key);
  }

  /** A contract within the bounds of the wire whose 3300 addresses exhaust its encoder. */
  function Broad(id: string, declared: SemanticClass, key: FlowKey): WorkloadContract {
    WorkloadContract(id, "w", 1, "p", ContractPending, declared, seq(3300, _ => key.remoteAddress), [], 0,
                     UnknownTransport, false,
                     ContractDerived, ZERO_DIGEST, 0, 0, 0, "")
  }

  lemma BroadRivals(key: FlowKey)
    ensures Rivals(Broad("a", Collective, key), Broad("b", Checkpoint, key), key)
  {
    var a, b := Broad("a", Collective, key), Broad("b", Checkpoint, key);
    assert a.remoteScope[0] == key.remoteAddress && b.remoteScope[0] == key.remoteAddress;
  }

  // ---- an evidence set that exhausts its encoder --------------------------

  function Name(i: nat): string {
    Numeral(16, i)
  }

  function Plain(i: nat): WorkloadContract {
    WorkloadContract(Name(i), Name(i), 1, "p", ContractPending, Collective, [], [], 0, UnknownTransport, true, ContractDerived,
                     ZERO_DIGEST, 0, 0, 0, "")
  }

  lemma NamesDiffer(i: nat, j: nat)
    requires Name(i) == Name(j)
    ensures i == j
  {
    hide Numeral;
    ValueOfNumeral(16, i);
    ValueOfNumeral(16, j);
  }

  function StockLife(k: nat): Life {
    if k == 0 then Newborn() else WithRound(StockLife(k - 1), Plain(k - 1))
  }

  function Stock(o: Oracles, k: nat): W.Workloads {
    if k == 0 then FirstWorkloads() else Round(o, Stock(o, k - 1), Plain(k - 1))
  }

  lemma {:induction false} StockLives(o: Oracles, k: nat)
    ensures Lived(o, StockLife(k), Stocked(Stock(o, k))) && Clock(StockLife(k)) <= 1
  {
    hide Lived, Round, WithRound, Plain, Stocked, Newborn;
    if k == 0 {
      NewbornLives(o);
      NewbornClock();
    } else {
      StockLives(o, k - 1);
      RoundLives(o, StockLife(k - 1), Stock(o, k - 1), Plain(k - 1));
    }
  }

  lemma NewbornClock()
    ensures Clock(Newborn()) == 0
  {
  }

  /** The first `k` names are taken, each by a workload and its contract in force. */
  ghost predicate Filled(o: Oracles, w: W.Workloads, k: nat) {
    && |w.workloads| == k && |w.contracts| == k && w.maxWorkloads == 4096 && w.maxContracts == 4096 && w.maxPending == 1024
    && (forall id | id in w.workloads :: exists i | 0 <= i < k :: id == Name(i))
    && (forall id | id in w.contracts :: exists i | 0 <= i < k :: id == Name(i) && w.contracts[id] == InForce(o, Plain(i)))
  }

  lemma FilledReady(o: Oracles, w: W.Workloads, k: nat)
    requires Filled(o, w, k) && k < 4096
    ensures Ready(w, Name(k), Name(k)) && Proposable(Plain(k))
  {
    hide Name, ContractDigest;
    forall i | Name(i) == Name(k)
      ensures i == k
    {
      NamesDiffer(i, k);
    }
    assert Name(k) != "" by {
      NameIsText(k);
    }
    forall id | id in w.contracts
      ensures w.contracts[id].id == id && w.contracts[id].state == ContractActive && w.contracts[id].workload != Name(k)
    {
      var i :| 0 <= i < k && id == Name(i) && w.contracts[id] == InForce(o, Plain(i));
    }
  }

  lemma NameIsText(i: nat)
    ensures Name(i) != ""
  {
  }

  lemma FilledGrows(o: Oracles, w: W.Workloads, v: W.Workloads, k: nat)
    requires Filled(o, w, k) && Ready(w, Name(k), Name(k)) && Adds(o, w, v, Plain(k))
    ensures Filled(o, v, k + 1)
  {
    hide Name, InForce, Runs;
    assert |v.workloads| == |v.workloads.Keys| && |w.workloads| == |w.workloads.Keys|;
    assert |v.contracts| == k + 1;
    forall id | id in v.workloads
      ensures exists i | 0 <= i < k + 1 :: id == Name(i)
    {
      if id in w.workloads {
        var i :| 0 <= i < k && id == Name(i);
      }
    }
    forall id | id in v.contracts
      ensures exists i | 0 <= i < k + 1 :: id == Name(i) && v.contracts[id] == InForce(o, Plain(i))
    {
      if id != Name(k) {
        var i :| 0 <= i < k && id == Name(i) && w.contracts[id] == InForce(o, Plain(i));
      }
    }
  }

  lemma {:induction false} StockFills(o: Oracles, k: nat)
    requires k <= 4096
    ensures Filled(o, Stock(o, k), k)
  {
    hide Round, Adds, Ready, Proposable, Name, InForce;
    if k > 0 {
      var w := Stock(o, k - 1);
      StockFills(o, k - 1);
      FilledReady(o, w, k - 1);
      RoundAdds(o, w, Plain(k - 1));
      FilledGrows(o, w, Round(o, w, Plain(k - 1)), k - 1);
    }
  }

  /** Contract digests are 32 bytes wide. */
  ghost predicate FullWidth(o: Oracles) {
    forall x :: |o.contractDigest(x)| == 32
  }

  lemma FilledQuestion(o: Oracles, w: W.Workloads, k: nat, c: WorkloadContract)
    requires Filled(o, w, k) && FullWidth(o)
    ensures |W.ActiveContracts(w)| == k
    ensures c in W.ActiveContracts(w) ==> |c.definitionDigest| == 32
  {
    hide Name;
    assert W.ActiveTable(w) == w.contracts;
    EntriesAreValues(w.contracts, c);
    if c in W.ActiveContracts(w) {
      var id :| id in w.contracts && w.contracts[id] == c;
      var i :| 0 <= i < k && id == Name(i) && w.contracts[id] == InForce(o, Plain(i));
    }
  }

  /** Past this many active contracts the evidence set no longer fits. */
  const TOO_MANY: nat := 1770

  lemma TooManyDoNotFit(o: Oracles, key: FlowKey)
    requires FullWidth(o)
    ensures !Fits(Question(Opened(o, Stock(o, TOO_MANY), key), FlowOf(o, key), 1, 1))
  {
    hide Filled, Stock, W.ActiveContracts, Opened, Fits, Question, F.HasGeneration, D.MemoInvariant;
    var w := Stock(o, TOO_MANY);
    StockFills(o, TOO_MANY);
    OpenedQuestion(o, w, key);
    var q := Question(Opened(o, w, key), FlowOf(o, key), 1, 1);
    FilledQuestion(o, w, TOO_MANY, Plain(0));
    forall c | c in q.contracts
      ensures |c.definitionDigest| == 32
    {
      FilledQuestion(o, w, TOO_MANY, c);
    }
    FitsExactlyWhen(q);
  }

  function Revoker(): SessionEnvelope {
    SessionEnvelope("p", 1, "", 1, 1, DeclaredAuthenticated)
  }

  function CrowdedLife(o: Oracles, key: FlowKey): Life {
    var begun := Step(StockLife(TOO_MANY), Registering(key));
    Step(Step(begun, At(OpClassify(Asking(key)))), At(OpRevokeGeneration(Revoker(), o.flowId(key), 1, "")))
  }

  ghost function CrowdedState(o: Oracles, key: FlowKey): State {
    RevokeGeneration(o, Classify(o, Opened(o, Stock(o, TOO_MANY), key), Asking(key), 1).0, Revoker(), o.flowId(key), 1, "", 1).0
  }

  /**
   * An evidence set that exhausts its encoder breaks the agreement: under the initial policy
   * 1770 contracts come into force, a query is answered, its generation is revoked, and the
   * query is still answered from the memo as if it were not.
   */
  lemma CrowdedMemoDisagrees(o: Oracles, key: FlowKey)
    requires FullWidth(o)
    ensures Lived(o, CrowdedLife(o, key), CrowdedState(o, key)) && AnswersWrongly(o, CrowdedState(o, key), key)
  {
    hide Lived, Stock, StockLife, Opened, Decision, Question, Classify, RevokeGeneration, D.MemoInvariant,
         F.HasGeneration, Fits, W.ActiveContracts, Entries, Subject;
    var w := Stock(o, TOO_MANY);
    var s := Opened(o, w, key);
    CrowdedLives(o, key);
    OpenedQuestion(o, w, key);
    OpenedCounters(o, w, key);
    TooManyDoNotFit(o, key);
    OversizedAnswerGoesStale(o, s, Asking(key), Revoker(), "", 1);
    CrowdedFrame(o, key);
  }

  lemma OpenedCounters(o: Oracles, w: W.Workloads, key: FlowKey)
    ensures Opened(o, w, key).epoch == 1 && Opened(o, w, key).sequence == 0 && key in Opened(o, w, key).flows.current
    ensures FlowOf(o, key).id == o.flowId(key)
  {
  }

  lemma CrowdedFrame(o: Oracles, key: FlowKey)
    ensures var s := CrowdedState(o, key);
            Subject(s, Asking(key)) == Ok(1) && key in s.flows.current && s.flows.current[key] == FlowOf(o, key)
  {
    hide Classify, Stock, W.ActiveContracts, Entries, E.FlowRecords;
    AnswerKeepsRest(o, Opened(o, Stock(o, TOO_MANY), key), Asking(key), 1);
    OpenedQuestion(o, Stock(o, TOO_MANY), key);
  }

  lemma CrowdedLives(o: Oracles, key: FlowKey)
    ensures Lived(o, CrowdedLife(o, key), CrowdedState(o, key))
  {
    hide Lived, Stock, StockLife, Opened, Stocked, SubmitEvidence, Classify, WithdrawEvidence, RevokeGeneration,
         SetPolicy, AdvanceEpoch, RegisterPublisher, EndSession, Heartbeat, ExpireLiveness, DeclareWorkload,
         ActivateContract, ProposeContract, RegisterFlow;
    var w := Stock(o, TOO_MANY);
    StockLives(o, TOO_MANY);
    OpenedLives(o, StockLife(TOO_MANY), w, key);
    var life, s := Step(StockLife(TOO_MANY), Registering(key)), Opened(o, w, key);
    var ask, revoke := At(OpClassify(Asking(key))), At(OpRevokeGeneration(Revoker(), o.flowId(key), 1, ""));
    LivedStep(o, life, s, ask);
    LivedStep(o, Step(life, ask), Classify(o, s, Asking(key), 1).0, revoke);
  }
}
