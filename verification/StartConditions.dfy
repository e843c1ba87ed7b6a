/**
 * When a coordinator starts from the image of a sound state: exactly when its counters are not
 * exhausted and every table fits the capacity it was configured with.
 */
module StartConditions {
  import opened Domain
  import opened ClassifierState
  import opened ClassifierInvariant
  import opened ClassifierSteps
  import opened Restart
  import opened RestartSafety
  import E = EvidenceStore
  import P = PublisherRegistry
  import W = WorkloadRegistry
  import F = FlowRegistry
  import D = ClassificationIndex

  // ---- filling a bounded table --------------------------------------------

  lemma {:induction false} ListingSize<K(!new), T(!new)>(table: map<K, T>, key: T -> K, xs: seq<T>)
    requires Lists(table, key, xs)
    ensures |xs| == |table|
    decreases |xs|
  {
    if xs == [] {
      assert table.Keys == {};
    } else {
      var init, last := xs[..|xs| - 1], xs[|xs| - 1];
      var rest := table - {key(last)};
      forall k | k in rest
        ensures exists i | 0 <= i < |init| :: key(init[i]) == k
      {
        var i :| 0 <= i < |xs| && key(xs[i]) == k;
        assert key(init[i]) == k;
      }
      assert Lists(rest, key, init);
      ListingSize(rest, key, init);
      assert rest.Keys == table.Keys - {key(last)} && |rest| == |rest.Keys| && |table| == |table.Keys|;
    }
  }

  /** The step takes a new key exactly while the table is below the bound. */
  ghost predicate Fills<S(!new), T(!new), K(!new)>(step: (S, T) -> (S, Result<()>), key: T -> K, keys: S -> set<K>,
                                                   max: nat, s: S,
                                                   x: T)
  {
    key(x) !in keys(s) ==>
      var (t, r) := step(s, x);
      (r.Ok? <==> |keys(s)| < max) && (r.Ok? ==> keys(t) == keys(s) + {key(x)})
  }

  ghost predicate Apart<T(!new), K(!new)>(key: T -> K, keys: set<K>, xs: seq<T>) {
    && (forall i | 0 <= i < |xs| :: key(xs[i]) !in keys)
    && (forall i, j | 0 <= i < j < |xs| :: key(xs[i]) != key(xs[j]))
  }

  lemma {:induction false} RestoreAllRoom<S(!new), T(!new), K(!new)>(step: (S, T) -> (S, Result<()>), key: T -> K,
                                                                    keys: S -> set<K>, keeps: S -> bool, max: nat, s: S,
                                                                    xs: seq<T>)
    requires forall t, x | keeps(t) && x in xs :: Fills(step, key, keys, max, t, x) && keeps(step(t, x).0)
    requires keeps(s) && Apart(key, keys(s), xs)
    ensures RestoreAll(step, s, xs).1.Ok? <==> xs == [] || |keys(s)| + |xs| <= max
    decreases |xs|
  {
    if xs != [] {
      var (t, r) := step(s, xs[0]);
      assert xs[0] in xs && Fills(step, key, keys, max, s, xs[0]);
      if r.Ok? {
        var rest := xs[1..];
        assert forall i | 0 <= i < |rest| :: rest[i] == xs[i + 1];
        assert Apart(key, keys(t), rest);
        RestoreAllRoom(step, key, keys, keeps, max, t, rest);
      }
    }
  }

  lemma ListedApart<K(!new), T(!new)>(table: map<K, T>, key: T -> K, xs: seq<T>)
    requires Lists(table, key, xs)
    ensures Apart(key, {}, xs)
  {
  }

  // ---- each store ---------------------------------------------------------

  function PublisherRestore(tick: Tick): (P.Publishers, PublisherRecord) -> (P.Publishers, Result<()>) {
    (p, r) => P.RestoredRecord(p, r, tick)
  }

  lemma {:induction false} PublishersInTurn(p: P.Publishers, rs: seq<PublisherRecord>, tick: Tick)
    ensures P.RestoredRecords(p, rs, tick) == RestoreAll(PublisherRestore(tick), p, rs)
    decreases |rs|
  {
    hide P.RestoredRecord;
    if rs != [] {
      PublishersInTurn(P.RestoredRecord(p, rs[0], tick).0, rs[1..], tick);
    }
  }

  function PublisherIds(): P.Publishers -> set<string> {
    (p: P.Publishers) => p.records.Keys
  }

  lemma PublisherFills(p: P.Publishers, r: PublisherRecord, tick: Tick)
    ensures Fills(PublisherRestore(tick), PublisherKey(), PublisherIds(), p.maxPublishers, p, r)
    ensures PublisherRestore(tick)(p, r).0.maxPublishers == p.maxPublishers
  {
    hide P.StoredRecord, P.DormantRegistration;
  }

  lemma PublishersRoom(table: map<string, PublisherRecord>, p: P.Publishers, rs: seq<PublisherRecord>, tick: Tick)
    requires Lists(table, PublisherKey(), rs) && p.records == map[]
    ensures P.RestoredRecords(p, rs, tick).1.Ok? <==> |table| <= p.maxPublishers
  {
    hide Lists, RestoreAll, P.RestoredRecords, Fills, PublisherRestore, PublisherKey;
    PublishersInTurn(p, rs, tick);
    ListingSize(table, PublisherKey(), rs);
    ListedApart(table, PublisherKey(), rs);
    forall t: P.Publishers, r | t.maxPublishers == p.maxPublishers && r in rs
      ensures Fills(PublisherRestore(tick), PublisherKey(), PublisherIds(), p.maxPublishers, t, r)
      ensures PublisherRestore(tick)(t, r).0.maxPublishers == p.maxPublishers
    {
      PublisherFills(t, r, tick);
    }
    RestoreAllRoom(PublisherRestore(tick), PublisherKey(), PublisherIds(),
                   (t: P.Publishers) => t.maxPublishers == p.maxPublishers, p.maxPublishers, p, rs);
  }

  function WorkloadIds(): W.Workloads -> set<string> {
    (w: W.Workloads) => w.workloads.Keys
  }

  lemma WorkloadFills(w: W.Workloads, r: WorkloadRecord)
    ensures Fills(WorkloadRestore(), WorkloadKey(), WorkloadIds(), w.maxWorkloads, w, r)
    ensures WorkloadRestore()(w, r).0.maxWorkloads == w.maxWorkloads
  {
  }

  lemma WorkloadsRoom(table: map<string, WorkloadRecord>, w: W.Workloads, rs: seq<WorkloadRecord>)
    requires Lists(table, WorkloadKey(), rs) && w.workloads == map[]
    ensures RestoreAll(WorkloadRestore(), w, rs).1.Ok? <==> |table| <= w.maxWorkloads
  {
    hide Lists, RestoreAll, Fills, WorkloadRestore, WorkloadKey;
    ListingSize(table, WorkloadKey(), rs);
    ListedApart(table, WorkloadKey(), rs);
    forall t: W.Workloads, r | t.maxWorkloads == w.maxWorkloads && r in rs
      ensures Fills(WorkloadRestore(), WorkloadKey(), WorkloadIds(), w.maxWorkloads, t, r)
      ensures WorkloadRestore()(t, r).0.maxWorkloads == w.maxWorkloads
    {
      WorkloadFills(t, r);
    }
    RestoreAllRoom(WorkloadRestore(), WorkloadKey(), WorkloadIds(), (t: W.Workloads) => t.maxWorkloads == w.maxWorkloads,
                   w.maxWorkloads, w, rs);
  }

  function ContractIds(): W.Workloads -> set<string> {
    (w: W.Workloads) => w.contracts.Keys
  }

  lemma ContractFills(o: Oracles, w: W.Workloads, c: WorkloadContract)
    requires c.definitionDigest == ContractDigest(o, c)
    ensures Fills(ContractRestore(o), ContractKey(), ContractIds(), w.maxContracts, w, c)
    ensures ContractRestore(o)(w, c).0.maxContracts == w.maxContracts
  {
    hide ContractDigest;
  }

  lemma ContractsRoom(o: Oracles, table: map<string, WorkloadContract>, w: W.Workloads, cs: seq<WorkloadContract>)
    requires Lists(table, ContractKey(), cs) && w.contracts == map[] && DigestsMatch(o, cs)
    ensures RestoreAll(ContractRestore(o), w, cs).1.Ok? <==> |table| <= w.maxContracts
  {
    hide Lists, RestoreAll, ContractDigest, Fills, ContractRestore, ContractKey;
    ListingSize(table, ContractKey(), cs);
    ListedApart(table, ContractKey(), cs);
    forall t: W.Workloads, c | t.maxContracts == w.maxContracts && c in cs
      ensures Fills(ContractRestore(o), ContractKey(), ContractIds(), w.maxContracts, t, c)
      ensures ContractRestore(o)(t, c).0.maxContracts == w.maxContracts
    {
      ContractFills(o, t, c);
    }
    RestoreAllRoom(ContractRestore(o), ContractKey(), ContractIds(), (t: W.Workloads) => t.maxContracts == w.maxContracts,
                   w.maxContracts, w, cs);
  }

  function FlowKeys(): F.Flows -> set<FlowKey> {
    (f: F.Flows) => f.current.Keys
  }

  lemma FlowFills(f: F.Flows, r: FlowRecord)
    ensures Fills(FlowRestore(), FlowRecordKey(), FlowKeys(), f.maxFlows, f, r)
    ensures FlowRestore()(f, r).0.maxFlows == f.maxFlows
  {
    hide F.Trimmed, F.HistoryOf;
  }

  lemma FlowsRoom(table: map<FlowKey, FlowRecord>, f: F.Flows, rs: seq<FlowRecord>)
    requires Lists(table, FlowRecordKey(), rs) && f.current == map[]
    ensures RestoreAll(FlowRestore(), f, rs).1.Ok? <==> |table| <= f.maxFlows
  {
    hide Lists, RestoreAll, Fills, FlowRestore, FlowRecordKey;
    ListingSize(table, FlowRecordKey(), rs);
    ListedApart(table, FlowRecordKey(), rs);
    forall t: F.Flows, r | t.maxFlows == f.maxFlows && r in rs
      ensures Fills(FlowRestore(), FlowRecordKey(), FlowKeys(), f.maxFlows, t, r)
      ensures FlowRestore()(t, r).0.maxFlows == f.maxFlows
    {
      FlowFills(t, r);
    }
    RestoreAllRoom(FlowRestore(), FlowRecordKey(), FlowKeys(), (t: F.Flows) => t.maxFlows == f.maxFlows, f.maxFlows, f, rs);
  }

  function StoredIds(): E.Evidence -> set<string> {
    (e: E.Evidence) => e.byId.Keys
  }

  lemma EvidenceFills(o: Oracles, e: E.Evidence, r: EvidenceRecord)
    ensures Fills(EvidenceRestore(o), EvidenceKey(), StoredIds(), e.maxRecords, e, r)
    ensures EvidenceRestore(o)(e, r).0.maxRecords == e.maxRecords
  {
    hide E.Indexed, E.StaledIf;
  }

  lemma EvidenceRoom(o: Oracles, table: map<string, EvidenceRecord>, e: E.Evidence, rs: seq<EvidenceRecord>)
    requires Lists(table, EvidenceKey(), rs) && e.byId == map[]
    ensures RestoreAll(EvidenceRestore(o), e, rs).1.Ok? <==> |table| <= e.maxRecords
  {
    hide Lists, RestoreAll, Fills, EvidenceRestore, EvidenceKey;
    ListingSize(table, EvidenceKey(), rs);
    ListedApart(table, EvidenceKey(), rs);
    forall t: E.Evidence, r | t.maxRecords == e.maxRecords && r in rs
      ensures Fills(EvidenceRestore(o), EvidenceKey(), StoredIds(), e.maxRecords, t, r)
      ensures EvidenceRestore(o)(t, r).0.maxRecords == e.maxRecords
    {
      EvidenceFills(o, t, r);
    }
    RestoreAllRoom(EvidenceRestore(o), EvidenceKey(), StoredIds(), (t: E.Evidence) => t.maxRecords == e.maxRecords,
                   e.maxRecords, e,
                   rs);
  }

  // ---- starting -----------------------------------------------------------

  /** Every durable table of the state fits these limits. */
  ghost predicate RoomFor(limits: ResourceLimits, s: State) {
    && |s.publishers.records| <= limits.maxPublishers
    && |s.workloads.workloads| <= limits.maxWorkloads
    && |s.workloads.contracts| <= limits.maxContracts
    && |s.flows.current| <= limits.maxFlows
    && |s.evidence.byId| <= limits.maxEvidenceRecords
  }

  /** A coordinator configured like this can start from the image of the state. */
  ghost predicate Startable(s: State, policy: ClassifierPolicy, boot: nat) {
    boot != 0 && s.epoch < MAX_U64 && s.sequence < MAX_U64 && RoomFor(policy.limits, s)
  }

  /** The state is a classifier as it was built under these limits. */
  ghost predicate BuiltUnder(limits: ResourceLimits, start: State) {
    && Unused(start) && start.epoch == 1 && start.sequence == 0
    && start.publishers.maxPublishers == limits.maxPublishers
    && start.workloads.maxWorkloads == limits.maxWorkloads
    && start.workloads.maxContracts == limits.maxContracts
    && start.flows.maxFlows == limits.maxFlows
    && start.evidence.maxRecords == limits.maxEvidenceRecords
  }

  lemma RestoreOutcome(o: Oracles, start: State, img: DurableState, boot: nat, tick: Tick)
    ensures var (t, r) := Restore(o, start, img, boot, tick);
            var w := RestoreAll(WorkloadRestore(), start.workloads, img.workloads);
            && (r.Ok? <==> && P.RestoredRecords(start.publishers, img.publishers, tick).1.Ok? && w.1.Ok?
                           && RestoreAll(ContractRestore(o), w.0, img.contracts).1.Ok?
                           && RestoreAll(FlowRestore(), start.flows, img.flows).1.Ok?
                           && RestoreAll(EvidenceRestore(o), start.evidence, img.evidence).1.Ok?)
            && t.epoch == (if img.epoch > start.epoch then img.epoch else start.epoch)
            && t.sequence == (if img.sequence > start.sequence then img.sequence else start.sequence)
  {
    hide P.RestoredRecords, RestoreAll, RestoreDecisions, P.ClearedSessions;
  }

  lemma RestoreExactlyWhen(o: Oracles, s: State, limits: ResourceLimits, start: State, img: DurableState, boot: nat, tick: Tick)
    requires Inv(o, s) && ImageOf(s, img) && BuiltUnder(limits, start)
    ensures Restore(o, start, img, boot, tick).1.Ok? <==> RoomFor(limits, s)
  {
    hide Inv, Restore, P.RestoredRecords, RestoreAll, Lists, Gathers, DigestsMatch, W.ContractInvariant,
         F.FlowInvariant, P.RegistryInvariant, E.IndexInvariant, RecordsInvariant, TopicInvariant, D.MemoInvariant,
         Numbered;
    PartsOf(o, s);
    RestoreOutcome(o, start, img, boot, tick);
    PublishersRoom(s.publishers.records, start.publishers, img.publishers, tick);
    WorkloadsRoom(s.workloads.workloads, start.workloads, img.workloads);
    DigestsOf(o, s.workloads, img.contracts);
    FlowsRoom(s.flows.current, start.flows, img.flows);
    EvidenceRoom(o, s.evidence.byId, start.evidence, img.evidence);
    var w := RestoreAll(WorkloadRestore(), start.workloads, img.workloads);
    if w.1.Ok? {
      WorkloadsFill(start.workloads, img.workloads);
      ContractsRoom(o, s.workloads.contracts, w.0, img.contracts);
    }
  }

  lemma StartBegins(o: Oracles, policy: ClassifierPolicy, img: DurableState)
    ensures BuiltUnder(policy.limits, Initial(policy, 1, 1))
    ensures BuiltUnder(policy.limits, SetPolicy(o, Initial(policy, 1, 1), img.policy).0)
  {
    hide SetPolicy;
    SetPolicyCases(o, Initial(policy, 1, 1), img.policy);
  }

  /**
   * A coordinator starts from the image of a sound state exactly when it has a boot identifier,
   * neither counter is exhausted and every durable table fits its configured capacity.
   */
  lemma StartsExactlyWhen(o: Oracles, s: State, policy: ClassifierPolicy, img: DurableState, boot: nat, tick: Tick)
    requires Inv(o, s) && ImageOf(s, img)
    ensures Start(o, policy, img, boot, tick).1.Ok? <==> Startable(s, policy, boot)
  {
    hide Inv, Restore, SetPolicy, Advanced, Lists, Gathers;
    StartBegins(o, policy, img);
    var built := Initial(policy, 1, 1);
    var start := if img.policy.generation != 0 then SetPolicy(o, built, img.policy).0 else built;
    RestoreExactlyWhen(o, s, policy.limits, start, img, boot, tick);
    RestoreOutcome(o, start, img, boot, tick);
  }
}
