/**
 * The durable image of a classifier, and starting a new one from it: install the policy,
 * restore the records, advance the epoch.
 */
module Restart {
  import opened Domain
  import opened Sorting
  import opened ClassifierState
  import E = EvidenceStore
  import P = PublisherRegistry
  import W = WorkloadRegistry
  import F = FlowRegistry
  import D = ClassificationIndex

  datatype DurableState = DurableState(
    policy: ClassifierPolicy,
    epoch: nat,
    boot: nat,
    sequence: nat,
    publishers: seq<PublisherRecord>,
    workloads: seq<WorkloadRecord>,
    contracts: seq<WorkloadContract>,
    flows: seq<FlowRecord>,
    evidence: seq<EvidenceRecord>,
    classifications: seq<Classification>,
    revocations: seq<RevocationRecord>,
    supersessions: seq<SupersessionRecord>)

  /** The list holds the entries of the table, each once, in some order. */
  ghost predicate Lists<K(!new), T>(table: map<K, T>, key: T -> K, xs: seq<T>) {
    && (forall i | 0 <= i < |xs| :: key(xs[i]) in table && table[key(xs[i])] == xs[i])
    && (forall i, j | 0 <= i < j < |xs| :: key(xs[i]) != key(xs[j]))
    && (forall k | k in table :: exists i | 0 <= i < |xs| :: key(xs[i]) == k)
  }

  function PublisherKey(): PublisherRecord -> string {
    (r: PublisherRecord) => r.id
  }

  function WorkloadKey(): WorkloadRecord -> string {
    (r: WorkloadRecord) => r.id
  }

  function ContractKey(): WorkloadContract -> string {
    (c: WorkloadContract) => c.id
  }

  function FlowRecordKey(): FlowRecord -> FlowKey {
    (r: FlowRecord) => r.key
  }

  function EvidenceKey(): EvidenceRecord -> string {
    (r: EvidenceRecord) => r.id
  }

  /** The order recorded decisions are written in; ties keep no particular order. */
  predicate ClassificationBefore(a: Classification, b: Classification) {
    if a.flowId.hi != b.flowId.hi then a.flowId.hi < b.flowId.hi
    else if a.flowId.lo != b.flowId.lo then a.flowId.lo < b.flowId.lo
    else a.flowGeneration < b.flowGeneration
  }

  /** The decisions recorded for these flows, one flow after the other. */
  function Concat(history: map<FlowId, D.FlowHistory>, flows: seq<FlowId>): seq<Classification>
    requires forall i | 0 <= i < |flows| :: flows[i] in history
  {
    if flows == [] then [] else Concat(history, flows[..|flows| - 1]) + history[flows[|flows| - 1]].decisions
  }

  ghost predicate Enumerates(history: map<FlowId, D.FlowHistory>, flows: seq<FlowId>) {
    NoRepeats(flows) && forall f :: f in flows <==> f in history
  }

  /** The list holds every recorded decision as often as it was recorded, in order. */
  ghost predicate Gathers(history: map<FlowId, D.FlowHistory>, cs: seq<Classification>) {
    && WeaklySorted(ClassificationBefore, cs)
    && exists flows :: Enumerates(history, flows) && multiset(cs) == multiset(Concat(history, flows))
  }

  /** What the classifier writes out; how the tables are ordered does not matter here. */
  ghost predicate ImageOf(s: State, img: DurableState) {
    && img.policy == s.policy && img.epoch == s.epoch && img.boot == s.boot && img.sequence == s.sequence
    && Lists(s.publishers.records, PublisherKey(), img.publishers)
    && Lists(s.workloads.workloads, WorkloadKey(), img.workloads)
    && Lists(s.workloads.contracts, ContractKey(), img.contracts)
    && Lists(s.flows.current, FlowRecordKey(), img.flows)
    && Lists(s.evidence.byId, EvidenceKey(), img.evidence)
    && Gathers(s.decisions.history, img.classifications)
    && img.revocations == s.decisions.revocations
    && img.supersessions == s.decisions.supersessions
  }

  // ---- restoring ----------------------------------------------------------

  /** Runs the step on each element in turn and stops at the first refusal. */
  function RestoreAll<S, T>(step: (S, T) -> (S, Result<()>), s: S, xs: seq<T>): (S, Result<()>)
    decreases |xs|
  {
    if xs == [] then
      (s, Ok(()))
    else
      var (t, r) := step(s, xs[0]);
      if r.Err? then (t, r) else RestoreAll(step, t, xs[1..])
  }

  function WorkloadRestore(): (W.Workloads, WorkloadRecord) -> (W.Workloads, Result<()>) {
    (w, r) => W.RestoredWorkload(w, r)
  }

  function ContractRestore(o: Oracles): (W.Workloads, WorkloadContract) -> (W.Workloads, Result<()>) {
    (w, c) => W.RestoredContract(o, w, c)
  }

  function FlowRestore(): (F.Flows, FlowRecord) -> (F.Flows, Result<()>) {
    (f, r) => F.RestoredFlow(f, r)
  }

  function EvidenceRestore(o: Oracles): (E.Evidence, EvidenceRecord) -> (E.Evidence, Result<()>) {
    (e, r) => E.Restored(o, e, r)
  }

  function RestoreDecisions(d: D.Decisions, img: DurableState): D.Decisions {
    RestoreSupersessions(RestoreRevocations(RestoreClassifications(d, img.classifications), img.revocations), img.supersessions)
  }

  function RestoreClassifications(d: D.Decisions, cs: seq<Classification>): D.Decisions {
    if cs == [] then d
    else D.RestoredClassification(RestoreClassifications(d, cs[..|cs| - 1]), cs[|cs| - 1])
  }

  function RestoreRevocations(d: D.Decisions, rs: seq<RevocationRecord>): D.Decisions {
    if rs == [] then d else D.WithRevocation(RestoreRevocations(d, rs[..|rs| - 1]), rs[|rs| - 1])
  }

  function RestoreSupersessions(d: D.Decisions, rs: seq<SupersessionRecord>): D.Decisions {
    if rs == [] then d else D.WithSupersession(RestoreSupersessions(d, rs[..|rs| - 1]), rs[|rs| - 1])
  }

  /** The counters observe the persisted values and never fall. */
  function Observe(s: State, img: DurableState, boot: nat): State {
    s.(boot := boot,
       epoch := if img.epoch > s.epoch then img.epoch else s.epoch,
       sequence := if img.sequence > s.sequence then img.sequence else s.sequence)
  }

  function Restore(o: Oracles, start: State, img: DurableState, boot: nat, tick: Tick): (State, Result<()>) {
    var s := Observe(start, img, boot);
    var (p, r1) := P.RestoredRecords(s.publishers, img.publishers, tick);
    if r1.Err? then (s.(publishers := p), r1)
    else
      var (w1, r2) := RestoreAll(WorkloadRestore(), s.workloads, img.workloads);
      if r2.Err? then (s.(publishers := p, workloads := w1), r2)
      else
        var (w, r3) := RestoreAll(ContractRestore(o), w1, img.contracts);
        if r3.Err? then (s.(publishers := p, workloads := w), r3)
        else
          var (f, r4) := RestoreAll(FlowRestore(), s.flows, img.flows);
          if r4.Err? then (s.(publishers := p, workloads := w, flows := f), r4)
          else
            var (e, r5) := RestoreAll(EvidenceRestore(o), s.evidence, img.evidence);
            if r5.Err? then (s.(publishers := p, workloads := w, flows := f, evidence := e), r5)
            else
              (s.(publishers := P.ClearedSessions(p), workloads := w, flows := f, evidence := e,
                  decisions := RestoreDecisions(s.decisions, img)),
               Ok(()))
  }

  /** A coordinator starting on a persisted image with a freshly built classifier. */
  function Start(o: Oracles, policy: ClassifierPolicy, img: DurableState, boot: nat, tick: Tick): (State, Result<nat>) {
    var built := Initial(policy, 1, 1);
    var s := if img.policy.generation != 0 then SetPolicy(o, built, img.policy).0 else built;
    if boot == 0 then
      (built, Err(InvalidArgument))
    else
      var (t, r) := Restore(o, s, img, boot, tick);
      if r.Err? then (t, Err(r.code)) else AdvanceEpoch(o, t, boot)
  }

  // ---- tables filled from lists -------------------------------------------

  function FillTable<K, T, U>(m: map<K, U>, key: T -> K, f: T -> U, xs: seq<T>): map<K, U>
    decreases |xs|
  {
    if xs == [] then m else FillTable(m[key(xs[0]) := f(xs[0])], key, f, xs[1..])
  }

  ghost predicate Absent<K(!new), T>(key: T -> K, xs: seq<T>, k: K) {
    forall i | 0 <= i < |xs| :: key(xs[i]) != k
  }

  lemma {:induction false} FillTableContents<K(!new), T(!new), U(!new)>(m: map<K, U>, key: T -> K, f: T -> U, xs: seq<T>)
    requires forall i, j | 0 <= i < j < |xs| :: key(xs[i]) != key(xs[j])
    ensures forall i | 0 <= i < |xs| ::
              key(xs[i]) in FillTable(m, key, f, xs) && FillTable(m, key, f, xs)[key(xs[i])] == f(xs[i])
    ensures forall k | k in FillTable(m, key, f, xs) ::
              (k in m && FillTable(m, key, f, xs)[k] == m[k]) || exists i | 0 <= i < |xs| :: key(xs[i]) == k
    ensures forall k | k in m && Absent(key, xs, k) ::
              k in FillTable(m, key, f, xs) && FillTable(m, key, f, xs)[k] == m[k]
    decreases |xs|
  {
    if xs != [] {
      var n, rest := m[key(xs[0]) := f(xs[0])], xs[1..];
      FillTableContents(n, key, f, rest);
      var t := FillTable(m, key, f, xs);
      assert forall i | 0 <= i < |rest| :: rest[i] == xs[i + 1];
      forall i | 0 <= i < |xs|
        ensures key(xs[i]) in t && t[key(xs[i])] == f(xs[i])
      {
        if i > 0 {
          assert key(rest[i - 1]) in t;
        } else {
          assert Absent(key, rest, key(xs[0]));
        }
      }
      forall k | k in t
        ensures (k in m && t[k] == m[k]) || exists i | 0 <= i < |xs| :: key(xs[i]) == k
      {
        if k != key(xs[0]) && !(k in n && t[k] == n[k]) {
          var i :| 0 <= i < |rest| && key(rest[i]) == k;
          assert key(xs[i + 1]) == k;
        }
      }
      forall k | k in m && Absent(key, xs, k)
        ensures k in t && t[k] == m[k]
      {
        assert key(xs[0]) != k && Absent(key, rest, k);
      }
    }
  }

  /** A table filled from a listing of another is that other, entry by entry through `f`. */
  lemma FillFromListing<K(!new), T(!new), U(!new)>(table: map<K, T>, key: T -> K, f: T -> U, xs: seq<T>)
    requires Lists(table, key, xs)
    ensures FillTable(map[], key, f, xs).Keys == table.Keys
    ensures forall k | k in table :: k in FillTable(map[], key, f, xs) && FillTable(map[], key, f, xs)[k] == f(table[k])
  {
    FillTableContents(map[], key, f, xs);
    var t := FillTable(map[], key, f, xs);
    forall k | k in table
      ensures k in t && t[k] == f(table[k])
    {
      var i :| 0 <= i < |xs| && key(xs[i]) == k;
    }
    assert t.Keys == table.Keys;
  }
}
