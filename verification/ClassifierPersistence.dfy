/**
 * Writing the durable image out of a classifier and restoring one into it, as they run.
 */
module ClassifierPersistence {
  import opened Domain
  import opened Sorting
  import opened Enumeration
  import opened ClassifierObject
  import opened Restart
  import ClassifierState
  import opened ClassifierInvariant
  import opened ClassifierSteps
  import E = EvidenceStore
  import P = PublisherRegistry
  import W = WorkloadRegistry
  import F = FlowRegistry
  import D = ClassificationIndex

  // ---- the image ----------------------------------------------------------

  predicate FlowIdLess(a: FlowRecord, b: FlowRecord) {
    a.id.hi < b.id.hi || (a.id.hi == b.id.hi && a.id.lo < b.id.lo)
  }

  /** Arranging a listing differently leaves it a listing. */
  lemma ListsArranged<K(!new), T(!new)>(table: map<K, T>, key: T -> K, xs: seq<T>, ys: seq<T>)
    requires Lists(table, key, xs) && multiset(xs) == multiset(ys)
    ensures Lists(table, key, ys)
  {
    MultisetMembership(xs, ys);
    forall i | 0 <= i < |ys|
      ensures key(ys[i]) in table && table[key(ys[i])] == ys[i]
    {
      assert ys[i] in xs;
      var j :| 0 <= j < |xs| && xs[j] == ys[i];
    }
    assert NoRepeats(xs) by {
      forall i, j | 0 <= i < j < |xs|
        ensures xs[i] != xs[j]
      {
        assert key(xs[i]) != key(xs[j]);
      }
    }
    NoRepeatsPermutation(xs, ys);
    forall k | k in table
      ensures exists i | 0 <= i < |ys| :: key(ys[i]) == k
    {
      var i :| 0 <= i < |xs| && key(xs[i]) == k;
      assert xs[i] in ys;
      var j :| 0 <= j < |ys| && ys[j] == xs[i];
    }
  }

  lemma EntriesList<T(!new)>(table: map<string, T>, key: T -> string)
    requires Keyed(table, key)
    ensures Lists(table, key, Entries(table))
  {
    EntriesMembers(table);
    SortedIdsProperties(table.Keys);
    var ids, es := SortedIds(table.Keys), Entries(table);
    forall i, j | 0 <= i < j < |es|
      ensures key(es[i]) != key(es[j])
    {
      assert TextLess(ids[i], ids[j]);
      TextLessIrreflexive(ids[i]);
    }
    forall k | k in table
      ensures exists i | 0 <= i < |es| :: key(es[i]) == k
    {
      assert table[k] in es;
      var i :| 0 <= i < |es| && es[i] == table[k];
    }
  }

  method ListTable<T(!new)>(table: map<string, T>, key: T -> string) returns (xs: seq<T>)
    requires Keyed(table, key)
    ensures Lists(table, key, xs)
  {
    EntriesList(table, key);
    xs := SortedEntries(table, key);
  }

  /** Walks a table in no particular order. */
  method Walk<K(!new, ==), T(!new)>(table: map<K, T>, key: T -> K) returns (xs: seq<T>)
    requires forall k | k in table :: key(table[k]) == k
    ensures Lists(table, key, xs)
  {
    var todo := table.Keys;
    xs := [];
    while todo != {}
      invariant todo <= table.Keys
      invariant forall i | 0 <= i < |xs| :: key(xs[i]) in table && key(xs[i]) !in todo && table[key(xs[i])] == xs[i]
      invariant forall i, j | 0 <= i < j < |xs| :: key(xs[i]) != key(xs[j])
      invariant forall k | k in table && k !in todo :: table[k] in xs
      decreases |todo|
    {
      var k :| k in todo;
      xs := xs + [table[k]];
      todo := todo - {k};
    }
    forall k | k in table
      ensures exists i | 0 <= i < |xs| :: key(xs[i]) == k
    {
      assert table[k] in xs;
      var i :| 0 <= i < |xs| && xs[i] == table[k];
    }
  }

  method ListFlows(table: map<FlowKey, FlowRecord>) returns (xs: seq<FlowRecord>)
    requires forall k | k in table :: table[k].key == k
    ensures Lists(table, FlowRecordKey(), xs)
  {
    hide Lists, Sort;
    var walked := Walk(table, FlowRecordKey());
    ListsArranged(table, FlowRecordKey(), walked, Sort(FlowIdLess, walked));
    xs := Sort(FlowIdLess, walked);
  }

  lemma TablesAreKeyed(o: Oracles, s: ClassifierState.State)
    requires Inv(o, s)
    ensures Keyed(s.publishers.records, PublisherKey()) && Keyed(s.workloads.workloads, WorkloadKey())
    ensures Keyed(s.workloads.contracts, ContractKey()) && Keyed(s.evidence.byId, EvidenceKey())
    ensures forall k | k in s.flows.current :: s.flows.current[k].key == k
  {
    hide E.FlowIndexed, RecordsInvariant, TopicInvariant, Numbered, W.Bound, W.Backed;
    forall k | k in s.flows.current
      ensures s.flows.current[k].key == k
    {
      assert F.Fenced(o, s.flows, k);
    }
  }

  lemma RecordedOrder()
    ensures StrictWeakOrder(ClassificationBefore)
  {
  }

  /** Gathers the recorded decisions flow by flow, then sorts them. */
  method ListHistory(history: map<FlowId, D.FlowHistory>) returns (cs: seq<Classification>)
    ensures Gathers(history, cs)
  {
    hide Sort, ClassificationBefore;
    var gathered: seq<Classification> := [];
    var todo := history.Keys;
    ghost var flows: seq<FlowId> := [];
    while todo != {}
      invariant todo <= history.Keys && NoRepeats(flows)
      invariant forall f :: f in flows <==> f in history && f !in todo
      invariant gathered == Concat(history, flows)
      decreases |todo|
    {
      var f :| f in todo;
      AppendNoRepeats(flows, f);
      assert (flows + [f])[..|flows|] == flows;
      gathered := gathered + history[f].decisions;
      flows := flows + [f];
      todo := todo - {f};
    }
    assert Enumerates(history, flows);
    cs := Sort(ClassificationBefore, gathered);
    RecordedOrder();
    SortWeaklySorted(ClassificationBefore, gathered);
  }

  method DurableImage(c: Classifier) returns (img: DurableState)
    requires c.Valid()
    ensures ImageOf(c.State(), img)
  {
    hide Inv, DistinctIdentities, Lists, Gathers;
    TablesAreKeyed(c.o, c.State());
    var ps := ListTable(c.publishers.records, PublisherKey());
    var ws := ListTable(c.workloads.workloads, WorkloadKey());
    var cs := ListTable(c.workloads.contracts, ContractKey());
    var fs := ListFlows(c.flows.current);
    var es := ListTable(c.evidence.byId, EvidenceKey());
    var classifications := ListHistory(c.decisions.history);
    img := DurableState(c.policy, c.epoch, c.boot, c.sequence, ps, ws, cs, fs, es, classifications, c.decisions.revocations,
                        c.decisions.supersessions);
  }

  // ---- restoring ----------------------------------------------------------

  method RestoreWorkloads(w: W.Registry, rs: seq<WorkloadRecord>) returns (r: Result<()>)
    modifies w
    ensures (w.State(), r) == RestoreAll(WorkloadRestore(), old(w.State()), rs)
  {
    var i := 0;
    while i < |rs|
      invariant 0 <= i <= |rs|
      invariant RestoreAll(WorkloadRestore(), w.State(), rs[i..]) == RestoreAll(WorkloadRestore(), old(w.State()), rs)
    {
      assert rs[i..][0] == rs[i] && rs[i..][1..] == rs[i + 1..];
      r := w.RestoreWorkload(rs[i]);
      if r.Err? {
        return;
      }
      i := i + 1;
    }
    r := Ok(());
  }

  method RestoreContracts(o: Oracles, w: W.Registry, cs: seq<WorkloadContract>) returns (r: Result<()>)
    modifies w
    ensures (w.State(), r) == RestoreAll(ContractRestore(o), old(w.State()), cs)
  {
    var i := 0;
    while i < |cs|
      invariant 0 <= i <= |cs|
      invariant RestoreAll(ContractRestore(o), w.State(), cs[i..]) == RestoreAll(ContractRestore(o), old(w.State()), cs)
    {
      assert cs[i..][0] == cs[i] && cs[i..][1..] == cs[i + 1..];
      r := w.RestoreContract(o, cs[i]);
      if r.Err? {
        return;
      }
      i := i + 1;
    }
    r := Ok(());
  }

  ghost predicate ShortHistories(f: F.Flows) {
    forall id :: |F.HistoryOf(f, id)| <= F.MAX_HISTORY_PER_KEY
  }

  lemma RestoredFlowShort(f: F.Flows, r: FlowRecord)
    requires ShortHistories(f)
    ensures ShortHistories(F.RestoredFlow(f, r).0)
  {
    var g := F.RestoredFlow(f, r).0;
    forall id
      ensures |F.HistoryOf(g, id)| <= F.MAX_HISTORY_PER_KEY
    {
      assert |F.HistoryOf(f, id)| <= F.MAX_HISTORY_PER_KEY;
    }
  }

  method RestoreFlows(f: F.Registry, rs: seq<FlowRecord>) returns (r: Result<()>)
    requires ShortHistories(f.State())
    modifies f
    ensures (f.State(), r) == RestoreAll(FlowRestore(), old(f.State()), rs)
  {
    hide F.RestoredFlow, F.HistoryOf;
    var i := 0;
    while i < |rs|
      invariant 0 <= i <= |rs| && ShortHistories(f.State())
      invariant RestoreAll(FlowRestore(), f.State(), rs[i..]) == RestoreAll(FlowRestore(), old(f.State()), rs)
    {
      assert rs[i..][0] == rs[i] && rs[i..][1..] == rs[i + 1..];
      RestoredFlowShort(f.State(), rs[i]);
      r := f.RestoreFlow(rs[i]);
      if r.Err? {
        return;
      }
      i := i + 1;
    }
    r := Ok(());
  }

  method RestoreEvidence(o: Oracles, e: E.Store, rs: seq<EvidenceRecord>) returns (r: Result<()>)
    modifies e
    ensures (e.State(), r) == RestoreAll(EvidenceRestore(o), old(e.State()), rs)
  {
    var i := 0;
    while i < |rs|
      invariant 0 <= i <= |rs|
      invariant RestoreAll(EvidenceRestore(o), e.State(), rs[i..]) == RestoreAll(EvidenceRestore(o), old(e.State()), rs)
    {
      assert rs[i..][0] == rs[i] && rs[i..][1..] == rs[i + 1..];
      r := e.RestoreRecord(o, rs[i]);
      if r.Err? {
        return;
      }
      i := i + 1;
    }
    r := Ok(());
  }

  method RestoreIndex(d: D.Index, img: DurableState)
    modifies d
    ensures d.State() == RestoreDecisions(old(d.State()), img)
  {
    hide D.RestoredClassification, D.WithRevocation, D.WithSupersession;
    ghost var d0 := d.State();
    var cs, rs, ss := img.classifications, img.revocations, img.supersessions;
    for i := 0 to |cs|
      invariant d.State() == RestoreClassifications(d0, cs[..i])
    {
      assert cs[..i + 1][..i] == cs[..i];
      d.RestoreClassification(cs[i]);
    }
    assert cs[..|cs|] == cs;
    ghost var d1 := d.State();
    for i := 0 to |rs|
      invariant d.State() == RestoreRevocations(d1, rs[..i])
    {
      assert rs[..i + 1][..i] == rs[..i];
      d.RecordRevocation(rs[i]);
    }
    assert rs[..|rs|] == rs;
    ghost var d2 := d.State();
    for i := 0 to |ss|
      invariant d.State() == RestoreSupersessions(d2, ss[..i])
    {
      assert ss[..i + 1][..i] == ss[..i];
      d.RecordSupersession(ss[i]);
    }
    assert ss[..|ss|] == ss;
  }

  method RestoreInto(c: Classifier, img: DurableState, boot: nat, tick: Tick) returns (r: Result<()>)
    requires ShortHistories(c.flows.State())
    modifies c, c.flows, c.publishers, c.workloads, c.evidence, c.decisions
    ensures (c.State(), r) == Restart.Restore(c.o, old(c.State()), img, boot, tick)
  {
    hide RestoreAll, P.RestoredRecords, RestoreDecisions, P.ClearedSessions, F.HistoryOf;
    c.boot := boot;
    if img.epoch > c.epoch {
      c.epoch := img.epoch;
    }
    if img.sequence > c.sequence {
      c.sequence := img.sequence;
    }
    r := c.publishers.RestoreRecords(img.publishers, tick);
    if r.Err? {
      return;
    }
    r := RestoreWorkloads(c.workloads, img.workloads);
    if r.Err? {
      return;
    }
    r := RestoreContracts(c.o, c.workloads, img.contracts);
    if r.Err? {
      return;
    }
    r := RestoreFlows(c.flows, img.flows);
    if r.Err? {
      return;
    }
    r := RestoreEvidence(c.o, c.evidence, img.evidence);
    if r.Err? {
      return;
    }
    RestoreIndex(c.decisions, img);
    c.publishers.ClearSessions();
    r := Ok(());
  }
}
