/**
 * The evidence store: records by identity, a bounded ring of acceptance order and a bounded
 * list of identities per flow.
 */
module EvidenceStore {
  import opened Domain
  import opened Sorting

  datatype Evidence = Evidence(
    byId: map<string, EvidenceRecord>,
    byFlow: map<FlowId, seq<string>>,
    order: seq<string>,
    maxRecords: nat,
    maxPerFlow: nat,
    maxFlowIndex: nat)

  function EmptyEvidence(limits: ResourceLimits): Evidence {
    Evidence(map[], map[], [], limits.maxEvidenceRecords, limits.maxEvidencePerFlow, limits.maxFlowKeyIndex)
  }

  // ---- what the operations compute ----------------------------------------

  function NotId(id: string): string -> bool {
    x => x != id
  }

  function Unindexed(byFlow: map<FlowId, seq<string>>, flow: FlowId, id: string): map<FlowId, seq<string>> {
    if flow !in byFlow then byFlow
    else
      var ids := Filter(NotId(id), byFlow[flow]);
      if ids == [] then byFlow - {flow} else byFlow[flow := ids]
  }

  function EvictFirst(e: Evidence): Evidence
    requires e.order != []
  {
    var key := e.order[0];
    if key !in e.byId then
      e.(order := e.order[1..])
    else
      e.(order := e.order[1..], byFlow := Unindexed(e.byFlow, e.byId[key].flowId, e.byId[key].id), byId := e.byId - {key})
  }

  function EvictOldest(e: Evidence): Evidence
    decreases |e.order|
  {
    if e.order == [] || |e.byId| < e.maxRecords then e else EvictOldest(EvictFirst(e))
  }

  /** The youngest ids that leave room for one more under the bound. */
  function MakeRoom(ids: seq<string>, bound: nat): seq<string> {
    if |ids| < bound then ids else if bound == 0 then [] else ids[|ids| - (bound - 1)..]
  }

  function Appended(e: Evidence, r: EvidenceRecord, ids: seq<string>): Evidence {
    e.(byFlow := e.byFlow[r.flowId := ids], byId := e.byId[r.id := r], order := e.order + [r.id])
  }

  function Inserted(e: Evidence, r: EvidenceRecord): (Evidence, Result<()>) {
    if r.id == "" then
      (e, Err(InvalidArgument))
    else if r.id in e.byId then
      if e.byId[r.id].contentDigest == r.contentDigest && e.byId[r.id].publisher == r.publisher then
        (e, Ok(()))
      else
        (e, Err(DuplicateIdentity))
    else
      var room := if |e.byId| >= e.maxRecords then EvictOldest(e) else e;
      if |room.byId| >= room.maxRecords then
        (room, Err(CapacityExceeded))
      else if r.flowId !in room.byFlow && |room.byFlow| >= room.maxFlowIndex then
        (room, Err(CapacityExceeded))
      else
        var ids := if r.flowId in room.byFlow then MakeRoom(room.byFlow[r.flowId], room.maxPerFlow) else [];
        (Appended(room, r, ids + [r.id]), Ok(()))
  }

  /** The stored records behind the identities; an identity without a record is skipped. */
  function RecordsOf(e: Evidence, ids: seq<string>): seq<EvidenceRecord> {
    if ids == [] then []
    else
      var rest := RecordsOf(e, ids[..|ids| - 1]);
      var last := ids[|ids| - 1];
      if last in e.byId then rest + [e.byId[last]] else rest
  }

  predicate AcceptedBefore(a: EvidenceRecord, b: EvidenceRecord) {
    a.acceptedSeq < b.acceptedSeq
  }

  /** The records reachable from a flow, in acceptance order. */
  function FlowRecords(e: Evidence, flow: FlowId): seq<EvidenceRecord> {
    if flow in e.byFlow then Sort(AcceptedBefore, RecordsOf(e, e.byFlow[flow])) else []
  }

  function WithState(e: Evidence, id: string, state: EvidenceState, reason: string): (Evidence, Result<()>) {
    if id !in e.byId then
      (e, Err(NotFound))
    else if e.byId[id].state == state then
      (e, Ok(()))
    else if state == EvidenceCurrent then
      (e, Err(Unauthorized))
    else
      (e.(byId := e.byId[id := e.byId[id].(state := state, stateReason := reason)]), Ok(()))
  }

  function StaledIf(hit: bool, r: EvidenceRecord, reason: string): EvidenceRecord {
    if r.state == EvidenceCurrent && hit then r.(state := EvidenceStale, stateReason := reason) else r
  }

  function MarkStale(e: Evidence, p: EvidenceRecord -> bool, reason: string): Evidence {
    e.(byId := map id | id in e.byId :: StaledIf(p(e.byId[id]), e.byId[id], reason))
  }

  function MarkEpochStale(o: Oracles, e: Evidence, epoch: nat): Evidence {
    e.(byId := map id | id in e.byId ::
                 StaledIf(e.byId[id].acceptedEpoch != epoch, e.byId[id],
                          o.render(EpochAdvanced(e.byId[id].acceptedEpoch, epoch))))
  }

  function Indexed(e: Evidence, flow: FlowId, id: string): map<FlowId, seq<string>> {
    if flow !in e.byFlow then e.byFlow[flow := [id]]
    else if e.maxPerFlow == 0 then e.byFlow[flow := []]
    else e.byFlow[flow := MakeRoom(e.byFlow[flow], e.maxPerFlow) + [id]]
  }

  function Restored(o: Oracles, e: Evidence, r: EvidenceRecord): (Evidence, Result<()>) {
    if r.id in e.byId then
      (e, Err(DuplicateIdentity))
    else if |e.byId| >= e.maxRecords then
      (e, Err(CapacityExceeded))
    else
      var stored := StaledIf(true, r, o.render(Reloaded));
      (e.(byFlow := Indexed(e, r.flowId, r.id), byId := e.byId[r.id := stored], order := e.order + [r.id]), Ok(()))
  }

  // ---- the index refines the ring -----------------------------------------

  function OfFlow(byId: map<string, EvidenceRecord>, flow: FlowId): string -> bool {
    id => id in byId && byId[id].flowId == flow
  }

  /** The identities of one flow in acceptance order. */
  function FlowOrder(e: Evidence, flow: FlowId): seq<string> {
    Filter(OfFlow(e.byId, flow), e.order)
  }

  function AtLeastOne(n: nat): nat {
    if n == 0 then 1 else n
  }

  ghost predicate FlowIndexed(e: Evidence, flow: FlowId) {
    flow in e.byFlow ==>
      && Suffix(e.byFlow[flow], FlowOrder(e, flow))
      && |e.byFlow[flow]| <= AtLeastOne(e.maxPerFlow)
  }

  /**
   * The ring lists every stored identity once and is within its bound; every flow list is a
   * bounded suffix of the ring restricted to that flow.
   */
  ghost predicate IndexInvariant(e: Evidence) {
    RingInvariant(e) && forall flow :: FlowIndexed(e, flow)
  }

  ghost predicate RingInvariant(e: Evidence) {
    && NoRepeats(e.order)
    && (forall id :: id in e.order <==> id in e.byId)
    && (forall id | id in e.byId :: e.byId[id].id == id)
    && |e.byId| <= e.maxRecords
  }

  /** A step that leaves every record's identity and flow alone keeps the index. */
  lemma RelabelKeepsIndex(e: Evidence, f: Evidence)
    requires IndexInvariant(e)
    requires f == e.(byId := f.byId)
    requires f.byId.Keys == e.byId.Keys
    requires forall id | id in e.byId :: f.byId[id].id == e.byId[id].id && f.byId[id].flowId == e.byId[id].flowId
    ensures IndexInvariant(f)
  {
    assert |f.byId.Keys| == |f.byId| && |e.byId.Keys| == |e.byId|;
    forall flow
      ensures FlowIndexed(f, flow)
    {
      assert FlowIndexed(e, flow);
      FilterAgrees(OfFlow(e.byId, flow), OfFlow(f.byId, flow), e.order);
    }
  }

  lemma WithStateKeepsIndex(e: Evidence, id: string, state: EvidenceState, reason: string)
    requires IndexInvariant(e)
    ensures IndexInvariant(WithState(e, id, state, reason).0)
  {
    if WithState(e, id, state, reason).0 != e {
      var r := e.byId[id].(state := state, stateReason := reason);
      RelabelKeepsIndex(e, e.(byId := e.byId[id := r]));
    }
  }

  lemma MarkStaleKeepsIndex(e: Evidence, p: EvidenceRecord -> bool, reason: string)
    requires IndexInvariant(e)
    ensures IndexInvariant(MarkStale(e, p, reason))
  {
    RelabelKeepsIndex(e, MarkStale(e, p, reason));
  }

  lemma MarkEpochStaleKeepsIndex(o: Oracles, e: Evidence, epoch: nat)
    requires IndexInvariant(e)
    ensures IndexInvariant(MarkEpochStale(o, e, epoch))
  {
    RelabelKeepsIndex(e, MarkEpochStale(o, e, epoch));
  }

  // ---- eviction -----------------------------------------------------------

  lemma FlowOrderAfterEviction(e: Evidence, flow: FlowId)
    requires RingInvariant(e) && e.order != []
    ensures e.order[0] in e.byId
    ensures var key := e.order[0];
            FlowOrder(e, flow)
            == (if e.byId[key].flowId == flow then [key] else []) + FlowOrder(EvictFirst(e), flow)
  {
    hide Filter;
    var key, rest := e.order[0], e.order[1..];
    assert key in e.order;
    assert e.order == [key] + rest;
    var p := OfFlow(e.byId, flow);
    FilterConcat(p, [key], rest);
    FilterSingleton(p, key);
    HeadNotInTail(key, rest);
    FilterAgrees(p, OfFlow(e.byId - {key}, flow), rest);
  }

  lemma EvictFirstKeepsRing(e: Evidence)
    requires RingInvariant(e) && e.order != []
    ensures RingInvariant(EvictFirst(e))
    ensures |EvictFirst(e).byId| == |e.byId| - 1
  {
    var f, key := EvictFirst(e), e.order[0];
    assert key in e.order;
    assert f.byId.Keys == e.byId.Keys - {key};
    assert |f.byId| == |f.byId.Keys| == |e.byId.Keys| - 1;
    forall id
      ensures id in f.order <==> id in f.byId
    {
      TailMembers(e.order, id);
    }
  }

  lemma EvictFirstKeepsFlow(e: Evidence, flow: FlowId)
    requires RingInvariant(e) && e.order != [] && FlowIndexed(e, flow)
    ensures FlowIndexed(EvictFirst(e), flow)
  {
    hide Filter;
    var f, key := EvictFirst(e), e.order[0];
    assert key in e.order;
    FlowOrderAfterEviction(e, flow);
    if e.byId[key].flowId == flow && flow in e.byFlow {
      FilterNoRepeats(OfFlow(e.byId, flow), e.order);
      RemoveHeadFromSuffix(NotId(key), e.byFlow[flow], key, FlowOrder(f, flow));
    }
  }

  lemma EvictFirstKeepsIndex(e: Evidence)
    requires IndexInvariant(e) && e.order != []
    ensures IndexInvariant(EvictFirst(e))
    ensures |EvictFirst(e).byId| == |e.byId| - 1
  {
    EvictFirstKeepsRing(e);
    forall flow
      ensures FlowIndexed(EvictFirst(e), flow)
    {
      EvictFirstKeepsFlow(e, flow);
    }
  }

  lemma {:induction false} EvictOldestKeepsIndex(e: Evidence)
    requires IndexInvariant(e)
    ensures IndexInvariant(EvictOldest(e))
    ensures e.maxRecords > 0 ==> |EvictOldest(e).byId| < e.maxRecords
    ensures EvictOldest(e).maxRecords == e.maxRecords
    decreases |e.order|
  {
    if e.order == [] {
      EmptyRing(e);
    } else if |e.byId| >= e.maxRecords {
      EvictFirstKeepsIndex(e);
      EvictOldestKeepsIndex(EvictFirst(e));
    }
  }

  lemma EmptyRing(e: Evidence)
    requires IndexInvariant(e) && e.order == []
    ensures |e.byId| == 0
  {
    assert forall id :: id !in e.byId.Keys;
    assert e.byId.Keys == {};
  }

  // ---- insertion and restoration ------------------------------------------

  lemma FlowOrderAfterAppend(e: Evidence, r: EvidenceRecord, ids: seq<string>, flow: FlowId)
    requires RingInvariant(e) && r.id !in e.byId
    ensures FlowOrder(Appended(e, r, ids), flow) == FlowOrder(e, flow) + if r.flowId == flow then [r.id] else []
  {
    var p := OfFlow(Appended(e, r, ids).byId, flow);
    FilterConcat(p, e.order, [r.id]);
    FilterSingleton(p, r.id);
    FilterAgrees(OfFlow(e.byId, flow), p, e.order);
  }

  lemma AppendKeepsRing(e: Evidence, r: EvidenceRecord, ids: seq<string>)
    requires RingInvariant(e) && r.id !in e.byId && |e.byId| < e.maxRecords
    ensures RingInvariant(Appended(e, r, ids))
  {
    var f := Appended(e, r, ids);
    assert f.byId.Keys == e.byId.Keys + {r.id};
    assert |f.byId| == |f.byId.Keys| && |e.byId| == |e.byId.Keys|;
    AppendNoRepeats(e.order, r.id);
  }

  lemma AppendKeepsFlow(e: Evidence, r: EvidenceRecord, ids: seq<string>, flow: FlowId)
    requires RingInvariant(e) && r.id !in e.byId && FlowIndexed(e, flow)
    requires Suffix(ids, FlowOrder(e, r.flowId) + [r.id])
    requires |ids| <= AtLeastOne(e.maxPerFlow)
    ensures FlowIndexed(Appended(e, r, ids), flow)
  {
    FlowOrderAfterAppend(e, r, ids, flow);
    if flow != r.flowId {
      assert FlowOrder(Appended(e, r, ids), flow) == FlowOrder(e, flow);
    }
  }

  lemma AppendKeepsIndex(e: Evidence, r: EvidenceRecord, ids: seq<string>)
    requires IndexInvariant(e) && r.id !in e.byId && |e.byId| < e.maxRecords
    requires Suffix(ids, FlowOrder(e, r.flowId) + [r.id])
    requires |ids| <= AtLeastOne(e.maxPerFlow)
    ensures IndexInvariant(Appended(e, r, ids))
  {
    AppendKeepsRing(e, r, ids);
    forall flow
      ensures FlowIndexed(Appended(e, r, ids), flow)
    {
      AppendKeepsFlow(e, r, ids, flow);
    }
  }

  lemma MakeRoomSuffix(ids: seq<string>, all: seq<string>, bound: nat, id: string)
    requires Suffix(ids, all)
    ensures Suffix(MakeRoom(ids, bound) + [id], all + [id])
    ensures |MakeRoom(ids, bound)| + 1 <= AtLeastOne(bound)
  {
  }

  lemma InsertKeepsIndex(e: Evidence, r: EvidenceRecord)
    requires IndexInvariant(e)
    ensures IndexInvariant(Inserted(e, r).0)
  {
    EvictOldestKeepsIndex(e);
    var room := if |e.byId| >= e.maxRecords then EvictOldest(e) else e;
    if r.id != "" && r.id !in e.byId && Inserted(e, r).1.Ok? {
      assert r.id !in room.byId by {
        EvictionOnlyRemoves(e);
      }
      assert FlowIndexed(room, r.flowId);
      var ids := if r.flowId in room.byFlow then MakeRoom(room.byFlow[r.flowId], room.maxPerFlow) else [];
      if r.flowId in room.byFlow {
        MakeRoomSuffix(room.byFlow[r.flowId], FlowOrder(room, r.flowId), room.maxPerFlow, r.id);
      }
      AppendKeepsIndex(room, r, ids + [r.id]);
    }
  }

  /** Eviction removes records and changes none. */
  lemma {:induction false} EvictionOnlyRemoves(e: Evidence)
    ensures forall id | id in EvictOldest(e).byId :: id in e.byId && EvictOldest(e).byId[id] == e.byId[id]
    decreases |e.order|
  {
    if e.order != [] && |e.byId| >= e.maxRecords {
      EvictionOnlyRemoves(EvictFirst(e));
    }
  }

  lemma EvictFirstDrops(e: Evidence, flow: FlowId, id: string)
    requires e.order != []
    requires flow in EvictFirst(e).byFlow && id in EvictFirst(e).byFlow[flow]
    ensures flow in e.byFlow && id in e.byFlow[flow]
  {
    var key := e.order[0];
    if key in e.byId && flow == e.byId[key].flowId {
      FilterMembers(NotId(e.byId[key].id), e.byFlow[flow]);
    }
  }

  /** Eviction takes identities off flow lists and adds none. */
  lemma {:induction false} EvictionDrops(e: Evidence, flow: FlowId, id: string)
    requires flow in EvictOldest(e).byFlow && id in EvictOldest(e).byFlow[flow]
    ensures flow in e.byFlow && id in e.byFlow[flow]
    decreases |e.order|
  {
    if e.order != [] && |e.byId| >= e.maxRecords {
      EvictionDrops(EvictFirst(e), flow, id);
      EvictFirstDrops(e, flow, id);
    }
  }

  /** The store may have lost entries, and may have gained `r`. */
  ghost predicate Gains(e: Evidence, f: Evidence, r: EvidenceRecord) {
    && (forall id | id in f.byId :: (f.byId[id] == r && id == r.id) || (id in e.byId && f.byId[id] == e.byId[id]))
    && (forall flow, id | flow in f.byFlow && id in f.byFlow[flow] ::
          (flow == r.flowId && id == r.id) || (flow in e.byFlow && id in e.byFlow[flow]))
  }

  lemma EvictionGains(e: Evidence, r: EvidenceRecord)
    ensures Gains(e, EvictOldest(e), r)
  {
    EvictionOnlyRemoves(e);
    forall flow, id | flow in EvictOldest(e).byFlow && id in EvictOldest(e).byFlow[flow]
      ensures flow in e.byFlow && id in e.byFlow[flow]
    {
      EvictionDrops(e, flow, id);
    }
  }

  lemma AppendGains(e: Evidence, room: Evidence, r: EvidenceRecord, ids: seq<string>)
    requires Gains(e, room, r)
    requires forall id | id in ids :: id == r.id || (r.flowId in room.byFlow && id in room.byFlow[r.flowId])
    ensures Gains(e, Appended(room, r, ids), r)
  {
  }

  /** Insertion adds at most the record itself, evicting others whole. */
  lemma InsertGains(e: Evidence, r: EvidenceRecord)
    ensures Gains(e, Inserted(e, r).0, r)
    ensures Inserted(e, r).1.Ok? && r.id !in e.byId ==> r.id in Inserted(e, r).0.byId && Inserted(e, r).0.byId[r.id] == r
  {
    EvictionGains(e, r);
    var room := if |e.byId| >= e.maxRecords then EvictOldest(e) else e;
    if r.id != "" && r.id !in e.byId && Inserted(e, r).1.Ok? {
      var ids := if r.flowId in room.byFlow then MakeRoom(room.byFlow[r.flowId], room.maxPerFlow) else [];
      AppendGains(e, room, r, ids + [r.id]);
    }
  }

  lemma IndexedList(e: Evidence, r: EvidenceRecord)
    requires FlowIndexed(e, r.flowId)
    ensures var ids := Indexed(e, r.flowId, r.id)[r.flowId];
            && Suffix(ids, FlowOrder(e, r.flowId) + [r.id])
            && |ids| <= AtLeastOne(e.maxPerFlow)
            && Indexed(e, r.flowId, r.id) == e.byFlow[r.flowId := ids]
  {
    if r.flowId in e.byFlow && e.maxPerFlow != 0 {
      MakeRoomSuffix(e.byFlow[r.flowId], FlowOrder(e, r.flowId), e.maxPerFlow, r.id);
    }
  }

  lemma RestoreKeepsIndex(o: Oracles, e: Evidence, r: EvidenceRecord)
    requires IndexInvariant(e)
    ensures IndexInvariant(Restored(o, e, r).0)
  {
    if r.id !in e.byId && |e.byId| < e.maxRecords {
      var stored := StaledIf(true, r, o.render(Reloaded));
      IndexedList(e, stored);
      AppendKeepsIndex(e, stored, Indexed(e, r.flowId, r.id)[r.flowId]);
    }
  }

  // ---- what a flow can reach ----------------------------------------------

  lemma {:induction false} RecordsOfComplete(e: Evidence, ids: seq<string>)
    requires forall id | id in ids :: id in e.byId
    ensures |RecordsOf(e, ids)| == |ids|
    ensures forall i | 0 <= i < |ids| :: RecordsOf(e, ids)[i] == e.byId[ids[i]]
  {
    if ids != [] {
      assert ids[|ids| - 1] in ids;
      assert forall id | id in ids[..|ids| - 1] :: id in ids;
      RecordsOfComplete(e, ids[..|ids| - 1]);
    }
  }

  lemma IndexedIdsAreStored(e: Evidence, flow: FlowId)
    requires IndexInvariant(e) && flow in e.byFlow
    ensures NoRepeats(e.byFlow[flow])
    ensures forall id | id in e.byFlow[flow] :: id in e.byId && e.byId[id].flowId == flow
  {
    assert FlowIndexed(e, flow);
    var all := FlowOrder(e, flow);
    FilterMembers(OfFlow(e.byId, flow), e.order);
    FilterNoRepeats(OfFlow(e.byId, flow), e.order);
    assert forall id | id in e.byFlow[flow] :: id in all;
  }

  /**
   * A flow reaches exactly the records its list names: none is missing, each is stored under
   * its own identity, belongs to the flow and appears once.
   */
  lemma FlowReachesItsList(e: Evidence, flow: FlowId)
    requires IndexInvariant(e)
    ensures flow in e.byFlow ==> |FlowRecords(e, flow)| == |e.byFlow[flow]|
    ensures forall r | r in FlowRecords(e, flow) :: r.id in e.byId && e.byId[r.id] == r && r.flowId == flow
    ensures forall i, j | 0 <= i < j < |FlowRecords(e, flow)| :: FlowRecords(e, flow)[i].id != FlowRecords(e, flow)[j].id
    ensures flow in e.byFlow ==> forall id | id in e.byFlow[flow] :: id in e.byId && e.byId[id] in FlowRecords(e, flow)
  {
    if flow in e.byFlow {
      var ids := e.byFlow[flow];
      IndexedIdsAreStored(e, flow);
      RecordsOfComplete(e, ids);
      var rs := RecordsOf(e, ids);
      MultisetMembership(FlowRecords(e, flow), rs);
      forall r | r in rs
        ensures r.id in e.byId && e.byId[r.id] == r && r.flowId == flow
      {
        var i :| 0 <= i < |rs| && rs[i] == r;
        assert ids[i] in ids;
      }
      forall id | id in ids
        ensures id in e.byId && e.byId[id] in rs
      {
        var i :| 0 <= i < |ids| && ids[i] == id;
        assert rs[i] in rs;
      }
      DistinctSorted(e, flow);
    }
  }

  lemma DistinctSorted(e: Evidence, flow: FlowId)
    requires IndexInvariant(e) && flow in e.byFlow
    ensures forall i, j | 0 <= i < j < |FlowRecords(e, flow)| :: FlowRecords(e, flow)[i].id != FlowRecords(e, flow)[j].id
  {
    var ids := e.byFlow[flow];
    IndexedIdsAreStored(e, flow);
    RecordsOfComplete(e, ids);
    var rs, sorted := RecordsOf(e, ids), FlowRecords(e, flow);
    assert NoRepeats(rs) by {
      forall i, j | 0 <= i < j < |rs|
        ensures rs[i] != rs[j]
      {
        assert ids[i] in ids && ids[j] in ids;
      }
    }
    NoRepeatsPermutation(rs, sorted);
    MultisetMembership(rs, sorted);
    forall i, j | 0 <= i < j < |sorted|
      ensures sorted[i].id != sorted[j].id
    {
      assert sorted[i] in rs && sorted[j] in rs;
      var a :| 0 <= a < |rs| && rs[a] == sorted[i];
      var b :| 0 <= b < |rs| && rs[b] == sorted[j];
      assert ids[a] in ids && ids[b] in ids;
    }
  }

  // ---- the store as it runs -----------------------------------------------

  function IdsOf(rs: seq<EvidenceRecord>): seq<string> {
    seq(|rs|, i requires 0 <= i < |rs| => rs[i].id)
  }

  class Store {
    const maxRecords: nat
    const maxPerFlow: nat
    const maxFlowIndex: nat
    var byId: map<string, EvidenceRecord>
    var byFlow: map<FlowId, seq<string>>
    var order: seq<string>

    ghost function State(): Evidence
      reads this
    {
      Evidence(byId, byFlow, order, maxRecords, maxPerFlow, maxFlowIndex)
    }

    constructor (limits: ResourceLimits)
      ensures State() == EmptyEvidence(limits)
    {
      maxRecords, maxPerFlow, maxFlowIndex :=
        limits.maxEvidenceRecords, limits.maxEvidencePerFlow, limits.maxFlowKeyIndex;
      byId, byFlow, order := map[], map[], [];
    }

    method Find(id: string) returns (r: Result<EvidenceRecord>)
      ensures r == if id in byId then Ok(byId[id]) else Err(NotFound)
    {
      if id in byId {
        r := Ok(byId[id]);
      } else {
        r := Err(NotFound);
      }
    }

    method EvidenceForFlow(flow: FlowId) returns (ids: seq<string>)
      ensures ids == IdsOf(FlowRecords(State(), flow))
    {
      ids := [];
      if flow !in byFlow {
        return;
      }
      var listed := byFlow[flow];
      var records: seq<EvidenceRecord> := [];
      for i := 0 to |listed|
        invariant records == RecordsOf(State(), listed[..i])
      {
        if listed[i] in byId {
          records := records + [byId[listed[i]]];
        }
        assert listed[..i + 1][..i] == listed[..i];
      }
      assert listed[..|listed|] == listed;
      records := Sort(AcceptedBefore, records);
      for i := 0 to |records|
        invariant ids == IdsOf(records[..i])
      {
        ids := ids + [records[i].id];
      }
      assert records[..|records|] == records;
    }

    method UnindexFlow(flow: FlowId, id: string)
      modifies this`byFlow
      ensures byFlow == Unindexed(old(byFlow), flow, id)
    {
      if flow !in byFlow {
        return;
      }
      var ids: seq<string> := [];
      var listed := byFlow[flow];
      for i := 0 to |listed|
        invariant ids == Filter(NotId(id), listed[..i])
      {
        if listed[i] != id {
          ids := ids + [listed[i]];
        }
        assert listed[..i + 1][..i] == listed[..i];
      }
      assert listed[..|listed|] == listed;
      if ids == [] {
        byFlow := byFlow - {flow};
      } else {
        byFlow := byFlow[flow := ids];
      }
    }

    method EvictOldestRecords()
      modifies this
      ensures State() == EvictOldest(old(State()))
    {
      while order != [] && |byId| >= maxRecords
        invariant EvictOldest(State()) == EvictOldest(old(State()))
        decreases |order|
      {
        ghost var before := State();
        var key := order[0];
        order := order[1..];
        if key in byId {
          UnindexFlow(byId[key].flowId, byId[key].id);
          byId := byId - {key};
        }
        assert State() == EvictFirst(before);
      }
    }

    /** Drops the oldest ids until one more fits under the per-flow bound. */
    method TrimList(listed: seq<string>) returns (ids: seq<string>)
      ensures ids == MakeRoom(listed, maxPerFlow)
    {
      ids := listed;
      ghost var k := 0;
      while ids != [] && |ids| >= maxPerFlow
        invariant 0 <= k <= |listed| && ids == listed[k..]
        invariant k == 0 || |listed| - k >= maxPerFlow - 1
        decreases |ids|
      {
        ids := ids[1..];
        k := k + 1;
      }
    }

    method Insert(record: EvidenceRecord) returns (r: Result<()>)
      modifies this
      ensures (State(), r) == Inserted(old(State()), record)
    {
      if record.id == "" {
        return Err(InvalidArgument);
      }
      if record.id in byId {
        if byId[record.id].contentDigest == record.contentDigest && byId[record.id].publisher == record.publisher {
          return Ok(());
        }
        return Err(DuplicateIdentity);
      }
      if |byId| >= maxRecords {
        EvictOldestRecords();
        if |byId| >= maxRecords {
          return Err(CapacityExceeded);
        }
      }
      if record.flowId !in byFlow && |byFlow| >= maxFlowIndex {
        return Err(CapacityExceeded);
      }
      var ids: seq<string> := [];
      if record.flowId in byFlow {
        ids := TrimList(byFlow[record.flowId]);
      }
      byFlow := byFlow[record.flowId := ids + [record.id]];
      byId := byId[record.id := record];
      order := order + [record.id];
      r := Ok(());
    }

    method SetState(id: string, state: EvidenceState, reason: string) returns (r: Result<()>)
      modifies this`byId
      ensures (State(), r) == WithState(old(State()), id, state, reason)
    {
      if id !in byId {
        return Err(NotFound);
      }
      var record := byId[id];
      if record.state == state {
        return Ok(());
      }
      if record.state != EvidenceCurrent && state == EvidenceCurrent {
        return Err(Unauthorized);
      }
      byId := byId[id := record.(state := state, stateReason := reason)];
      r := Ok(());
    }

    method MarkStaleByPredicate(p: EvidenceRecord -> bool, reason: string)
      modifies this`byId
      ensures State() == MarkStale(old(State()), p, reason)
    {
      var was, marked, todo := byId, byId, byId.Keys;
      while todo != {}
        invariant todo <= was.Keys == marked.Keys
        invariant forall id | id in was ::
                    marked[id] == if id in todo then was[id] else StaledIf(p(was[id]), was[id], reason)
        decreases |todo|
      {
        var id :| id in todo;
        var record := was[id];
        if record.state == EvidenceCurrent && p(record) {
          marked := marked[id := record.(state := EvidenceStale, stateReason := reason)];
        }
        todo := todo - {id};
      }
      byId := marked;
    }

    method MarkEpochStaleRecords(o: Oracles, epoch: nat)
      modifies this`byId
      ensures State() == MarkEpochStale(o, old(State()), epoch)
    {
      var was, marked, todo := byId, byId, byId.Keys;
      while todo != {}
        invariant todo <= was.Keys == marked.Keys
        invariant forall id | id in was ::
                    marked[id] == if id in todo then was[id]
                                  else StaledIf(was[id].acceptedEpoch != epoch, was[id],
                                                o.render(EpochAdvanced(was[id].acceptedEpoch, epoch)))
        decreases |todo|
      {
        var id :| id in todo;
        var record := was[id];
        if record.state == EvidenceCurrent && record.acceptedEpoch != epoch {
          marked := marked[id := record.(state := EvidenceStale,
                                         stateReason := o.render(EpochAdvanced(record.acceptedEpoch, epoch)))];
        }
        todo := todo - {id};
      }
      byId := marked;
    }

    method IndexFlow(flow: FlowId, id: string)
      modifies this`byFlow
      ensures byFlow == Indexed(old(State()), flow, id)
    {
      if flow !in byFlow {
        byFlow := byFlow[flow := [id]];
        return;
      }
      var ids := TrimList(byFlow[flow]);
      byFlow := byFlow[flow := ids];
      if maxPerFlow == 0 {
        return;
      }
      byFlow := byFlow[flow := ids + [id]];
    }

    method RestoreRecord(o: Oracles, record: EvidenceRecord) returns (r: Result<()>)
      modifies this
      ensures (State(), r) == Restored(o, old(State()), record)
    {
      if record.id in byId {
        return Err(DuplicateIdentity);
      }
      if |byId| >= maxRecords {
        return Err(CapacityExceeded);
      }
      var stored := record;
      if stored.state == EvidenceCurrent {
        stored := stored.(state := EvidenceStale, stateReason := o.render(Reloaded));
      }
      IndexFlow(stored.flowId, stored.id);
      byId := byId[stored.id := stored];
      order := order + [stored.id];
      r := Ok(());
    }
  }
}
