/**
 * What the bounded stores keep: the evidence ring and the decision memo give up their oldest
 * entry for a new one, and a flow's list its oldest identity.
 */
module StoreMeaning {
  import opened Domain
  import opened Sorting
  import E = EvidenceStore
  import D = ClassificationIndex

  // ---- the evidence ring --------------------------------------------------

  /** The flow's list without an identity, and no list when that leaves it empty. */
  ghost predicate Unlists(before: map<FlowId, seq<string>>, after: map<FlowId, seq<string>>, flow: FlowId, id: string) {
    && after - {flow} == before - {flow}
    && var left := if flow in before then Filter((x: string) => x != id, before[flow]) else [];
       if left == [] then flow !in after else flow in after && after[flow] == left
  }

  /** The ring without its oldest record: gone from the table, and from its flow's list. */
  ghost predicate LosesOldest(e: E.Evidence, g: E.Evidence) {
    && e.order != [] && e.order[0] in e.byId
    && g.order == e.order[1..]
    && g.byId == e.byId - {e.order[0]}
    && Unlists(e.byFlow, g.byFlow, e.byId[e.order[0]].flowId, e.order[0])
    && g == e.(order := g.order, byId := g.byId, byFlow := g.byFlow)
  }

  /** There is room, or the oldest makes it. */
  ghost predicate Clears(e: E.Evidence, g: E.Evidence) {
    if |e.byId| < e.maxRecords then g == e else LosesOldest(e, g)
  }

  /** The youngest that leave room, and the new identity after them. */
  ghost predicate JoinsList(ids: seq<string>, now: seq<string>, bound: nat, id: string) {
    && now != [] && now[|now| - 1] == id
    && Suffix(now[..|now| - 1], ids)
    && |now| == if |ids| < bound then |ids| + 1 else if bound == 0 then 1 else bound
  }

  /** The record is the youngest of the ring and of its flow's list. */
  ghost predicate Adds(g: E.Evidence, f: E.Evidence, r: EvidenceRecord) {
    && f.order == g.order + [r.id]
    && f.byId == g.byId[r.id := r]
    && f.byFlow - {r.flowId} == g.byFlow - {r.flowId}
    && r.flowId in f.byFlow
    && JoinsList(if r.flowId in g.byFlow then g.byFlow[r.flowId] else [], f.byFlow[r.flowId], g.maxPerFlow, r.id)
    && f == g.(order := f.order, byId := f.byId, byFlow := f.byFlow)
  }

  /** A known identity is confirmed or refused and changes nothing; a new one is added once there is room. */
  ghost predicate Inserts(e: E.Evidence, r: EvidenceRecord, f: E.Evidence, res: Result<()>) {
    if r.id == "" then
      res == Err(InvalidArgument) && f == e
    else if r.id in e.byId then
      && f == e
      && res == if e.byId[r.id].contentDigest == r.contentDigest && e.byId[r.id].publisher == r.publisher then Ok(())
                else Err(DuplicateIdentity)
    else if e.maxRecords == 0 then
      res == Err(CapacityExceeded) && f == e
    else
      exists g ::
        && Clears(e, g)
        && if r.flowId !in g.byFlow && |g.byFlow| >= g.maxFlowIndex then res == Err(CapacityExceeded) && f == g
           else res == Ok(()) && Adds(g, f, r)
  }

  lemma EvictedLosesOldest(e: E.Evidence)
    requires E.RingInvariant(e) && e.order != []
    ensures LosesOldest(e, E.EvictFirst(e))
  {
    hide Unlists, E.Unindexed;
    assert e.order[0] in e.order;
    UnindexedUnlists(e.byFlow, e.byId[e.order[0]].flowId, e.order[0]);
  }

  lemma UnindexedUnlists(byFlow: map<FlowId, seq<string>>, flow: FlowId, id: string)
    ensures Unlists(byFlow, E.Unindexed(byFlow, flow, id), flow, id)
  {
    if flow in byFlow {
      FilterAgrees(E.NotId(id), (x: string) => x != id, byFlow[flow]);
    }
  }

  lemma RoomIsCleared(e: E.Evidence)
    requires E.RingInvariant(e) && e.maxRecords > 0
    ensures var room := if |e.byId| >= e.maxRecords then E.EvictOldest(e) else e;
            Clears(e, room) && |room.byId| < room.maxRecords && room.maxRecords == e.maxRecords
  {
    hide E.EvictFirst, LosesOldest, Filter;
    if |e.byId| >= e.maxRecords {
      RingNotEmpty(e);
      EvictedLosesOldest(e);
      E.EvictFirstKeepsRing(e);
      var g := E.EvictFirst(e);
      LosesNoBound(e, g);
      assert E.EvictOldest(g) == g;
    }
  }

  lemma LosesNoBound(e: E.Evidence, g: E.Evidence)
    requires LosesOldest(e, g)
    ensures g.maxRecords == e.maxRecords
  {
  }

  lemma RingNotEmpty(e: E.Evidence)
    requires E.RingInvariant(e) && |e.byId| > 0
    ensures e.order != []
  {
    assert |e.byId.Keys| > 0;
    var id :| id in e.byId.Keys;
    assert id in e.order;
  }

  lemma TableNotEmpty(e: E.Evidence)
    requires E.RingInvariant(e) && e.order != []
    ensures |e.byId| > 0
  {
    assert e.order[0] in e.order;
    assert e.order[0] in e.byId.Keys;
  }

  lemma ListJoined(ids: seq<string>, bound: nat, id: string)
    ensures JoinsList(ids, E.MakeRoom(ids, bound) + [id], bound, id)
  {
    var now := E.MakeRoom(ids, bound) + [id];
    assert now[..|now| - 1] == E.MakeRoom(ids, bound);
  }

  lemma AppendedAdds(g: E.Evidence, r: EvidenceRecord)
    ensures var ids := if r.flowId in g.byFlow then E.MakeRoom(g.byFlow[r.flowId], g.maxPerFlow) else [];
            Adds(g, E.Appended(g, r, ids + [r.id]), r)
  {
    hide JoinsList, E.MakeRoom;
    var ids := if r.flowId in g.byFlow then g.byFlow[r.flowId] else [];
    ListJoined(ids, g.maxPerFlow, r.id);
    NoRoomNeeded(g.maxPerFlow);
  }

  lemma NoRoomNeeded(bound: nat)
    ensures E.MakeRoom([], bound) == []
  {
  }

  lemma NothingToEvict(e: E.Evidence)
    requires E.RingInvariant(e) && e.maxRecords == 0
    ensures E.EvictOldest(e) == e
  {
    hide E.EvictFirst;
    if e.order != [] {
      TableNotEmpty(e);
    }
  }

  /** What inserting a record does to the store, in every case. */
  lemma InsertionMeans(e: E.Evidence, r: EvidenceRecord)
    requires E.RingInvariant(e)
    ensures var x := E.Inserted(e, r); Inserts(e, r, x.0, x.1)
  {
    hide E.EvictOldest, E.MakeRoom, E.Appended, Adds, Clears, E.RingInvariant;
    var room := if |e.byId| >= e.maxRecords then E.EvictOldest(e) else e;
    if r.id != "" && r.id !in e.byId {
      if e.maxRecords == 0 {
        NothingToEvict(e);
      } else {
        RoomIsCleared(e);
        AppendedAdds(room, r);
        assert Clears(e, room);
      }
    }
  }

  // ---- the decision memo --------------------------------------------------

  /** The newest answer replaces its own, joins, or takes the place of the oldest. */
  ghost predicate Remembers(d: D.Decisions, e: D.Decisions, key: D.DecisionKey, c: Classification) {
    && e == d.(memo := e.memo, memoOrder := e.memoOrder)
    && if key in d.memo then
         e.memo == d.memo[key := c] && e.memoOrder == d.memoOrder
       else if d.bounds.memoEntries == 0 then
         e == d
       else if |d.memo| < d.bounds.memoEntries then
         e.memo == d.memo[key := c] && e.memoOrder == d.memoOrder + [key]
       else
         && d.memoOrder != []
         && e.memo == (d.memo - {d.memoOrder[0]})[key := c] && e.memoOrder == d.memoOrder[1..] + [key]
  }

  /** The memo gives up its oldest answer, and only when it is full. */
  lemma MemoMeans(d: D.Decisions, key: D.DecisionKey, c: Classification)
    requires D.MemoInvariant(d)
    ensures Remembers(d, D.MemoStored(d, key, c), key, c)
  {
    if key !in d.memo && |d.memo| >= d.bounds.memoEntries {
      if d.memoOrder == [] {
        D.EmptyMemo(d);
      } else {
        OneGoes(d);
      }
    }
  }

  lemma OneGoes(d: D.Decisions)
    requires D.MemoInvariant(d) && d.memoOrder != [] && |d.memo| >= d.bounds.memoEntries
    ensures d.bounds.memoEntries > 0
    ensures D.MemoEvicted(d) == d.(memo := d.memo - {d.memoOrder[0]}, memoOrder := d.memoOrder[1..])
    ensures |D.MemoEvicted(d).memo| < d.bounds.memoEntries
  {
    var k := d.memoOrder[0];
    assert k in d.memoOrder && k in d.memo.Keys;
    var left := d.memo - {k};
    assert left.Keys == d.memo.Keys - {k};
    assert |left| == |left.Keys| && |d.memo| == |d.memo.Keys|;
  }
}
