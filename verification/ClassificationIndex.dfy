/**
 * Classification history, revocations, supersessions and the decision memo, each bounded.
 */
module ClassificationIndex {
  import opened Domain
  import opened Sorting

  datatype DecisionKey = DecisionKey(
    flowId: FlowId,
    flowGeneration: nat,
    evidenceDigest: Digest,
    policyGeneration: nat)

  datatype FlowHistory = FlowHistory(decisions: seq<Classification>, contradictions: seq<Contradiction>)

  datatype Bounds = Bounds(
    decisionsPerFlow: nat,
    memoEntries: nat,
    contradictions: nat,
    supersessions: nat,
    revocations: nat)

  datatype Decisions = Decisions(
    history: map<FlowId, FlowHistory>,
    memo: map<DecisionKey, Classification>,
    memoOrder: seq<DecisionKey>,
    revocations: seq<RevocationRecord>,
    supersessions: seq<SupersessionRecord>,
    bounds: Bounds)

  function EmptyDecisions(limits: ResourceLimits): Decisions {
    Decisions(map[], map[], [], [], [],
              Bounds(limits.maxDecisionsPerFlow, limits.maxFlowKeyIndex, limits.maxContradictionsPerFlow,
                     limits.maxSupersessions, limits.maxRevocations))
  }

  // ---- what the operations compute ----------------------------------------

  /** The youngest `n` elements. */
  function Youngest<T>(s: seq<T>, n: nat): seq<T> {
    if |s| > n then s[|s| - n..] else s
  }

  /** Appends to a ring that holds at most `bound` elements, a bound of at least one. */
  function Pushed<T>(ring: seq<T>, bound: nat, x: T): seq<T> {
    (if |ring| >= bound && |ring| > 0 then ring[1..] else ring) + [x]
  }

  function HistoryOf(d: Decisions, flow: FlowId): FlowHistory {
    if flow in d.history then d.history[flow] else FlowHistory([], [])
  }

  function Recorded(d: Decisions, c: Classification): Decisions {
    var h := HistoryOf(d, c.flowId);
    d.(history := d.history[c.flowId := FlowHistory(Youngest(h.decisions + [c], d.bounds.decisionsPerFlow),
                                                    Youngest(h.contradictions + c.contradictions, d.bounds.contradictions))])
  }

  /** Drops the oldest memo entries until one more fits. */
  function MemoEvicted(d: Decisions): Decisions
    decreases |d.memoOrder|
  {
    if d.memoOrder == [] || |d.memo| < d.bounds.memoEntries then d
    else MemoEvicted(d.(memo := d.memo - {d.memoOrder[0]}, memoOrder := d.memoOrder[1..]))
  }

  function MemoStored(d: Decisions, key: DecisionKey, c: Classification): Decisions {
    if key in d.memo then
      d.(memo := d.memo[key := c])
    else
      var room := if |d.memo| >= d.bounds.memoEntries then MemoEvicted(d) else d;
      if |room.memo| >= room.bounds.memoEntries then room
      else room.(memo := room.memo[key := c], memoOrder := room.memoOrder + [key])
  }

  function WithRevocation(d: Decisions, r: RevocationRecord): Decisions {
    d.(revocations := Pushed(d.revocations, d.bounds.revocations, r))
  }

  function WithSupersession(d: Decisions, r: SupersessionRecord): Decisions {
    d.(supersessions := Pushed(d.supersessions, d.bounds.supersessions, r))
  }

  /** A revocation of the whole incarnation, as opposed to the withdrawal of one record. */
  predicate Revokes(r: RevocationRecord, flow: FlowId, generation: nat) {
    r.flowId == flow && r.flowGeneration == generation && r.evidenceId == ""
  }

  predicate IsRevoked(d: Decisions, flow: FlowId, generation: nat) {
    exists i | 0 <= i < |d.revocations| :: Revokes(d.revocations[i], flow, generation)
  }

  function Outdated(c: Classification, generation: nat): Classification {
    if c.flowGeneration < generation then c.(state := Stale) else c
  }

  function OutdateAll(cs: seq<Classification>, generation: nat): seq<Classification> {
    seq(|cs|, i requires 0 <= i < |cs| => Outdated(cs[i], generation))
  }

  function GenerationSuperseded(d: Decisions, flow: FlowId, generation: nat): Decisions {
    if flow !in d.history then d
    else
      var h := d.history[flow];
      d.(history := d.history[flow := h.(decisions := OutdateAll(h.decisions, generation))])
  }

  function Cleared(d: Decisions): Decisions {
    Decisions(map[], map[], [], [], [], d.bounds)
  }

  function RestoredClassification(d: Decisions, c: Classification): Decisions {
    var h := HistoryOf(d, c.flowId);
    d.(history := d.history[c.flowId := h.(decisions := Youngest(h.decisions + [c], d.bounds.decisionsPerFlow))])
  }

  // ---- the memo is a bounded FIFO -----------------------------------------

  ghost predicate MemoInvariant(d: Decisions) {
    && NoRepeats(d.memoOrder)
    && (forall k :: k in d.memoOrder <==> k in d.memo)
    && |d.memo| <= d.bounds.memoEntries
  }

  lemma EmptyMemo(d: Decisions)
    requires MemoInvariant(d) && d.memoOrder == []
    ensures |d.memo| == 0
  {
    assert forall k :: k !in d.memo.Keys;
    assert d.memo.Keys == {};
  }

  lemma {:induction false} MemoEvictedKeepsInvariant(d: Decisions)
    requires MemoInvariant(d)
    ensures MemoInvariant(MemoEvicted(d))
    ensures d.bounds.memoEntries > 0 ==> |MemoEvicted(d).memo| < d.bounds.memoEntries
    ensures MemoEvicted(d).bounds == d.bounds
    decreases |d.memoOrder|
  {
    if d.memoOrder == [] {
      EmptyMemo(d);
    } else if |d.memo| >= d.bounds.memoEntries {
      var oldest := d.memoOrder[0];
      var e := d.(memo := d.memo - {oldest}, memoOrder := d.memoOrder[1..]);
      assert oldest in d.memoOrder;
      assert e.memo.Keys == d.memo.Keys - {oldest};
      assert |e.memo| == |e.memo.Keys| && |d.memo| == |d.memo.Keys|;
      forall k
        ensures k in e.memoOrder <==> k in e.memo
      {
        TailMembers(d.memoOrder, k);
      }
      MemoEvictedKeepsInvariant(e);
    }
  }

  /** Eviction removes memo entries and changes none. */
  lemma {:induction false} MemoEvictionOnlyRemoves(d: Decisions)
    ensures forall k | k in MemoEvicted(d).memo :: k in d.memo && MemoEvicted(d).memo[k] == d.memo[k]
    ensures MemoEvicted(d) == d.(memo := MemoEvicted(d).memo, memoOrder := MemoEvicted(d).memoOrder)
    decreases |d.memoOrder|
  {
    if d.memoOrder != [] && |d.memo| >= d.bounds.memoEntries {
      MemoEvictionOnlyRemoves(d.(memo := d.memo - {d.memoOrder[0]}, memoOrder := d.memoOrder[1..]));
    }
  }

  /** What the memo holds afterwards was there before, or is the stored pair. */
  lemma MemoStoredContents(d: Decisions, key: DecisionKey, c: Classification)
    ensures forall k | k in MemoStored(d, key, c).memo ::
              (k == key && MemoStored(d, key, c).memo[k] == c) || (k in d.memo && MemoStored(d, key, c).memo[k] == d.memo[k])
    ensures MemoStored(d, key, c)
         == d.(memo := MemoStored(d, key, c).memo, memoOrder := MemoStored(d, key, c).memoOrder)
  {
    MemoEvictionOnlyRemoves(d);
  }

  lemma MemoReplacedKeepsInvariant(d: Decisions, key: DecisionKey, c: Classification)
    requires MemoInvariant(d) && key in d.memo
    ensures MemoInvariant(d.(memo := d.memo[key := c]))
  {
    assert d.memo[key := c].Keys == d.memo.Keys;
    assert |d.memo[key := c]| == |d.memo[key := c].Keys| && |d.memo| == |d.memo.Keys|;
  }

  lemma MemoAddedKeepsInvariant(d: Decisions, key: DecisionKey, c: Classification)
    requires MemoInvariant(d) && key !in d.memo && |d.memo| < d.bounds.memoEntries
    ensures MemoInvariant(d.(memo := d.memo[key := c], memoOrder := d.memoOrder + [key]))
  {
    var memo := d.memo[key := c];
    assert memo.Keys == d.memo.Keys + {key};
    assert |memo| == |memo.Keys| && |d.memo| == |d.memo.Keys|;
    AppendNoRepeats(d.memoOrder, key);
  }

  lemma MemoStoredKeepsInvariant(d: Decisions, key: DecisionKey, c: Classification)
    requires MemoInvariant(d)
    ensures MemoInvariant(MemoStored(d, key, c))
    ensures d.bounds.memoEntries > 0 ==> key in MemoStored(d, key, c).memo && MemoStored(d, key, c).memo[key] == c
  {
    hide MemoInvariant, MemoEvicted;
    if key in d.memo {
      MemoReplacedKeepsInvariant(d, key, c);
    } else {
      MemoEvictedKeepsInvariant(d);
      MemoEvictionOnlyRemoves(d);
      var room := if |d.memo| >= d.bounds.memoEntries then MemoEvicted(d) else d;
      if |room.memo| < room.bounds.memoEntries {
        MemoAddedKeepsInvariant(room, key, c);
      }
    }
  }

  // ---- how long a revocation lasts ----------------------------------------

  function PushedAll<T>(ring: seq<T>, bound: nat, xs: seq<T>): seq<T> {
    if xs == [] then ring else Pushed(PushedAll(ring, bound, xs[..|xs| - 1]), bound, xs[|xs| - 1])
  }

  /** However much is pushed, the ring holds exactly the youngest `bound` elements. */
  lemma {:induction false} RingIsYoungest<T(!new)>(ring: seq<T>, bound: nat, xs: seq<T>)
    requires bound > 0 && |ring| <= bound
    ensures PushedAll(ring, bound, xs) == Youngest(ring + xs, bound)
  {
    if xs == [] {
      assert ring + xs == ring;
    } else {
      var init, last := xs[..|xs| - 1], xs[|xs| - 1];
      RingIsYoungest(ring, bound, init);
      assert ring + xs == (ring + init) + [last];
    }
  }

  lemma YoungestHolds<T(!new)>(start: seq<T>, later: seq<T>, bound: nat, r: T)
    requires bound > 0 && |start| > 0 && start[|start| - 1] == r && r !in later
    ensures r in Youngest(start + later, bound) <==> |later| < bound
  {
    var y := Youngest(start + later, bound);
    if |later| < bound {
      assert y[|y| - |later| - 1] == r;
    } else {
      assert y == later[|later| - bound..];
    }
  }

  /** A recorded revocation outlives fewer than `bound` later ones, and exactly those. */
  lemma RevocationLasts(ring: seq<RevocationRecord>, bound: nat, r: RevocationRecord, later: seq<RevocationRecord>)
    requires bound > 0 && |ring| <= bound
    requires r !in later
    ensures r in PushedAll(Pushed(ring, bound, r), bound, later) <==> |later| < bound
  {
    var start := Pushed(ring, bound, r);
    RingIsYoungest(start, bound, later);
    YoungestHolds(start, later, bound, r);
  }

  // ---- the index as it runs -----------------------------------------------

  class Index {
    const bounds: Bounds
    var history: map<FlowId, FlowHistory>
    var memo: map<DecisionKey, Classification>
    var memoOrder: seq<DecisionKey>
    var revocations: seq<RevocationRecord>
    var supersessions: seq<SupersessionRecord>

    ghost function State(): Decisions
      reads this
    {
      Decisions(history, memo, memoOrder, revocations, supersessions, bounds)
    }

    constructor (limits: ResourceLimits)
      ensures State() == EmptyDecisions(limits)
    {
      bounds := Bounds(limits.maxDecisionsPerFlow, limits.maxFlowKeyIndex, limits.maxContradictionsPerFlow,
                       limits.maxSupersessions, limits.maxRevocations);
      history, memo, memoOrder, revocations, supersessions := map[], map[], [], [], [];
    }

    method DropOldest<T>(s: seq<T>, n: nat) returns (r: seq<T>)
      ensures r == Youngest(s, n)
    {
      r := s;
      ghost var k := 0;
      while |r| > n
        invariant 0 <= k <= |s| && r == s[k..]
        invariant k == 0 || |r| >= n
        decreases |r|
      {
        r := r[1..];
        k := k + 1;
      }
    }

    method Record(c: Classification)
      modifies this`history
      ensures State() == Recorded(old(State()), c)
    {
      var h := if c.flowId in history then history[c.flowId] else FlowHistory([], []);
      var decisions := DropOldest(h.decisions + [c], bounds.decisionsPerFlow);
      var contradictions := h.contradictions;
      for i := 0 to |c.contradictions|
        invariant contradictions == h.contradictions + c.contradictions[..i]
      {
        contradictions := contradictions + [c.contradictions[i]];
      }
      assert c.contradictions[..|c.contradictions|] == c.contradictions;
      contradictions := DropOldest(contradictions, bounds.contradictions);
      history := history[c.flowId := FlowHistory(decisions, contradictions)];
    }

    method MemoLookup(key: DecisionKey) returns (hit: Option<Classification>)
      ensures hit == if key in memo then Some(memo[key]) else None
    {
      hit := if key in memo then Some(memo[key]) else None;
    }

    method MemoStore(key: DecisionKey, c: Classification)
      modifies this`memo, this`memoOrder
      ensures State() == MemoStored(old(State()), key, c)
    {
      if key in memo {
        memo := memo[key := c];
        return;
      }
      if |memo| >= bounds.memoEntries {
        while memoOrder != [] && |memo| >= bounds.memoEntries
          invariant MemoEvicted(State()) == MemoEvicted(old(State()))
          invariant State() == old(State()).(memo := memo, memoOrder := memoOrder)
          decreases |memoOrder|
        {
          var oldest := memoOrder[0];
          memoOrder := memoOrder[1..];
          memo := memo - {oldest};
        }
        if |memo| >= bounds.memoEntries {
          return;
        }
      }
      memo := memo[key := c];
      memoOrder := memoOrder + [key];
    }

    method RecordRevocation(r: RevocationRecord)
      modifies this`revocations
      ensures State() == WithRevocation(old(State()), r)
    {
      if |revocations| >= bounds.revocations && |revocations| > 0 {
        revocations := revocations[1..];
      }
      revocations := revocations + [r];
    }

    method RecordSupersession(r: SupersessionRecord)
      modifies this`supersessions
      ensures State() == WithSupersession(old(State()), r)
    {
      if |supersessions| >= bounds.supersessions && |supersessions| > 0 {
        supersessions := supersessions[1..];
      }
      supersessions := supersessions + [r];
    }

    method FindRevocation(flow: FlowId, generation: nat) returns (found: bool)
      ensures found == IsRevoked(State(), flow, generation)
    {
      found := false;
      for i := 0 to |revocations|
        invariant found <==> exists k | 0 <= k < i :: Revokes(revocations[k], flow, generation)
      {
        if revocations[i].flowId == flow && revocations[i].flowGeneration == generation && revocations[i].evidenceId == "" {
          found := true;
        }
      }
    }

    method SupersedeGeneration(flow: FlowId, generation: nat)
      modifies this`history
      ensures State() == GenerationSuperseded(old(State()), flow, generation)
    {
      if flow !in history {
        return;
      }
      var h := history[flow];
      var decisions := h.decisions;
      for i := 0 to |decisions|
        invariant |decisions| == |h.decisions|
        invariant forall k | 0 <= k < i :: decisions[k] == Outdated(h.decisions[k], generation)
        invariant forall k | i <= k < |decisions| :: decisions[k] == h.decisions[k]
      {
        if decisions[i].flowGeneration < generation && decisions[i].state != Stale {
          decisions := decisions[i := decisions[i].(state := Stale)];
        }
      }
      assert decisions == OutdateAll(h.decisions, generation);
      history := history[flow := h.(decisions := decisions)];
    }

    method Clear()
      modifies this
      ensures State() == Cleared(old(State()))
    {
      history, memo, memoOrder, revocations, supersessions := map[], map[], [], [], [];
    }

    method RestoreClassification(c: Classification)
      modifies this`history
      ensures State() == RestoredClassification(old(State()), c)
    {
      var h := if c.flowId in history then history[c.flowId] else FlowHistory([], []);
      var decisions := DropOldest(h.decisions + [c], bounds.decisionsPerFlow);
      history := history[c.flowId := h.(decisions := decisions)];
    }
  }
}
