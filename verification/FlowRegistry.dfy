/**
 * Flows: each key has one current incarnation, and a short history of the incarnations it
 * fenced.
 */
module FlowRegistry {
  import opened Domain
  import opened Sorting

  datatype Flows = Flows(
    current: map<FlowKey, FlowRecord>,
    history: map<FlowId, seq<FlowRecord>>,
    maxFlows: nat)

  function EmptyFlows(limits: ResourceLimits): Flows {
    Flows(map[], map[], limits.maxFlows)
  }

  const MAX_HISTORY_PER_KEY: nat := 8

  const MAX_ACCEPTABLE_GENERATION: nat := 0x4000_0000_0000_0000

  // ---- what the operations compute ----------------------------------------

  function HistoryOf(f: Flows, id: FlowId): seq<FlowRecord> {
    if id in f.history then f.history[id] else []
  }

  function HighestIn(records: seq<FlowRecord>): nat {
    if records == [] then 0
    else
      var rest := HighestIn(records[..|records| - 1]);
      var last := records[|records| - 1].generation;
      if last > rest then last else rest
  }

  function HighestKnown(f: Flows, id: FlowId, key: FlowKey): nat {
    var past := HighestIn(HistoryOf(f, id));
    if key in f.current && f.current[key].generation > past then f.current[key].generation else past
  }

  function Trimmed(records: seq<FlowRecord>): seq<FlowRecord> {
    if |records| > MAX_HISTORY_PER_KEY then records[|records| - MAX_HISTORY_PER_KEY..] else records
  }

  predicate InHistory(records: seq<FlowRecord>, generation: nat) {
    exists i | 0 <= i < |records| :: records[i].generation == generation
  }

  function NewIncarnation(id: FlowId, key: FlowKey, generation: nat, seqno: nat, tick: Tick, session: string): FlowRecord {
    FlowRecord(id, key, generation, seqno, tick, tick, session, 0)
  }

  function Renewed(r: FlowRecord, tick: Tick): FlowRecord {
    r.(lastActivityTick := tick, renewals := r.renewals + 1)
  }

  /** The outcome for a key that has a current incarnation. */
  function RegisteredAgain(f: Flows, id: FlowId, key: FlowKey, generation: nat, session: string, tick: Tick)
    : (Flows, Result<FlowRegistration>)
    requires key in f.current
  {
    var existing := f.current[key];
    if existing.id != id then
      (f, Err(InternalError))
    else if generation < existing.generation then
      (f, Err(StaleGeneration))
    else if generation == existing.generation then
      var r := Renewed(existing, tick);
      (f.(current := f.current[key := r]), Ok(FlowRegistration(r, false, false, r.generation)))
    else
      var r := NewIncarnation(id, key, generation, existing.registeredSeq, tick, session);
      (f.(current := f.current[key := r], history := f.history[id := Trimmed(HistoryOf(f, id) + [existing])]),
       Ok(FlowRegistration(r, true, true, existing.generation)))
  }

  /** The outcome for a key without a current incarnation. */
  function RegisteredFirst(f: Flows, id: FlowId, key: FlowKey, generation: nat, session: string, tick: Tick)
    : (Flows, Result<FlowRegistration>)
  {
    if InHistory(HistoryOf(f, id), generation) then
      (f, Err(StaleGeneration))
    else if |f.current| >= f.maxFlows then
      (f, Err(CapacityExceeded))
    else
      var r := NewIncarnation(id, key, generation, 0, tick, session);
      (f.(current := f.current[key := r]), Ok(FlowRegistration(r, true, false, 0)))
  }

  /** The generation a registration asks for: zero means the next one. */
  function Asked(o: Oracles, f: Flows, key: FlowKey, requested: nat): nat {
    if requested == 0 then HighestKnown(f, o.flowId(key), key) + 1 else requested
  }

  function Registered(o: Oracles, f: Flows, key: FlowKey, requested: nat, session: string, tick: Tick)
    : (Flows, Result<FlowRegistration>)
  {
    var id := o.flowId(key);
    var generation := Asked(o, f, key, requested);
    if requested > MAX_ACCEPTABLE_GENERATION then
      (f, Err(OutOfRange))
    else if generation > MAX_U64 then
      (f, Err(CounterExhausted))
    else if key in f.current then
      RegisteredAgain(f, id, key, generation, session, tick)
    else
      RegisteredFirst(f, id, key, generation, session, tick)
  }

  /** Whether the flow has, or had within its history, an incarnation of this generation. */
  predicate HasGeneration(f: Flows, id: FlowId, generation: nat) {
    || (exists k | k in f.current :: f.current[k].id == id && f.current[k].generation == generation)
    || InHistory(HistoryOf(f, id), generation)
  }

  function RestoredFlow(f: Flows, r: FlowRecord): (Flows, Result<()>) {
    if r.key in f.current && f.current[r.key].generation == r.generation then
      (f.(current := f.current[r.key := r]), Ok(()))
    else if r.key in f.current && f.current[r.key].generation > r.generation then
      (f.(history := f.history[r.id := Trimmed(HistoryOf(f, r.id) + [r])]), Ok(()))
    else if |f.current| >= f.maxFlows && r.key !in f.current then
      (f, Err(CapacityExceeded))
    else
      (f.(current := f.current[r.key := r]), Ok(()))
  }

  // ---- fencing ------------------------------------------------------------

  /** The incarnation carries its key's identity, and everything it fenced is below it. */
  ghost predicate Fenced(o: Oracles, f: Flows, k: FlowKey) {
    && k in f.current
    && f.current[k].key == k
    && f.current[k].id == o.flowId(k)
    && f.current[k].generation > 0
    && AllBelow(HistoryOf(f, o.flowId(k)), f.current[k].generation)
  }

  ghost predicate Remembers(f: Flows, id: FlowId) {
    && |HistoryOf(f, id)| <= MAX_HISTORY_PER_KEY
    && exists k :: k in f.current && f.current[k].id == id
  }

  /** History is bounded, kept only for registered keys, and strictly below the current generation. */
  ghost predicate FlowInvariant(o: Oracles, f: Flows) {
    && (forall k | k in f.current :: Fenced(o, f, k))
    && (forall id | id in f.history :: Remembers(f, id))
  }

  ghost predicate AllBelow(records: seq<FlowRecord>, generation: nat) {
    forall i | 0 <= i < |records| :: records[i].generation < generation
  }

  lemma {:induction false} HighestBelow(records: seq<FlowRecord>, generation: nat)
    requires AllBelow(records, generation) && generation > 0
    ensures HighestIn(records) < generation
  {
    if records != [] {
      HighestBelow(records[..|records| - 1], generation);
    }
  }

  lemma HistoryBelowCurrent(o: Oracles, f: Flows, key: FlowKey)
    requires FlowInvariant(o, f) && key in f.current
    ensures AllBelow(HistoryOf(f, o.flowId(key)), f.current[key].generation)
    ensures HighestKnown(f, o.flowId(key), key) == f.current[key].generation
  {
    assert Fenced(o, f, key);
    HighestBelow(HistoryOf(f, o.flowId(key)), f.current[key].generation);
  }

  /** A key without a current incarnation has no history: nothing was ever fenced for it. */
  lemma NoHistoryWithoutCurrent(o: Oracles, f: Flows, key: FlowKey)
    requires DistinctFlowIds(o) && FlowInvariant(o, f) && key !in f.current
    ensures o.flowId(key) !in f.history
  {
    var id := o.flowId(key);
    assert forall k | k in f.current :: f.current[k].id != id by {
      forall k | k in f.current
        ensures f.current[k].id != id
      {
        assert Fenced(o, f, k);
      }
    }
    assert !Remembers(f, id);
  }

  /** Registering leaves every other key alone and never lowers a generation. */
  ghost predicate FlowsForward(f: Flows, g: Flows) {
    forall k | k in f.current :: k in g.current && g.current[k].generation >= f.current[k].generation
  }

  /** A step that touches one key, above everything that key fenced, keeps the invariant. */
  lemma StepKeepsInvariant(o: Oracles, f: Flows, g: Flows, key: FlowKey)
    requires DistinctFlowIds(o) && FlowInvariant(o, f)
    requires DiffersAt(f, g, key, o.flowId(key))
    requires Fenced(o, g, key) && |HistoryOf(g, o.flowId(key))| <= MAX_HISTORY_PER_KEY
    ensures FlowInvariant(o, g)
  {
    forall k | k in g.current
      ensures Fenced(o, g, k)
    {
      if k != key {
        assert Fenced(o, f, k);
        assert o.flowId(k) != o.flowId(key);
      }
    }
    forall id | id in g.history
      ensures Remembers(g, id)
    {
      if id == o.flowId(key) {
        assert g.current[key].id == id;
      } else {
        assert Remembers(f, id);
        var k :| k in f.current && f.current[k].id == id;
        assert k in g.current && g.current[k].id == id;
      }
    }
  }

  lemma RegisteredAgainFenced(o: Oracles, f: Flows, key: FlowKey, generation: nat, session: string, tick: Tick)
    requires FlowInvariant(o, f) && key in f.current
    ensures var g := RegisteredAgain(f, o.flowId(key), key, generation, session, tick).0;
            && Fenced(o, g, key)
            && |HistoryOf(g, o.flowId(key))| <= MAX_HISTORY_PER_KEY
            && g.current[key].generation >= f.current[key].generation
  {
    assert Fenced(o, f, key);
    assert o.flowId(key) in f.history ==> Remembers(f, o.flowId(key));
  }

  /** The two registries differ at one key, and in history at its identity. */
  ghost predicate DiffersAt(f: Flows, g: Flows, key: FlowKey, id: FlowId) {
    && g.current.Keys == f.current.Keys + {key}
    && (forall k | k in f.current && k != key :: g.current[k] == f.current[k])
    && (forall i | i != id :: HistoryOf(g, i) == HistoryOf(f, i) && (i in g.history <==> i in f.history))
  }

  lemma PlacedDiffers(f: Flows, key: FlowKey, r: FlowRecord, id: FlowId)
    ensures DiffersAt(f, f.(current := f.current[key := r]), key, id)
  {
  }

  lemma RegisteredAgainFrame(f: Flows, id: FlowId, key: FlowKey, generation: nat, session: string, tick: Tick)
    requires key in f.current
    ensures DiffersAt(f, RegisteredAgain(f, id, key, generation, session, tick).0, key, id)
  {
  }

  lemma RegisteredFirstFrame(f: Flows, id: FlowId, key: FlowKey, generation: nat, session: string, tick: Tick)
    ensures var g := RegisteredFirst(f, id, key, generation, session, tick).0;
            g != f ==> DiffersAt(f, g, key, id)
  {
    hide DiffersAt, InHistory, HistoryOf;
    PlacedDiffers(f, key, NewIncarnation(id, key, generation, 0, tick, session), id);
  }

  lemma RegisteredAgainKeepsInvariant(o: Oracles, f: Flows, key: FlowKey, generation: nat, session: string, tick: Tick)
    requires DistinctFlowIds(o) && FlowInvariant(o, f) && key in f.current
    ensures FlowInvariant(o, RegisteredAgain(f, o.flowId(key), key, generation, session, tick).0)
    ensures FlowsForward(f, RegisteredAgain(f, o.flowId(key), key, generation, session, tick).0)
  {
    var g := RegisteredAgain(f, o.flowId(key), key, generation, session, tick).0;
    RegisteredAgainFrame(f, o.flowId(key), key, generation, session, tick);
    RegisteredAgainFenced(o, f, key, generation, session, tick);
    StepKeepsInvariant(o, f, g, key);
  }

  lemma RegisteredFirstKeepsInvariant(o: Oracles, f: Flows, key: FlowKey, generation: nat, session: string, tick: Tick)
    requires DistinctFlowIds(o) && FlowInvariant(o, f) && key !in f.current && generation > 0
    ensures FlowInvariant(o, RegisteredFirst(f, o.flowId(key), key, generation, session, tick).0)
    ensures FlowsForward(f, RegisteredFirst(f, o.flowId(key), key, generation, session, tick).0)
  {
    var g := RegisteredFirst(f, o.flowId(key), key, generation, session, tick).0;
    if g != f {
      NoHistoryWithoutCurrent(o, f, key);
      RegisteredFirstFrame(f, o.flowId(key), key, generation, session, tick);
      assert Fenced(o, g, key);
      StepKeepsInvariant(o, f, g, key);
    }
  }

  lemma RegisteredKeepsInvariant(o: Oracles, f: Flows, key: FlowKey, requested: nat, session: string, tick: Tick)
    requires DistinctFlowIds(o) && FlowInvariant(o, f)
    ensures FlowInvariant(o, Registered(o, f, key, requested, session, tick).0)
    ensures FlowsForward(f, Registered(o, f, key, requested, session, tick).0)
  {
    var generation := Asked(o, f, key, requested);
    if key in f.current {
      RegisteredAgainKeepsInvariant(o, f, key, generation, session, tick);
    } else {
      RegisteredFirstKeepsInvariant(o, f, key, generation, session, tick);
    }
  }

  /** A registration changes one key, or nothing; without a new incarnation it keeps the generation. */
  lemma RegisteredOutcome(o: Oracles, f: Flows, key: FlowKey, requested: nat, session: string, tick: Tick)
    requires FlowInvariant(o, f)
    ensures var (g, r) := Registered(o, f, key, requested, session, tick);
            && (r.Err? ==> g == f)
            && (r.Ok? ==>
                  && g.current == f.current[key := r.value.record]
                  && r.value.record.id == o.flowId(key)
                  && (r.value.fencedPrevious ==> r.value.created)
                  && (!r.value.created ==> key in f.current && f.current[key].generation == r.value.record.generation))
  {
    if key in f.current {
      assert Fenced(o, f, key);
    }
  }

  /**
   * What a registration answers, said without history: refused below the current generation,
   * repeated at it, and a fence that strictly raises it above.
   */
  lemma RegistrationIsFenced(o: Oracles, f: Flows, key: FlowKey, requested: nat, session: string, tick: Tick)
    requires DistinctFlowIds(o) && FlowInvariant(o, f) && key in f.current
    ensures var (g, r) := Registered(o, f, key, requested, session, tick);
            var now := f.current[key].generation;
            if requested > MAX_ACCEPTABLE_GENERATION then
              r == Err(OutOfRange) && g == f
            else if requested == 0 && now >= MAX_U64 then
              r == Err(CounterExhausted) && g == f
            else if requested == 0 || requested > now then
              && r.Ok? && r.value.fencedPrevious && r.value.created && r.value.previousGeneration == now
              && g.current[key].generation == (if requested == 0 then now + 1 else requested)
              && r.value.record == g.current[key]
              && g.current[key].generation > now
            else if requested == now then
              r.Ok? && !r.value.fencedPrevious && !r.value.created && g.current[key].generation == now
            else
              r == Err(StaleGeneration) && g == f
  {
    HistoryBelowCurrent(o, f, key);
  }

  /**
   * Trimming the history never turns a refusal into an acceptance, or the reverse: any two
   * registries that differ only in history answer alike.
   */
  lemma TrimmingIsHarmless(o: Oracles, f: Flows, g: Flows, key: FlowKey, requested: nat, session: string, tick: Tick)
    requires DistinctFlowIds(o) && FlowInvariant(o, f) && FlowInvariant(o, g)
    requires g == f.(history := g.history)
    ensures Registered(o, f, key, requested, session, tick).1 == Registered(o, g, key, requested, session, tick).1
  {
    if key in f.current {
      HistoryBelowCurrent(o, f, key);
      HistoryBelowCurrent(o, g, key);
    } else {
      NoHistoryWithoutCurrent(o, f, key);
      NoHistoryWithoutCurrent(o, g, key);
    }
  }

  lemma CurrentIsFenced(o: Oracles, f: Flows, key: FlowKey)
    requires FlowInvariant(o, f) && key in f.current
    ensures Fenced(o, f, key) && |HistoryOf(f, o.flowId(key))| <= MAX_HISTORY_PER_KEY
  {
    if o.flowId(key) in f.history {
      assert Remembers(f, o.flowId(key));
    }
  }

  /** An incarnation restored after a later one joins the history below it. */
  lemma LateIncarnationKeepsInvariant(o: Oracles, f: Flows, r: FlowRecord)
    requires DistinctFlowIds(o) && FlowInvariant(o, f) && r.id == o.flowId(r.key)
    requires r.key in f.current && f.current[r.key].generation > r.generation
    ensures FlowInvariant(o, f.(history := f.history[r.id := Trimmed(HistoryOf(f, r.id) + [r])]))
  {
    hide DistinctFlowIds, FlowInvariant;
    CurrentIsFenced(o, f, r.key);
    StepKeepsInvariant(o, f, f.(history := f.history[r.id := Trimmed(HistoryOf(f, r.id) + [r])]), r.key);
  }

  lemma RestoredFlowKeepsInvariant(o: Oracles, f: Flows, r: FlowRecord)
    requires DistinctFlowIds(o) && FlowInvariant(o, f)
    requires r.id == o.flowId(r.key) && r.generation > 0
    ensures FlowInvariant(o, RestoredFlow(f, r).0)
  {
    hide DistinctFlowIds, FlowInvariant, DiffersAt, Trimmed;
    if r.key in f.current && f.current[r.key].generation > r.generation {
      LateIncarnationKeepsInvariant(o, f, r);
    } else if r.key in f.current || |f.current| < f.maxFlows {
      var g := f.(current := f.current[r.key := r]);
      if r.key in f.current {
        CurrentIsFenced(o, f, r.key);
      } else {
        NoHistoryWithoutCurrent(o, f, r.key);
        assert HistoryOf(g, r.id) == [];
      }
      PlacedDiffers(f, r.key, r, r.id);
      StepKeepsInvariant(o, f, g, r.key);
    }
  }

  // ---- the registry as it runs --------------------------------------------

  class Registry {
    const maxFlows: nat
    var current: map<FlowKey, FlowRecord>
    var history: map<FlowId, seq<FlowRecord>>

    ghost function State(): Flows
      reads this
    {
      Flows(current, history, maxFlows)
    }

    constructor (limits: ResourceLimits)
      ensures State() == EmptyFlows(limits)
    {
      maxFlows := limits.maxFlows;
      current, history := map[], map[];
    }

    method HighestGeneration(id: FlowId, key: FlowKey) returns (highest: nat)
      ensures highest == HighestKnown(State(), id, key)
    {
      highest := 0;
      if id in history {
        var past := history[id];
        for i := 0 to |past|
          invariant highest == HighestIn(past[..i])
        {
          if past[i].generation > highest {
            highest := past[i].generation;
          }
          assert past[..i + 1][..i] == past[..i];
        }
        assert past[..|past|] == past;
      }
      if key in current && current[key].generation > highest {
        highest := current[key].generation;
      }
    }

    method PushHistory(id: FlowId, record: FlowRecord)
      requires |HistoryOf(State(), id)| <= MAX_HISTORY_PER_KEY
      modifies this`history
      ensures history == old(history)[id := Trimmed(HistoryOf(old(State()), id) + [record])]
    {
      var past := if id in history then history[id] else [];
      past := past + [record];
      ghost var whole := past;
      while |past| > MAX_HISTORY_PER_KEY
        invariant Suffix(past, whole) && |past| <= MAX_HISTORY_PER_KEY + 1
        invariant |whole| <= MAX_HISTORY_PER_KEY ==> past == whole
        invariant |whole| > MAX_HISTORY_PER_KEY ==> |past| >= MAX_HISTORY_PER_KEY
        decreases |past|
      {
        past := past[1..];
      }
      assert past == Trimmed(whole);
      history := history[id := past];
    }

    method FindInHistory(id: FlowId, generation: nat) returns (found: bool)
      ensures found == InHistory(HistoryOf(State(), id), generation)
    {
      found := false;
      if id in history {
        var past := history[id];
        for i := 0 to |past|
          invariant found <==> exists k | 0 <= k < i :: past[k].generation == generation
        {
          if past[i].generation == generation {
            found := true;
          }
        }
      }
    }

    method RegisterFlow(o: Oracles, key: FlowKey, requested: nat, session: string, tick: Tick)
      returns (r: Result<FlowRegistration>)
      requires FlowInvariant(o, State())
      modifies this
      ensures (State(), r) == Registered(o, old(State()), key, requested, session, tick)
    {
      var id := o.flowId(key);
      var highestKnown := HighestGeneration(id, key);
      if requested > MAX_ACCEPTABLE_GENERATION {
        return Err(OutOfRange);
      }
      var generation := requested;
      if generation == 0 {
        if highestKnown >= MAX_U64 {
          return Err(CounterExhausted);
        }
        generation := highestKnown + 1;
      }
      if key in current {
        var existing := current[key];
        if existing.id != id {
          return Err(InternalError);
        }
        if generation < existing.generation {
          return Err(StaleGeneration);
        }
        if generation == existing.generation {
          var renewed := existing.(lastActivityTick := tick, renewals := existing.renewals + 1);
          current := current[key := renewed];
          return Ok(FlowRegistration(renewed, false, false, renewed.generation));
        }
        assert id in history ==> Remembers(State(), id);
        PushHistory(id, existing);
        var record := NewIncarnation(id, key, generation, existing.registeredSeq, tick, session);
        current := current[key := record];
        return Ok(FlowRegistration(record, true, true, existing.generation));
      }
      var superseded := FindInHistory(id, generation);
      if superseded {
        return Err(StaleGeneration);
      }
      if |current| >= maxFlows {
        return Err(CapacityExceeded);
      }
      var record := NewIncarnation(id, key, generation, 0, tick, session);
      current := current[key := record];
      r := Ok(FlowRegistration(record, true, false, 0));
    }

    method FindGeneration(id: FlowId, generation: nat) returns (found: bool)
      ensures found == HasGeneration(State(), id, generation)
    {
      found := false;
      var todo := current.Keys;
      while todo != {}
        invariant todo <= current.Keys
        invariant forall k | k in current && k !in todo :: !(current[k].id == id && current[k].generation == generation)
        decreases |todo|
      {
        var k :| k in todo;
        if current[k].id == id && current[k].generation == generation {
          return true;
        }
        todo := todo - {k};
      }
      found := FindInHistory(id, generation);
    }

    method RestoreFlow(record: FlowRecord) returns (r: Result<()>)
      requires |HistoryOf(State(), record.id)| <= MAX_HISTORY_PER_KEY
      modifies this
      ensures (State(), r) == RestoredFlow(old(State()), record)
    {
      if record.key in current {
        if current[record.key].generation == record.generation {
          current := current[record.key := record];
          return Ok(());
        }
        if current[record.key].generation > record.generation {
          PushHistory(record.id, record);
          return Ok(());
        }
      }
      if |current| >= maxFlows && record.key !in current {
        return Err(CapacityExceeded);
      }
      current := current[record.key := record];
      r := Ok(());
    }
  }
}
