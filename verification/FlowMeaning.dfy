/**
 * What registering a flow does: which generation it is given, what becomes of the incarnation
 * it fences, and what that does to the evidence and the decisions about the flow.
 */
module FlowMeaning {
  import opened Domain
  import opened ClassifierState
  import opened Sweeps
  import E = EvidenceStore
  import F = FlowRegistry
  import D = ClassificationIndex

  // ---- the registry -------------------------------------------------------

  /** Only this key's incarnation, and what its identity remembers, may have changed. */
  ghost predicate OnlyFlow(f: F.Flows, g: F.Flows, key: FlowKey, id: FlowId) {
    && g.maxFlows == f.maxFlows
    && g.current - {key} == f.current - {key}
    && g.history - {id} == f.history - {id}
  }

  /** A first incarnation, or one that takes over from another. */
  predicate Incarnated(r: FlowRecord, id: FlowId, key: FlowKey, generation: nat, seqno: nat, tick: Tick, session: string) {
    && r.id == id && r.key == key && r.generation == generation && r.registeredSeq == seqno
    && r.registeredTick == tick && r.lastActivityTick == tick && r.registeredBy == session && r.renewals == 0
  }

  function Past(f: F.Flows, id: FlowId): seq<FlowRecord> {
    if id in f.history then f.history[id] else []
  }

  /** The youngest eight of what was remembered and the incarnation now fenced. */
  ghost predicate Remembered(past: seq<FlowRecord>, fenced: FlowRecord, now: seq<FlowRecord>) {
    && |now| == (if |past| < 8 then |past| + 1 else 8)
    && now == (past + [fenced])[|past| + 1 - |now|..]
  }

  /** The key had an incarnation, and keeps it. */
  ghost predicate Repeats(f: F.Flows, g: F.Flows, key: FlowKey, tick: Tick, r: FlowRegistration) {
    && key in f.current
    && !r.created && !r.fencedPrevious
    && r.record == f.current[key].(lastActivityTick := tick, renewals := f.current[key].renewals + 1)
    && g == f.(current := f.current[key := r.record])
  }

  /** The key had an incarnation; a later one takes its place. */
  ghost predicate Supersedes(f: F.Flows, g: F.Flows, id: FlowId, key: FlowKey, generation: nat, session: string, tick: Tick,
                             r: FlowRegistration)
  {
    && key in f.current && generation > f.current[key].generation
    && r.created && r.fencedPrevious && r.previousGeneration == f.current[key].generation
    && Incarnated(r.record, id, key, generation, f.current[key].registeredSeq, tick, session)
    && OnlyFlow(f, g, key, id)
    && key in g.current && g.current[key] == r.record
    && Remembered(Past(f, id), f.current[key], Past(g, id))
  }

  /** The key had none. */
  ghost predicate Begins(f: F.Flows, g: F.Flows, id: FlowId, key: FlowKey, generation: nat, session: string, tick: Tick,
                         r: FlowRegistration)
  {
    && key !in f.current && |f.current| < f.maxFlows
    && r.created && !r.fencedPrevious
    && Incarnated(r.record, id, key, generation, 0, tick, session)
    && g == f.(current := f.current[key := r.record])
  }

  const HIGHEST_ACCEPTED: nat := 0x4000_0000_0000_0000

  /** The outcome for every request; zero asks for the next generation. */
  ghost predicate Registers(o: Oracles, f: F.Flows, key: FlowKey, requested: nat, session: string, tick: Tick, g: F.Flows,
                            r: Result<FlowRegistration>)
  {
    && (r.Err? ==> g == f)
    && if requested > HIGHEST_ACCEPTED then
         r == Err(OutOfRange)
       else if key !in f.current then
         if |f.current| >= f.maxFlows then r == Err(CapacityExceeded)
         else r.Ok? && Begins(f, g, o.flowId(key), key, if requested == 0 then 1 else requested, session, tick, r.value)
       else
         var now := f.current[key].generation;
         if requested == 0 && now >= MAX_U64 then r == Err(CounterExhausted)
         else if requested == 0 then r.Ok? && Supersedes(f, g, o.flowId(key), key, now + 1, session, tick, r.value)
         else if requested < now then r == Err(StaleGeneration)
         else if requested == now then r.Ok? && Repeats(f, g, key, tick, r.value)
         else r.Ok? && Supersedes(f, g, o.flowId(key), key, requested, session, tick, r.value)
  }

  lemma KnownKeyRegisters(o: Oracles, f: F.Flows, key: FlowKey, requested: nat, session: string, tick: Tick)
    requires DistinctFlowIds(o) && F.FlowInvariant(o, f) && key in f.current
    ensures var e := F.Registered(o, f, key, requested, session, tick);
            Registers(o, f, key, requested, session, tick, e.0, e.1)
  {
    hide F.FlowInvariant, DistinctFlowIds, F.HighestKnown;
    F.HistoryBelowCurrent(o, f, key);
    F.CurrentIsFenced(o, f, key);
  }

  lemma NewKeyRegisters(o: Oracles, f: F.Flows, key: FlowKey, requested: nat, session: string, tick: Tick)
    requires DistinctFlowIds(o) && F.FlowInvariant(o, f) && key !in f.current
    ensures var e := F.Registered(o, f, key, requested, session, tick);
            Registers(o, f, key, requested, session, tick, e.0, e.1)
  {
    hide F.FlowInvariant, DistinctFlowIds;
    F.NoHistoryWithoutCurrent(o, f, key);
    assert F.HistoryOf(f, o.flowId(key)) == [];
  }

  // ---- the classifier -----------------------------------------------------

  /** Decisions about the flow's earlier generations are STALE, nothing else has changed. */
  ghost predicate Outdates(d: D.Decisions, e: D.Decisions, flow: FlowId, generation: nat) {
    && e == d.(history := e.history)
    && e.history.Keys == d.history.Keys
    && (forall k | k in d.history && k != flow :: e.history[k] == d.history[k])
    && (flow in d.history ==>
          && e.history[flow].contradictions == d.history[flow].contradictions
          && |e.history[flow].decisions| == |d.history[flow].decisions|
          && forall i | 0 <= i < |d.history[flow].decisions| ::
               var c := d.history[flow].decisions[i];
               e.history[flow].decisions[i] == if c.flowGeneration < generation then c.(state := Stale) else c)
  }

  /** A new incarnation leaves no CURRENT record on its flow. */
  ghost predicate RegistersFlow(o: Oracles, s: State, key: FlowKey, requested: nat, session: string, tick: Tick, t: State,
                                r: Result<FlowRegistration>)
  {
    && Registers(o, s.flows, key, requested, session, tick, t.flows, r)
    && t == s.(flows := t.flows, evidence := t.evidence, decisions := t.decisions)
    && (r.Err? || !r.value.created ==> t.evidence == s.evidence)
    && (r.Ok? && r.value.created ==>
          Staled(s.evidence, t.evidence, (x: EvidenceRecord) => x.flowId == o.flowId(key)))
    && (r.Err? || !r.value.fencedPrevious ==> t.decisions == s.decisions)
    && (r.Ok? && r.value.fencedPrevious ==>
          Outdates(s.decisions, t.decisions, o.flowId(key), r.value.record.generation))
  }

  lemma SupersededOutdates(d: D.Decisions, flow: FlowId, generation: nat)
    ensures Outdates(d, D.GenerationSuperseded(d, flow, generation), flow, generation)
  {
  }

  /** The second sweep of a fence finds nothing left to do. */
  lemma FenceMeans(o: Oracles, e: E.Evidence, r: FlowRegistration)
    requires r.created
    ensures Staled(e, Fence(o, e, r), (x: EvidenceRecord) => x.flowId == r.record.id)
  {
    MarkStaleMeans(e, OnFlow(r.record.id), o.render(FlowReplaced));
    var replaced := E.MarkStale(e, OnFlow(r.record.id), o.render(FlowReplaced));
    if r.fencedPrevious {
      assert E.MarkStale(replaced, OnEarlier(r.record.id, r.record.generation), o.render(FlowAdvanced(r.record.generation)))
          == replaced;
    }
  }

  lemma FenceSpares(o: Oracles, e: E.Evidence, r: FlowRegistration)
    requires !r.created && !r.fencedPrevious
    ensures Fence(o, e, r) == e
  {
  }

  lemma RegisterStages(o: Oracles, s: State, key: FlowKey, requested: nat, session: string, tick: Tick)
    ensures var e := RegisterFlow(o, s, key, requested, session, tick);
            var f := F.Registered(o, s.flows, key, requested, session, tick);
            && e.1 == f.1 && e.0.flows == f.0
            && e.0 == s.(flows := f.0, evidence := e.0.evidence, decisions := e.0.decisions)
            && (f.1.Err? ==> e.0.evidence == s.evidence && e.0.decisions == s.decisions)
            && (f.1.Ok? ==>
                  && e.0.evidence == Fence(o, s.evidence, f.1.value)
                  && e.0.decisions == if f.1.value.fencedPrevious
                                      then D.GenerationSuperseded(s.decisions, f.1.value.record.id, f.1.value.record.generation)
                                      else s.decisions)
  {
    hide F.Registered, Fence, D.GenerationSuperseded;
  }

  lemma FlowRegisters(o: Oracles, s: State, key: FlowKey, requested: nat, session: string, tick: Tick)
    requires DistinctFlowIds(o) && F.FlowInvariant(o, s.flows)
    ensures var e := RegisterFlow(o, s, key, requested, session, tick);
            RegistersFlow(o, s, key, requested, session, tick, e.0, e.1)
  {
    hide RegisterFlow, F.Registered, Fence, D.GenerationSuperseded, F.FlowInvariant, DistinctFlowIds, Registers,
         Staled, Outdates;
    RegisterStages(o, s, key, requested, session, tick);
    if key in s.flows.current {
      KnownKeyRegisters(o, s.flows, key, requested, session, tick);
    } else {
      NewKeyRegisters(o, s.flows, key, requested, session, tick);
    }
    var e := F.Registered(o, s.flows, key, requested, session, tick);
    if e.1.Ok? {
      RegisteredIdentity(o, s.flows, key, requested, session, tick, e.0, e.1);
      SupersededOutdates(s.decisions, o.flowId(key), e.1.value.record.generation);
      if e.1.value.created {
        FenceMeans(o, s.evidence, e.1.value);
      } else {
        FenceSpares(o, s.evidence, e.1.value);
      }
    }
  }

  lemma RegisteredIdentity(o: Oracles, f: F.Flows, key: FlowKey, requested: nat, session: string, tick: Tick, g: F.Flows,
                           r: Result<FlowRegistration>)
    requires F.FlowInvariant(o, f) && Registers(o, f, key, requested, session, tick, g, r) && r.Ok?
    ensures r.value.record.id == o.flowId(key) && (r.value.fencedPrevious ==> r.value.created)
  {
    hide Remembered, OnlyFlow;
    if key in f.current {
      assert F.Fenced(o, f, key);
    }
  }
}
