/**
 * Publishing evidence: the replay fence, supersession and insertion keep the invariant.
 */
module ClassifierPublication {
  import opened Domain
  import opened ClassifierState
  import opened ClassifierInvariant
  import opened ClassifierSteps
  import opened ClassifierSubmission
  import E = EvidenceStore
  import P = PublisherRegistry
  import W = WorkloadRegistry
  import F = FlowRegistry
  import D = ClassificationIndex

  // ---- the replay fence ---------------------------------------------------

  function Observing(s: State, id: string, boot: nat, generation: nat): State {
    s.(publishers := P.Observed(s.publishers, id, boot, generation).0)
  }

  lemma ObservedKeepsLive(p: P.Publishers, id: string, boot: nat, generation: nat)
    ensures KeepsLive(p, P.Observed(p, id, boot, generation).0)
    ensures P.LiveIncarnations(P.Observed(p, id, boot, generation).0) == P.LiveIncarnations(p)
    ensures P.Observed(p, id, boot, generation).0.live.Keys == p.live.Keys
  {
    var q := P.Observed(p, id, boot, generation).0;
    assert forall k | k in p.live :: k in q.live && q.live[k].state == p.live[k].state && q.live[k].boot == p.live[k].boot;
    assert q.live.Keys == p.live.Keys;
  }

  lemma ObservedStep(s: State, id: string, boot: nat, generation: nat)
    requires P.RegistryInvariant(s.publishers)
    ensures PublisherStep(s, Observing(s, id, boot, generation))
  {
    hide P.Observed, P.RegistryInvariant, P.Forward, KeepsLive, Relabelled, AttendanceKept, P.LiveIncarnations, P.Used;
    var t := Observing(s, id, boot, generation);
    P.ObservedIsFresh(s.publishers, id, boot, generation);
    ObservedKeepsLive(s.publishers, id, boot, generation);
    KeepsLiveAttends(s.evidence, s.publishers, t.publishers);
    RelabelledRefl(s.evidence);
  }

  lemma ObservedKeepsInv(o: Oracles, s: State, id: string, boot: nat, generation: nat)
    requires DistinctIdentities(o) && Inv(o, s)
    ensures Sound(o, s, Observing(s, id, boot, generation))
  {
    hide *;
    PartsOf(o, s);
    ObservedStep(s, id, boot, generation);
    PublisherStepKeepsInv(o, s, Observing(s, id, boot, generation));
  }

  /** Every stored record of the incarnation is of an older generation. */
  ghost predicate Newest(e: E.Evidence, publisher: string, boot: nat, generation: nat) {
    forall id | id in e.byId && e.byId[id].publisher == publisher && e.byId[id].publisherBoot == boot ::
      e.byId[id].generation < generation
  }

  lemma ObservedIsNewest(o: Oracles, s: State, id: string, boot: nat, generation: nat)
    requires RecordsInvariant(o, s) && P.RegistryInvariant(s.publishers)
    requires P.Observed(s.publishers, id, boot, generation).1.Ok?
    ensures Newest(s.evidence, id, boot, generation)
    ensures !P.Used(s.publishers, id, boot, generation)
    ensures P.Used(P.Observed(s.publishers, id, boot, generation).0, id, boot, generation)
  {
    P.ObservedIsFresh(s.publishers, id, boot, generation);
    forall k | k in s.evidence.byId && s.evidence.byId[k].publisher == id && s.evidence.byId[k].publisherBoot == boot
      ensures s.evidence.byId[k].generation < generation
    {
      assert RecordInvariant(o, s, s.evidence.byId[k]);
    }
  }

  // ---- supersession -------------------------------------------------------

  ghost predicate Keyed(e: E.Evidence) {
    forall id | id in e.byId :: e.byId[id].id == id
  }

  lemma DisplaceOneRelabels(o: Oracles, x: Displacement, r: EvidenceRecord, id: string, tick: Tick)
    ensures Relabelled(x.evidence, DisplaceOne(o, x, r, id, tick).evidence)
  {
    RelabelledRefl(x.evidence);
    if id in x.evidence.byId {
      SupersedeRelabels(x.evidence, x.evidence.byId[id].id, o.render(SupersededBy(r.id, r.generation)));
    }
  }

  lemma {:induction false} DisplaceRelabels(o: Oracles, x: Displacement, r: EvidenceRecord, ids: seq<string>, tick: Tick)
    ensures Relabelled(x.evidence, Displace(o, x, r, ids, tick).evidence)
    decreases |ids|
  {
    if ids == [] {
      RelabelledRefl(x.evidence);
    } else {
      var y := Displace(o, x, r, ids[..|ids| - 1], tick);
      DisplaceRelabels(o, x, r, ids[..|ids| - 1], tick);
      DisplaceOneRelabels(o, y, r, ids[|ids| - 1], tick);
      RelabelledTransitive(x.evidence, y.evidence, DisplaceOne(o, y, r, ids[|ids| - 1], tick).evidence);
    }
  }

  ghost predicate SupersessionsUpTo(d: D.Decisions, top: nat) {
    forall i | 0 <= i < |d.supersessions| :: d.supersessions[i].seqno <= top
  }

  lemma {:induction false} DisplaceDecisions(o: Oracles, x: Displacement, r: EvidenceRecord, ids: seq<string>, tick: Tick)
    requires SupersessionsUpTo(x.decisions, r.acceptedSeq)
    ensures var d := Displace(o, x, r, ids, tick).decisions;
            d == x.decisions.(supersessions := d.supersessions) && SupersessionsUpTo(d, r.acceptedSeq)
    decreases |ids|
  {
    if ids != [] {
      DisplaceDecisions(o, x, r, ids[..|ids| - 1], tick);
    }
  }

  lemma DisplaceOneMarks(o: Oracles, x: Displacement, r: EvidenceRecord, id: string, tick: Tick)
    requires id in x.evidence.byId && x.evidence.byId[id].id == id && Displaces(r, x.evidence.byId[id])
    ensures DisplaceOne(o, x, r, id, tick).evidence.byId[id].state == EvidenceSuperseded
  {
  }

  /** Everything among the identities that `r` displaces ends up SUPERSEDED. */
  lemma {:induction false} DisplaceMarks(o: Oracles, x: Displacement, r: EvidenceRecord, ids: seq<string>, tick: Tick,
                                         id: string)
    requires id in ids && id in x.evidence.byId && x.evidence.byId[id].id == id && Displaces(r, x.evidence.byId[id])
    ensures id in Displace(o, x, r, ids, tick).evidence.byId
    ensures Displace(o, x, r, ids, tick).evidence.byId[id].state == EvidenceSuperseded
    decreases |ids|
  {
    var init, last := ids[..|ids| - 1], ids[|ids| - 1];
    var y := Displace(o, x, r, init, tick);
    DisplaceRelabels(o, x, r, init, tick);
    DisplaceOneRelabels(o, y, r, last, tick);
    if id == last {
      DisplaceOneMarks(o, y, r, id, tick);
    } else {
      assert id in init;
      DisplaceMarks(o, x, r, init, tick, id);
    }
  }

  /** No record the flow reaches on the topic of `r` is still CURRENT. */
  ghost predicate TopicCleared(e: E.Evidence, r: EvidenceRecord) {
    forall id | r.flowId in e.byFlow && id in e.byFlow[r.flowId] && id in e.byId && SameTopic(e.byId[id], r) ::
      e.byId[id].state != EvidenceCurrent && e.byId[id].generation < r.generation
  }

  function Displaced(o: Oracles, s: State, r: EvidenceRecord, tick: Tick): Displacement {
    Displace(o, Displacement(s.evidence, s.decisions, None), r, E.IdsOf(E.FlowRecords(s.evidence, r.flowId)), tick)
  }

  lemma ReachableId(e: E.Evidence, flow: FlowId, id: string)
    requires E.IndexInvariant(e) && flow in e.byFlow && id in e.byFlow[flow]
    ensures id in e.byId && e.byId[id].id == id && id in E.IdsOf(E.FlowRecords(e, flow))
  {
    hide E.FlowRecords;
    E.FlowReachesItsList(e, flow);
    var rs := E.FlowRecords(e, flow);
    var i :| 0 <= i < |rs| && rs[i] == e.byId[id];
    assert E.IdsOf(rs)[i] == id;
  }

  lemma DisplacedClears(o: Oracles, s: State, r: EvidenceRecord, tick: Tick)
    requires E.IndexInvariant(s.evidence) && Newest(s.evidence, r.publisher, r.publisherBoot, r.generation)
    ensures TopicCleared(Displaced(o, s, r, tick).evidence, r)
  {
    hide E.FlowRecords, E.IndexInvariant, Displace;
    var x := Displacement(s.evidence, s.decisions, None);
    var ids := E.IdsOf(E.FlowRecords(s.evidence, r.flowId));
    var e := Displaced(o, s, r, tick).evidence;
    DisplaceRelabels(o, x, r, ids, tick);
    forall id | r.flowId in e.byFlow && id in e.byFlow[r.flowId] && id in e.byId && SameTopic(e.byId[id], r)
      ensures e.byId[id].state != EvidenceCurrent && e.byId[id].generation < r.generation
    {
      ReachableId(s.evidence, r.flowId, id);
      DisplaceMarks(o, x, r, ids, tick, id);
    }
  }

  /** The state once `r` has its number and has displaced what it supersedes. */
  function Numbering(o: Oracles, s: State, r: EvidenceRecord, tick: Tick): State {
    var x := Displaced(o, s, r, tick);
    s.(sequence := s.sequence + 1, evidence := x.evidence, decisions := x.decisions)
  }

  lemma NumberingFrame(o: Oracles, s: State, r: EvidenceRecord, tick: Tick)
    requires r.acceptedSeq == s.sequence + 1 && RingsNumbered(s) && D.MemoInvariant(s.decisions)
    ensures var t := Numbering(o, s, r, tick);
            && t == s.(sequence := s.sequence + 1, evidence := t.evidence, decisions := t.decisions)
            && Relabelled(s.evidence, t.evidence)
            && MemoShrinks(s, t)
            && RingsNumbered(t)
  {
    hide E.FlowRecords, Displace, Relabelled;
    var x := Displacement(s.evidence, s.decisions, None);
    var ids := E.IdsOf(E.FlowRecords(s.evidence, r.flowId));
    DisplaceRelabels(o, x, r, ids, tick);
    DisplaceDecisions(o, x, r, ids, tick);
  }

  lemma NumberingStep(o: Oracles, s: State, t: State)
    requires DistinctIdentities(o) && Inv(o, s)
    requires t == s.(sequence := s.sequence + 1, evidence := t.evidence, decisions := t.decisions)
    requires Relabelled(s.evidence, t.evidence) && MemoShrinks(s, t) && RingsNumbered(t)
    ensures Sound(o, s, t)
  {
    GroundsUnchanged(o, s, t);
    QuietStepKeepsInv(o, s, t);
  }

  lemma NumberingKeepsInv(o: Oracles, s: State, r: EvidenceRecord, tick: Tick)
    requires DistinctIdentities(o) && Inv(o, s) && r.acceptedSeq == s.sequence + 1
    ensures Sound(o, s, Numbering(o, s, r, tick))
  {
    hide Inv, Numbering, Sound, DistinctEvidenceIds, DistinctFlowIds, Relabelled, MemoShrinks;
    PartsOf(o, s);
    NumberingFrame(o, s, r, tick);
    NumberingStep(o, s, Numbering(o, s, r, tick));
  }

  // ---- insertion ----------------------------------------------------------

  /** What inserting `r` on top of `s` owes, whether or not it went in. */
  ghost predicate InsertStep(o: Oracles, s: State, t: State, r: EvidenceRecord) {
    && t == s.(evidence := t.evidence, publishers := t.publishers)
    && E.Gains(s.evidence, t.evidence, r)
    && E.IndexInvariant(t.evidence)
    && P.RegistryInvariant(t.publishers)
    && P.Forward(s.publishers, t.publishers)
    && KeepsLive(s.publishers, t.publishers)
    && AuthorityForward(s, t)
    && RecordInvariant(o, t, r)
    && TopicCleared(s.evidence, r)
    && r.id !in s.evidence.byId
    && (forall id | id in s.evidence.byId :: s.evidence.byId[id].acceptedSeq < r.acceptedSeq)
  }

  lemma InsertStepRecords(o: Oracles, s: State, t: State, r: EvidenceRecord)
    requires RecordsInvariant(o, s) && InsertStep(o, s, t, r)
    ensures RecordsInvariant(o, t)
  {
    hide E.IndexInvariant, P.RegistryInvariant, TopicCleared, WellFormed;
    forall id | id in t.evidence.byId
      ensures RecordInvariant(o, t, t.evidence.byId[id])
    {
      if t.evidence.byId[id] != r {
        var x := s.evidence.byId[id];
        assert RecordInvariant(o, s, x);
        P.ForwardKeepsUsed(s.publishers, t.publishers, x.publisher, x.publisherBoot, x.generation);
      }
    }
  }

  lemma InsertStepTopics(o: Oracles, s: State, t: State, r: EvidenceRecord)
    requires E.IndexInvariant(s.evidence) && TopicInvariant(s.evidence) && InsertStep(o, s, t, r)
    ensures TopicInvariant(t.evidence)
  {
    hide E.IndexInvariant, E.Gains, TopicCleared, RecordInvariant, TopicInvariant, InsertStep;
    InsertStepParts(o, s, t, r);
    TopicPairs(s.evidence, t.evidence, r);
  }

  lemma InsertStepParts(o: Oracles, s: State, t: State, r: EvidenceRecord)
    requires InsertStep(o, s, t, r)
    ensures E.Gains(s.evidence, t.evidence, r) && TopicCleared(s.evidence, r) && r.id !in s.evidence.byId
    ensures E.IndexInvariant(t.evidence)
  {
  }

  lemma TopicPairs(e: E.Evidence, f: E.Evidence, r: EvidenceRecord)
    requires E.IndexInvariant(e) && TopicInvariant(e) && E.Gains(e, f, r) && TopicCleared(e, r) && r.id !in e.byId
    ensures TopicInvariant(f)
  {
    hide E.IndexInvariant, E.Gains, TopicCleared;
    forall flow, a, b | flow in f.byFlow && a in f.byFlow[flow] && b in f.byFlow[flow] && a != b
      ensures Leads(f, a, b)
    {
      if a in f.byId && b in f.byId && f.byId[a].state == EvidenceCurrent && SameTopic(f.byId[a], f.byId[b]) {
        TopicPair(e, f, r, flow, a, b);
      }
    }
  }

  lemma TopicPair(e: E.Evidence, f: E.Evidence, r: EvidenceRecord, flow: FlowId, a: string, b: string)
    requires E.IndexInvariant(e) && TopicInvariant(e) && E.Gains(e, f, r) && TopicCleared(e, r) && r.id !in e.byId
    requires flow in f.byFlow && a in f.byFlow[flow] && b in f.byFlow[flow] && a != b
    requires a in f.byId && b in f.byId && f.byId[a].state == EvidenceCurrent && SameTopic(f.byId[a], f.byId[b])
    ensures f.byId[b].generation < f.byId[a].generation
  {
    hide E.IndexInvariant;
    if flow in e.byFlow && a in e.byFlow[flow] {
      ReachableId(e, flow, a);
    }
    if flow in e.byFlow && b in e.byFlow[flow] {
      ReachableId(e, flow, b);
    }
    if a != r.id && b != r.id {
      assert Leads(e, a, b);
    }
  }

  lemma InsertStepNumbers(o: Oracles, s: State, t: State, r: EvidenceRecord)
    requires Numbered(s) && InsertStep(o, s, t, r) && Keyed(t.evidence)
    ensures Numbered(t)
  {
    hide E.IndexInvariant, P.RegistryInvariant, TopicCleared, RecordInvariant;
  }

  lemma InsertStepKeepsInv(o: Oracles, s: State, t: State, r: EvidenceRecord)
    requires Inv(o, s) && InsertStep(o, s, t, r)
    ensures Inv(o, t)
  {
    InsertStepRecords(o, s, t, r);
    InsertStepTopics(o, s, t, r);
    InsertStepNumbers(o, s, t, r);
  }

  /** Seen from before the generation was observed, `r` is the only newcomer. */
  lemma InsertStepEvolves(o: Oracles, s0: State, s: State, t: State, r: EvidenceRecord)
    requires Evolves(o, s0, s) && InsertStep(o, s, t, r)
    requires r.id !in s0.evidence.byId && WellFormed(o, r) && !WasUsed(s0.publishers, r)
    ensures Evolves(o, s0, t)
  {
    hide E.IndexInvariant, P.RegistryInvariant, TopicCleared, RecordInvariant;
    assert MovesForward(s, t);
    MovesForwardTransitive(s0, s, t);
    forall id | id in t.evidence.byId
      ensures Continues(o, s0, id, t.evidence.byId[id])
    {
      if t.evidence.byId[id] != r {
        assert Continues(o, s0, id, s.evidence.byId[id]);
      }
    }
  }

  // ---- the whole submission -----------------------------------------------

  /** The session is live and the flow record is the current incarnation of some key. */
  ghost predicate Admitted(s: State, env: SessionEnvelope, flow: FlowRecord) {
    && P.HoldsSession(s.publishers, env.publisher, env.publisherBoot)
    && exists k :: k in s.flows.current && s.flows.current[k] == flow
  }

  lemma MintWellFormed(o: Oracles, s: State, env: SessionEnvelope, p: EvidencePayload, flow: FlowRecord, seqno: nat, tick: Tick)
    requires env.publisher in s.publishers.live
    ensures WellFormed(o, Mint(o, s, env, p, flow, seqno, tick))
  {
    var r := Mint(o, s, env, p, flow, seqno, tick);
    assert EvidenceContent(r.(contentDigest := [])) == EvidenceContent(r);
  }

  lemma MintGrounded(o: Oracles, s: State, t: State, env: SessionEnvelope, p: EvidencePayload, flow: FlowRecord, seqno: nat,
                     tick: Tick)
    requires Admitted(s, env, flow)
    requires t.epoch == s.epoch && t.flows == s.flows && KeepsLive(s.publishers, t.publishers)
    ensures Grounded(t, Mint(o, s, env, p, flow, seqno, tick))
  {
    var r := Mint(o, s, env, p, flow, seqno, tick);
    var k :| k in s.flows.current && s.flows.current[k] == flow;
    assert k in t.flows.current && t.flows.current[k].id == r.flowId && t.flows.current[k].generation == r.flowGeneration;
  }

  lemma TouchedKeepsIncarnations(p: P.Publishers, id: string, boot: nat, tick: Tick, wall: nat)
    requires P.HoldsSession(p, id, boot)
    ensures P.LiveIncarnations(P.Touched(p, id, boot, tick, wall).0) == P.LiveIncarnations(p)
    ensures P.Touched(p, id, boot, tick, wall).0.live.Keys == p.live.Keys
  {
    var q := P.Touched(p, id, boot, tick, wall).0;
    assert forall k | k in p.live :: k in q.live && q.live[k].state == p.live[k].state && q.live[k].boot == p.live[k].boot;
    assert q.live.Keys == p.live.Keys;
  }

  /** The publishers before and after the touch that follows a successful insertion. */
  ghost predicate Retouched(p: P.Publishers, q: P.Publishers, env: SessionEnvelope) {
    q == p || exists tick, wall :: q == P.Touched(p, env.publisher, env.publisherBoot, tick, wall).0
  }

  lemma RetouchedKeeps(p: P.Publishers, q: P.Publishers, env: SessionEnvelope)
    requires P.RegistryInvariant(p) && P.HoldsSession(p, env.publisher, env.publisherBoot) && Retouched(p, q, env)
    ensures P.RegistryInvariant(q) && P.Forward(p, q) && KeepsLive(p, q)
    ensures P.LiveIncarnations(q) == P.LiveIncarnations(p) && q.live.Keys == p.live.Keys
  {
    hide P.Touched, P.RegistryInvariant, P.LiveIncarnations, P.HoldsSession;
    if q != p {
      var tick, wall :| q == P.Touched(p, env.publisher, env.publisherBoot, tick, wall).0;
      P.TouchedKeepsInvariant(p, env.publisher, env.publisherBoot, tick, wall);
      TouchedKeepsLive(p, env.publisher, env.publisherBoot, tick, wall);
      TouchedKeepsIncarnations(p, env.publisher, env.publisherBoot, tick, wall);
    }
  }

  lemma NewIdentity(o: Oracles, s: State, r: EvidenceRecord)
    requires DistinctEvidenceIds(o) && RecordsInvariant(o, s) && Keyed(s.evidence) && WellFormed(o, r)
    requires Newest(s.evidence, r.publisher, r.publisherBoot, r.generation)
    ensures r.id !in s.evidence.byId
  {
    if r.id in s.evidence.byId {
      assert RecordInvariant(o, s, s.evidence.byId[r.id]);
      SharedIdentity(o, s.evidence.byId[r.id], r);
    }
  }

  lemma SharedIdentity(o: Oracles, x: EvidenceRecord, r: EvidenceRecord)
    requires DistinctEvidenceIds(o) && WellFormed(o, x) && WellFormed(o, r) && x.id == r.id
    ensures IdentityOf(x) == IdentityOf(r)
  {
  }

  /** `s` once `r` has its number; `e` and `p` after insertion. */
  function Settled(o: Oracles, s: State, r: EvidenceRecord, tick: Tick, e: E.Evidence, p: P.Publishers): State {
    Numbering(o, s, r, tick).(evidence := e, publishers := p)
  }

  lemma PublishCases(o: Oracles, s: State, env: SessionEnvelope, p: EvidencePayload, flow: FlowRegistration, tick: Tick,
                     later: Tick, wall: nat)
    requires env.publisher in s.publishers.live
    ensures var t := Publish(o, s, env, p, flow, tick, later, wall).0;
            if s.sequence >= MAX_U64 then t == s
            else
              var r := Mint(o, s, env, p, flow.record, s.sequence + 1, tick);
              && t == Settled(o, s, r, tick, E.Inserted(Numbering(o, s, r, tick).evidence, r).0, t.publishers)
              && Retouched(s.publishers, t.publishers, env)
  {
    hide Displace, E.Inserted, P.Touched, E.FlowRecords, Mint;
  }

  lemma NumberingSeqs(o: Oracles, s: State, r: EvidenceRecord, tick: Tick)
    requires RecordsInvariant(o, s) && r.acceptedSeq == s.sequence + 1
    requires Relabelled(s.evidence, Numbering(o, s, r, tick).evidence)
    ensures var e := Numbering(o, s, r, tick).evidence;
            forall id | id in e.byId :: e.byId[id].acceptedSeq < r.acceptedSeq
  {
    hide Numbering;
    var e := Numbering(o, s, r, tick).evidence;
    forall id | id in e.byId
      ensures e.byId[id].acceptedSeq < r.acceptedSeq
    {
      assert RecordInvariant(o, s, s.evidence.byId[id]);
    }
  }

  lemma MintInvariant(o: Oracles, s: State, t: State, env: SessionEnvelope, p: EvidencePayload, flow: FlowRecord, tick: Tick)
    requires Admitted(s, env, flow)
    requires P.Used(s.publishers, env.publisher, env.publisherBoot, p.evidenceGeneration)
    requires t.epoch == s.epoch && t.flows == s.flows && t.sequence == s.sequence + 1
    requires KeepsLive(s.publishers, t.publishers) && P.Forward(s.publishers, t.publishers)
    ensures RecordInvariant(o, t, Mint(o, s, env, p, flow, s.sequence + 1, tick))
  {
    hide KeepsLive, P.Forward, P.Used, WellFormed, Grounded;
    MintWellFormed(o, s, env, p, flow, s.sequence + 1, tick);
    MintGrounded(o, s, t, env, p, flow, s.sequence + 1, tick);
    P.ForwardKeepsUsed(s.publishers, t.publishers, env.publisher, env.publisherBoot, p.evidenceGeneration);
  }

  /** Everything that inserting the minted record owes, from the state that numbered it. */
  lemma SettledStep(o: Oracles, s: State, env: SessionEnvelope, p: EvidencePayload, flow: FlowRecord, tick: Tick,
                    q: P.Publishers)
    requires DistinctIdentities(o) && Inv(o, s) && Admitted(s, env, flow)
    requires P.Used(s.publishers, env.publisher, env.publisherBoot, p.evidenceGeneration)
    requires Newest(s.evidence, env.publisher, env.publisherBoot, p.evidenceGeneration)
    requires Retouched(s.publishers, q, env)
    ensures var r := Mint(o, s, env, p, flow, s.sequence + 1, tick);
            var s3 := Numbering(o, s, r, tick);
            && InsertStep(o, s3, Settled(o, s, r, tick, E.Inserted(s3.evidence, r).0, q), r)
            && r.id !in s.evidence.byId && WellFormed(o, r)
  {
    hide Inv, RecordInvariant, Numbering, E.Inserted, E.Gains, E.IndexInvariant, P.RegistryInvariant, P.Forward,
         KeepsLive, P.LiveIncarnations, TopicCleared, RecordsInvariant, Relabelled, Newest, Retouched, WellFormed,
         P.Used, Grounded, DistinctEvidenceIds, DistinctFlowIds, TopicInvariant, Numbered, W.ContractInvariant,
         F.FlowInvariant, D.MemoInvariant, MemoShrinks, RingsNumbered;
    PartsOf(o, s);
    PartsKeyed(o, s);
    var r := Mint(o, s, env, p, flow, s.sequence + 1, tick);
    var s3 := Numbering(o, s, r, tick);
    var t := Settled(o, s, r, tick, E.Inserted(s3.evidence, r).0, q);
    NumberingFrame(o, s, r, tick);
    MintWellFormed(o, s, env, p, flow, s.sequence + 1, tick);
    NewIdentity(o, s, r);
    RelabelledKeys(s.evidence, s3.evidence, r.id);
    RelabelledIndex(s.evidence, s3.evidence);
    E.InsertKeepsIndex(s3.evidence, r);
    E.InsertGains(s3.evidence, r);
    RetouchedKeeps(s.publishers, q, env);
    MintInvariant(o, s, t, env, p, flow, tick);
    DisplacedClears(o, s, r, tick);
    NumberingEvidence(o, s, r, tick);
    NumberingSeqs(o, s, r, tick);
  }

  lemma PartsKeyed(o: Oracles, s: State)
    requires Inv(o, s)
    ensures Keyed(s.evidence) && RingsNumbered(s)
  {
  }

  lemma RelabelledKeys(e: E.Evidence, f: E.Evidence, id: string)
    requires Relabelled(e, f) && id !in e.byId
    ensures id !in f.byId
  {
  }

  lemma NumberingEvidence(o: Oracles, s: State, r: EvidenceRecord, tick: Tick)
    ensures Numbering(o, s, r, tick).evidence == Displaced(o, s, r, tick).evidence
  {
  }

  lemma SettledKeepsInv(o: Oracles, s: State, env: SessionEnvelope, p: EvidencePayload, flow: FlowRecord, tick: Tick,
                        q: P.Publishers)
    requires DistinctIdentities(o) && Inv(o, s) && Admitted(s, env, flow)
    requires P.Used(s.publishers, env.publisher, env.publisherBoot, p.evidenceGeneration)
    requires Newest(s.evidence, env.publisher, env.publisherBoot, p.evidenceGeneration)
    requires Retouched(s.publishers, q, env)
    ensures var r := Mint(o, s, env, p, flow, s.sequence + 1, tick);
            var s3 := Numbering(o, s, r, tick);
            Inv(o, Settled(o, s, r, tick, E.Inserted(s3.evidence, r).0, q))
  {
    hide Inv, Numbering, Settled, E.Inserted, InsertStep, DistinctIdentities, Newest, P.Used, Retouched, WellFormed;
    var r := Mint(o, s, env, p, flow, s.sequence + 1, tick);
    var s3 := Numbering(o, s, r, tick);
    NumberingKeepsInv(o, s, r, tick);
    SettledStep(o, s, env, p, flow, tick, q);
    InsertStepKeepsInv(o, s3, Settled(o, s, r, tick, E.Inserted(s3.evidence, r).0, q), r);
  }

  lemma SettledMemo(o: Oracles, s: State, r: EvidenceRecord, tick: Tick, e: E.Evidence, q: P.Publishers)
    requires MemoShrinks(s, Numbering(o, s, r, tick))
    ensures MemoShrinks(s, Settled(o, s, r, tick, e, q))
  {
    hide Numbering;
  }

  /** Seen from the state before the generation was observed. */
  lemma SettledSound(o: Oracles, s1: State, s: State, env: SessionEnvelope, p: EvidencePayload, flow: FlowRecord, tick: Tick,
                     q: P.Publishers)
    requires DistinctIdentities(o) && Inv(o, s1) && Sound(o, s1, s) && s.evidence == s1.evidence && Admitted(s, env, flow)
    requires P.Used(s.publishers, env.publisher, env.publisherBoot, p.evidenceGeneration)
    requires !P.Used(s1.publishers, env.publisher, env.publisherBoot, p.evidenceGeneration)
    requires Newest(s.evidence, env.publisher, env.publisherBoot, p.evidenceGeneration)
    requires Retouched(s.publishers, q, env)
    ensures var r := Mint(o, s, env, p, flow, s.sequence + 1, tick);
            var s3 := Numbering(o, s, r, tick);
            Sound(o, s1, Settled(o, s, r, tick, E.Inserted(s3.evidence, r).0, q))
  {
    hide Inv, Numbering, Settled, E.Inserted, InsertStep, DistinctIdentities, Newest, P.Used, Retouched, WellFormed,
         Evolves, MemoShrinks;
    var r := Mint(o, s, env, p, flow, s.sequence + 1, tick);
    var s3 := Numbering(o, s, r, tick);
    var t := Settled(o, s, r, tick, E.Inserted(s3.evidence, r).0, q);
    SettledKeepsInv(o, s, env, p, flow, tick, q);
    NumberingKeepsInv(o, s, r, tick);
    SoundTransitive(o, s1, s, s3);
    SettledStep(o, s, env, p, flow, tick, q);
    InsertStepEvolves(o, s1, s3, t, r);
    SettledMemo(o, s, r, tick, E.Inserted(s3.evidence, r).0, q);
    MemoShrinksTransitive(s1, s, t);
  }

  lemma MemoShrinksTransitive(s: State, t: State, u: State)
    requires MemoShrinks(s, t) && MemoShrinks(t, u)
    ensures MemoShrinks(s, u)
  {
  }

  lemma PublishKeepsInv(o: Oracles, s1: State, env: SessionEnvelope, p: EvidencePayload, flow: FlowRegistration, tick: Tick,
                        later: Tick, wall: nat)
    requires DistinctIdentities(o) && Inv(o, s1) && Admitted(s1, env, flow.record)
    requires P.Observed(s1.publishers, env.publisher, env.publisherBoot, p.evidenceGeneration).1.Ok?
    ensures var s := Observing(s1, env.publisher, env.publisherBoot, p.evidenceGeneration);
            env.publisher in s.publishers.live && Sound(o, s1, Publish(o, s, env, p, flow, tick, later, wall).0)
  {
    hide Inv, Sound, Publish, Settled, Newest, P.Used, Retouched, DistinctIdentities, P.Observed, E.Inserted, Mint,
         Numbering, RecordsInvariant, P.RegistryInvariant, TopicInvariant, Numbered, W.ContractInvariant,
         F.FlowInvariant, D.MemoInvariant, E.IndexInvariant;
    var s := Observing(s1, env.publisher, env.publisherBoot, p.evidenceGeneration);
    PartsOf(o, s1);
    ObservedKeepsInv(o, s1, env.publisher, env.publisherBoot, p.evidenceGeneration);
    ObservedIsNewest(o, s1, env.publisher, env.publisherBoot, p.evidenceGeneration);
    ObservedHolds(s1.publishers, env.publisher, env.publisherBoot, p.evidenceGeneration);
    PublishCases(o, s, env, p, flow, tick, later, wall);
    var t := Publish(o, s, env, p, flow, tick, later, wall).0;
    if s.sequence < MAX_U64 {
      SoundInv(o, s1, s);
      SettledSound(o, s1, s, env, p, flow.record, tick, t.publishers);
    }
  }

  lemma ObservedHolds(p: P.Publishers, id: string, boot: nat, generation: nat)
    requires P.HoldsSession(p, id, boot)
    ensures P.HoldsSession(P.Observed(p, id, boot, generation).0, id, boot)
  {
  }

  lemma SubmitCases(o: Oracles, s: State, env: SessionEnvelope, p: EvidencePayload, tick: Tick, later: Tick, wall: nat)
    ensures var t := SubmitEvidence(o, s, env, p, tick, later, wall).0;
            var (s1, flow) := RegisterFlow(o, s, p.flowKey, p.flowGeneration, env.session, tick);
            || t == s
            || t == s1
            || (&& flow.Ok?
                && P.HoldsSession(s.publishers, env.publisher, env.publisherBoot)
                && P.Observed(s1.publishers, env.publisher, env.publisherBoot, p.evidenceGeneration).1.Ok?
                && env.publisher in Observing(s1, env.publisher, env.publisherBoot, p.evidenceGeneration).publishers.live
                && t == Publish(o, Observing(s1, env.publisher, env.publisherBoot, p.evidenceGeneration), env, p, flow.value,
                                tick, later, wall).0)
  {
    hide Publish, Fence, F.Registered, SourceFault, WorkloadFault, ContractFault;
  }

  lemma RegisterFlowAdmits(o: Oracles, s: State, env: SessionEnvelope, key: FlowKey, requested: nat, tick: Tick)
    requires F.FlowInvariant(o, s.flows) && P.HoldsSession(s.publishers, env.publisher, env.publisherBoot)
    ensures var (s1, flow) := RegisterFlow(o, s, key, requested, env.session, tick);
            flow.Ok? ==> Admitted(s1, env, flow.value.record)
  {
    hide F.FlowInvariant, F.Registered, Fence;
    F.RegisteredOutcome(o, s.flows, key, requested, env.session, tick);
    var (s1, flow) := RegisterFlow(o, s, key, requested, env.session, tick);
    if flow.Ok? {
      assert key in s1.flows.current && s1.flows.current[key] == flow.value.record;
    }
  }

  lemma SubmitEvidenceKeepsInv(o: Oracles, s: State, env: SessionEnvelope, p: EvidencePayload, tick: Tick, later: Tick,
                               wall: nat)
    requires DistinctIdentities(o) && Inv(o, s)
    ensures Sound(o, s, SubmitEvidence(o, s, env, p, tick, later, wall).0)
  {
    hide *;
    SubmitCases(o, s, env, p, tick, later, wall);
    var t := SubmitEvidence(o, s, env, p, tick, later, wall).0;
    var (s1, flow) := RegisterFlow(o, s, p.flowKey, p.flowGeneration, env.session, tick);
    if t == s {
      StayKeepsInv(o, s);
    } else {
      RegisterFlowKeepsInv(o, s, p.flowKey, p.flowGeneration, env.session, tick);
      if t != s1 {
        PartsOf(o, s);
        RegisterFlowAdmits(o, s, env, p.flowKey, p.flowGeneration, tick);
        SoundInv(o, s, s1);
        PublishKeepsInv(o, s1, env, p, flow.value, tick, later, wall);
        SoundTransitive(o, s, s1, t);
      }
    }
  }
}
