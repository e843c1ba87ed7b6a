/**
 * What an accepted submission displaces and reports: exactly the flow's older records of its
 * publisher boot and topic, each with a notice, and the fence it raised.
 */
module DisplacementMeaning {
  import opened Domain
  import opened Sorting
  import opened ClassifierState
  import opened ClassifierInvariant
  import opened ClassifierSteps
  import opened ClassifierSubmission
  import opened ClassifierPublication
  import opened Sweeps
  import opened SubmissionMeaning
  import opened ClassifyMeaning
  import opened AuthorityMeaning
  import opened FlowMeaning
  import E = EvidenceStore
  import P = PublisherRegistry
  import F = FlowRegistry
  import D = ClassificationIndex

  /** Of the same publisher boot and topic, and of an earlier generation. */
  predicate Succeeds(r: EvidenceRecord, x: EvidenceRecord) {
    && x.publisher == r.publisher && x.publisherBoot == r.publisherBoot
    && x.metadata.topic == r.metadata.topic && x.generation < r.generation
  }

  function Succeeded(e: E.Evidence, r: EvidenceRecord): string -> bool {
    id => id in e.byId && Succeeds(r, e.byId[id])
  }

  /** A displaced record is SUPERSEDED, any other is as it was. */
  predicate Marked(a: EvidenceRecord, b: EvidenceRecord, hit: bool) {
    if hit then b == a.(state := EvidenceSuperseded, stateReason := b.stateReason) else b == a
  }

  predicate Noticed(n: SupersessionRecord, r: EvidenceRecord, x: EvidenceRecord, tick: Tick) {
    && n.previousId == x.id && n.previousGeneration == x.generation
    && n.replacementId == r.id && n.replacementGeneration == r.generation
    && n.publisher == r.publisher && n.seqno == r.acceptedSeq && n.recordedTick == tick
  }

  /** One notice for each displaced record, in their order. */
  ghost predicate NoticedAll(notes: seq<SupersessionRecord>, r: EvidenceRecord, byId: map<string, EvidenceRecord>,
                             hit: seq<string>, tick: Tick)
  {
    && |notes| == |hit|
    && forall i | 0 <= i < |hit| :: hit[i] in byId && Noticed(notes[i], r, byId[hit[i]], tick)
  }

  /** A ring gains the notices one after the other. */
  ghost predicate JoinsAll(before: seq<SupersessionRecord>, after: seq<SupersessionRecord>, bound: nat,
                           xs: seq<SupersessionRecord>)
  {
    exists rings: seq<seq<SupersessionRecord>> ::
      && |rings| == |xs| + 1 && rings[0] == before && rings[|xs|] == after
      && forall i | 0 <= i < |xs| :: Joins(rings[i], rings[i + 1], bound, xs[i])
  }

  lemma JoinsOne(before: seq<SupersessionRecord>, mid: seq<SupersessionRecord>, after: seq<SupersessionRecord>,
                 bound: nat, xs: seq<SupersessionRecord>, x: SupersessionRecord)
    requires JoinsAll(before, mid, bound, xs) && Joins(mid, after, bound, x)
    ensures JoinsAll(before, after, bound, xs + [x])
  {
    hide Joins;
    var rings :| && |rings| == |xs| + 1 && rings[0] == before && rings[|xs|] == mid
                 && forall i | 0 <= i < |xs| :: Joins(rings[i], rings[i + 1], bound, xs[i]);
    var more := rings + [after];
    assert more[0] == before && more[|xs| + 1] == after;
  }

  ghost predicate FilesNotices(d: D.Decisions, e: D.Decisions, r: EvidenceRecord, byId: map<string, EvidenceRecord>,
                               hit: seq<string>, tick: Tick)
  {
    && e == d.(supersessions := e.supersessions)
    && exists notes ::
         NoticedAll(notes, r, byId, hit, tick) && JoinsAll(d.supersessions, e.supersessions, d.bounds.supersessions,
                                                           notes)
  }

  ghost predicate MarksExactly(e: E.Evidence, f: E.Evidence, hit: seq<string>) {
    && f == e.(byId := f.byId) && f.byId.Keys == e.byId.Keys
    && forall id | id in e.byId :: Marked(e.byId[id], f.byId[id], id in hit)
  }

  ghost predicate ReportsLast(before: Option<string>, after: Option<string>, hit: seq<string>) {
    after == if hit == [] then before else Some(hit[|hit| - 1])
  }

  // ---- one after the other ------------------------------------------------

  lemma OneIsMarked(o: Oracles, e: E.Evidence, id: string, reason: string, f: E.Evidence, hit: seq<string>)
    requires MarksExactly(e, f, hit) && id in e.byId && id !in hit
    ensures MarksExactly(e, E.WithState(f, id, EvidenceSuperseded, reason).0, hit + [id])
  {
  }

  lemma OneIsNoticed(d: D.Decisions, e: D.Decisions, r: EvidenceRecord, byId: map<string, EvidenceRecord>,
                     hit: seq<string>, tick: Tick, id: string)
    requires FilesNotices(d, e, r, byId, hit, tick) && id in byId
    ensures FilesNotices(d, D.WithSupersession(e, SupersessionOf(r, byId[id], tick)), r, byId, hit + [id], tick)
  {
    hide Joins, JoinsAll, D.Pushed;
    var notes :| NoticedAll(notes, r, byId, hit, tick)
                 && JoinsAll(d.supersessions, e.supersessions, d.bounds.supersessions, notes);
    var n := SupersessionOf(r, byId[id], tick);
    var more := notes + [n];
    PushedJoins(e.supersessions, d.bounds.supersessions, n);
    JoinsOne(d.supersessions, e.supersessions, D.WithSupersession(e, n).supersessions, d.bounds.supersessions, notes, n);
    assert NoticedAll(more, r, byId, hit + [id], tick);
  }

  lemma NothingNoticed(d: D.Decisions, r: EvidenceRecord, byId: map<string, EvidenceRecord>, tick: Tick)
    ensures FilesNotices(d, d, r, byId, [], tick)
  {
    assert NoticedAll([], r, byId, [], tick);
    var rings := [d.supersessions];
    assert rings[0] == d.supersessions;
  }

  lemma {:induction false} DisplaceMeans(o: Oracles, x: Displacement, r: EvidenceRecord, ids: seq<string>, tick: Tick)
    requires NoRepeats(ids) && forall id | id in ids :: id in x.evidence.byId && x.evidence.byId[id].id == id
    ensures var y, hit := Displace(o, x, r, ids, tick), Filter(Succeeded(x.evidence, r), ids);
            && MarksExactly(x.evidence, y.evidence, hit)
            && FilesNotices(x.decisions, y.decisions, r, x.evidence.byId, hit, tick)
            && ReportsLast(x.last, y.last, hit)
    decreases |ids|
  {
    hide MarksExactly, FilesNotices, E.WithState, D.WithSupersession, SupersessionOf;
    if ids == [] {
      NothingNoticed(x.decisions, r, x.evidence.byId, tick);
      NothingMarked(x.evidence);
    } else {
      var rest, id := ids[..|ids| - 1], ids[|ids| - 1];
      assert forall k | k in rest :: k in ids;
      assert id in ids;
      DisplaceMeans(o, x, r, rest, tick);
      var y, hit := Displace(o, x, r, rest, tick), Filter(Succeeded(x.evidence, r), rest);
      FilterMembers(Succeeded(x.evidence, r), rest);
      LastIsNew(ids);
      Unmarked(x.evidence, y.evidence, hit, id);
      if Succeeds(r, x.evidence.byId[id]) {
        OneIsMarked(o, x.evidence, id, o.render(SupersededBy(r.id, r.generation)), y.evidence, hit);
        OneIsNoticed(x.decisions, y.decisions, r, x.evidence.byId, hit, tick, id);
      }
    }
  }

  lemma LastIsNew(ids: seq<string>)
    requires NoRepeats(ids) && ids != []
    ensures ids[|ids| - 1] !in ids[..|ids| - 1]
  {
  }

  lemma NothingMarked(e: E.Evidence)
    ensures MarksExactly(e, e, [])
  {
  }

  lemma Unmarked(e: E.Evidence, f: E.Evidence, hit: seq<string>, id: string)
    requires MarksExactly(e, f, hit) && id in e.byId && id !in hit
    ensures id in f.byId && f.byId[id] == e.byId[id]
  {
  }

  // ---- an accepted submission ---------------------------------------------

  /** Listed for the record's flow, and succeeded by it. */
  ghost predicate Displaceable(e: E.Evidence, r: EvidenceRecord, id: string) {
    id in e.byId && Listed(e, r.flowId, e.byId[id]) && Succeeds(r, e.byId[id])
  }

  ghost predicate NoticesJoin(d: D.Decisions, e: D.Decisions, r: EvidenceRecord, byId: map<string, EvidenceRecord>,
                              hit: seq<string>, tick: Tick)
  {
    && e == d.(history := e.history, supersessions := e.supersessions)
    && exists notes ::
         NoticedAll(notes, r, byId, hit, tick) && JoinsAll(d.supersessions, e.supersessions, d.bounds.supersessions,
                                                           notes)
  }

  /** Each displaced record once, marked, noticed, and the last of them reported. */
  ghost predicate Replaces(s: State, t: State, sub: Submission, tick: Tick) {
    exists hit ::
      && NoRepeats(hit) && (forall id :: id in hit <==> Displaceable(s.evidence, sub.record, id))
      && ReportsLast(None, sub.supersededId, hit)
      && NoticesJoin(s.decisions, t.decisions, sub.record, s.evidence.byId, hit, tick)
      && forall id | id in hit && id in t.evidence.byId && id != sub.record.id ::
           t.evidence.byId[id].state == EvidenceSuperseded
  }

  /** The fence the submission raised, if it named a later generation than the current one. */
  ghost predicate ReportsFence(s: State, key: FlowKey, sub: Submission) {
    && (sub.fencedFlow <==> key in s.flows.current && s.flows.current[key].generation < sub.record.flowGeneration)
    && sub.previousFlowGeneration == if sub.fencedFlow then s.flows.current[key].generation else 0
  }

  lemma AcceptedOutcome(o: Oracles, s: State, env: SessionEnvelope, p: EvidencePayload, tick: Tick, later: Tick,
                        wall: nat)
    requires SubmitEvidence(o, s, env, p, tick, later, wall).1.Ok?
    ensures var e := SubmitEvidence(o, s, env, p, tick, later, wall);
            var f := RegisterFlow(o, s, p.flowKey, p.flowGeneration, env.session, tick);
            var q := P.Observed(f.0.publishers, env.publisher, env.publisherBoot, p.evidenceGeneration).0;
            var x := Displaced(o, f.0.(publishers := q), e.1.value.record, tick);
            && f.1.Ok? && e.0.decisions == x.decisions && e.1.value.supersededId == x.last
            && e.0.evidence == E.Inserted(x.evidence, e.1.value.record).0
            && e.1.value.fencedFlow == f.1.value.fencedPrevious && e.0.sequence == s.sequence + 1
            && e.1.value.record.flowId == f.1.value.record.id
            && e.1.value.record.flowGeneration == f.1.value.record.generation
            && e.1.value.previousFlowGeneration == if f.1.value.fencedPrevious then f.1.value.previousGeneration else 0
  {
    hide Displace, E.Inserted, P.Touched, P.Observed, E.FlowRecords, RegisterFlow, AdmissionFault, Ceiling, ClampSource,
         EvidenceDigest;
    RegisterStages(o, s, p.flowKey, p.flowGeneration, env.session, tick);
    var s1 := RegisterFlow(o, s, p.flowKey, p.flowGeneration, env.session, tick).0;
    if P.Observed(s1.publishers, env.publisher, env.publisherBoot, p.evidenceGeneration).1.Ok? {
      ObservedKeepsCeiling(s1.publishers, env.publisher, env.publisherBoot, p.evidenceGeneration);
    }
  }

  lemma FenceReported(o: Oracles, s: State, key: FlowKey, requested: nat, session: string, tick: Tick)
    requires DistinctFlowIds(o) && F.FlowInvariant(o, s.flows) && RegisterFlow(o, s, key, requested, session, tick).1.Ok?
    ensures var r := RegisterFlow(o, s, key, requested, session, tick).1.value;
            && (r.fencedPrevious <==> key in s.flows.current && s.flows.current[key].generation < r.record.generation)
            && (r.fencedPrevious ==> r.previousGeneration == s.flows.current[key].generation)
  {
    hide RegisterFlow, F.FlowInvariant, DistinctFlowIds, Staled, Outdates, Remembered, OnlyFlow;
    FlowRegisters(o, s, key, requested, session, tick);
  }

  /** A fence changes states only, so the same records are listed and succeeded. */
  lemma FenceKeepsDisplaceable(o: Oracles, e: E.Evidence, x: FlowRegistration, r: EvidenceRecord, id: string)
    requires forall k | k in e.byId :: e.byId[k].id == k
    ensures id in Fence(o, e, x).byId <==> id in e.byId
    ensures id in e.byId ==>
              Fence(o, e, x).byId[id].id == id && Fence(o, e, x).byId[id].generation == e.byId[id].generation
    ensures Displaceable(Fence(o, e, x), r, id) <==> Displaceable(e, r, id)
  {
  }

  lemma ReachableIds(e: E.Evidence, flow: FlowId, id: string)
    requires E.IndexInvariant(e)
    ensures NoRepeats(E.IdsOf(E.FlowRecords(e, flow)))
    ensures id in E.IdsOf(E.FlowRecords(e, flow)) <==> id in e.byId && e.byId[id].id == id && Listed(e, flow, e.byId[id])
  {
    hide E.FlowRecords, E.IndexInvariant;
    E.FlowReachesItsList(e, flow);
    var rs := E.FlowRecords(e, flow);
    if id in E.IdsOf(rs) {
      var i :| 0 <= i < |rs| && rs[i].id == id;
      EvidenceIsListed(e, flow, rs[i]);
    }
    if id in e.byId && e.byId[id].id == id && Listed(e, flow, e.byId[id]) {
      EvidenceIsListed(e, flow, e.byId[id]);
      var i :| 0 <= i < |rs| && rs[i] == e.byId[id];
      assert E.IdsOf(rs)[i] == id;
    }
  }

  lemma NoticesOfFenced(o: Oracles, e: E.Evidence, x: FlowRegistration, d: D.Decisions, f: D.Decisions, g: D.Decisions,
                        r: EvidenceRecord, hit: seq<string>, tick: Tick)
    requires forall k | k in e.byId :: e.byId[k].id == k
    requires FilesNotices(f, g, r, Fence(o, e, x).byId, hit, tick) && f == d.(history := f.history)
    ensures NoticesJoin(d, g, r, e.byId, hit, tick)
  {
    hide JoinsAll, Fence;
    var notes :| NoticedAll(notes, r, Fence(o, e, x).byId, hit, tick)
                 && JoinsAll(f.supersessions, g.supersessions, f.bounds.supersessions, notes);
    forall i | 0 <= i < |hit|
      ensures hit[i] in e.byId && Noticed(notes[i], r, e.byId[hit[i]], tick)
    {
      FenceKeepsDisplaceable(o, e, x, r, hit[i]);
    }
    assert NoticedAll(notes, r, e.byId, hit, tick);
  }

  /** What the supersession pass does to the fenced store, in terms of the store before. */
  lemma DisplacedMeans(o: Oracles, s: State, x: FlowRegistration, s2: State, r: EvidenceRecord, tick: Tick)
    requires E.IndexInvariant(s2.evidence) && s2.evidence == Fence(o, s.evidence, x)
    requires forall k | k in s.evidence.byId :: s.evidence.byId[k].id == k
    requires s2.decisions == s.decisions.(history := s2.decisions.history)
    ensures var y := Displaced(o, s2, r, tick);
            var hit := Filter(Succeeded(s2.evidence, r), E.IdsOf(E.FlowRecords(s2.evidence, r.flowId)));
            && NoRepeats(hit) && (forall id :: id in hit <==> Displaceable(s.evidence, r, id))
            && ReportsLast(None, y.last, hit) && NoticesJoin(s.decisions, y.decisions, r, s.evidence.byId, hit, tick)
            && MarksExactly(s2.evidence, y.evidence, hit)
  {
    hide E.FlowRecords, E.IndexInvariant, Displace, Displaceable, Listed, Succeeds, MarksExactly, FilesNotices,
         NoticesJoin, Fence;
    var e, ids := s2.evidence, E.IdsOf(E.FlowRecords(s2.evidence, r.flowId));
    var hit := Filter(Succeeded(e, r), ids);
    ReachableIds(e, r.flowId, "");
    FilterNoRepeats(Succeeded(e, r), ids);
    FilterMembers(Succeeded(e, r), ids);
    forall id
      ensures id in hit <==> Displaceable(s.evidence, r, id)
      ensures id in ids ==> id in e.byId && e.byId[id].id == id
    {
      ReachableIds(e, r.flowId, id);
      FenceKeepsDisplaceable(o, s.evidence, x, r, id);
      DisplaceableParts(e, r, id);
    }
    DisplaceMeans(o, Displacement(e, s2.decisions, None), r, ids, tick);
    NoticesOfFenced(o, s.evidence, x, s.decisions, s2.decisions, Displaced(o, s2, r, tick).decisions, r, hit, tick);
  }

  lemma DisplaceableParts(e: E.Evidence, r: EvidenceRecord, id: string)
    ensures Displaceable(e, r, id) <==> id in e.byId && Listed(e, r.flowId, e.byId[id]) && Succeeds(r, e.byId[id])
  {
  }

  lemma StoredMarks(e: E.Evidence, y: E.Evidence, r: EvidenceRecord, hit: seq<string>, id: string)
    requires MarksExactly(e, y, hit) && id in hit && id in E.Inserted(y, r).0.byId && id != r.id
    ensures E.Inserted(y, r).0.byId[id].state == EvidenceSuperseded
  {
    hide E.Inserted;
    E.InsertGains(y, r);
  }

  lemma FencedStage(o: Oracles, s: State, key: FlowKey, requested: nat, session: string, tick: Tick)
    requires DistinctIdentities(o) && Inv(o, s) && RegisterFlow(o, s, key, requested, session, tick).1.Ok?
    ensures var f := RegisterFlow(o, s, key, requested, session, tick);
            && E.IndexInvariant(f.0.evidence) && f.0.evidence == Fence(o, s.evidence, f.1.value)
            && (forall k | k in s.evidence.byId :: s.evidence.byId[k].id == k)
            && f.0.decisions == s.decisions.(history := f.0.decisions.history)
    ensures var r := RegisterFlow(o, s, key, requested, session, tick).1.value;
            && (r.fencedPrevious <==> key in s.flows.current && s.flows.current[key].generation < r.record.generation)
            && (r.fencedPrevious ==> r.previousGeneration == s.flows.current[key].generation)
  {
    hide Inv, RegisterFlow, Fence, DistinctIdentities, E.IndexInvariant, F.FlowInvariant, RecordsInvariant;
    PartsOf(o, s);
    FlowIdsDiffer(o);
    RegisterStages(o, s, key, requested, session, tick);
    FenceReported(o, s, key, requested, session, tick);
    RegisterFlowKeepsInv(o, s, key, requested, session, tick);
    SoundInv(o, s, RegisterFlow(o, s, key, requested, session, tick).0);
    PartsOf(o, RegisterFlow(o, s, key, requested, session, tick).0);
    KeyedByIds(s.evidence);
    DecisionsFenced(o, s, key, requested, session, tick);
  }

  /** What an accepted submission displaces, notes and reports. */
  lemma AcceptedReplaces(o: Oracles, s: State, env: SessionEnvelope, p: EvidencePayload, tick: Tick, later: Tick,
                         wall: nat)
    requires DistinctIdentities(o) && Inv(o, s) && SubmitEvidence(o, s, env, p, tick, later, wall).1.Ok?
    ensures var e := SubmitEvidence(o, s, env, p, tick, later, wall);
            && Replaces(s, e.0, e.1.value, tick) && ReportsFence(s, p.flowKey, e.1.value)
            && e.0.sequence == s.sequence + 1
  {
    hide Inv, SubmitEvidence, RegisterFlow, P.Observed, E.Inserted, Displaced, Fence, Filter, E.FlowRecords, E.IdsOf,
         DistinctIdentities, Displaceable, NoticesJoin, MarksExactly, E.IndexInvariant;
    AcceptedOutcome(o, s, env, p, tick, later, wall);
    FencedStage(o, s, p.flowKey, p.flowGeneration, env.session, tick);
    var f := RegisterFlow(o, s, p.flowKey, p.flowGeneration, env.session, tick);
    var s2 := f.0.(publishers := P.Observed(f.0.publishers, env.publisher, env.publisherBoot, p.evidenceGeneration).0);
    var e := SubmitEvidence(o, s, env, p, tick, later, wall);
    var rec := e.1.value.record;
    DisplacedMeans(o, s, f.1.value, s2, rec, tick);
    var hit := Filter(Succeeded(s2.evidence, rec), E.IdsOf(E.FlowRecords(s2.evidence, rec.flowId)));
    forall id | id in hit && id in e.0.evidence.byId && id != rec.id
      ensures e.0.evidence.byId[id].state == EvidenceSuperseded
    {
      StoredMarks(s2.evidence, Displaced(o, s2, rec, tick).evidence, rec, hit, id);
    }
  }

  lemma FlowIdsDiffer(o: Oracles)
    requires DistinctIdentities(o)
    ensures DistinctFlowIds(o)
  {
  }

  lemma KeyedByIds(e: E.Evidence)
    requires E.IndexInvariant(e)
    ensures forall k | k in e.byId :: e.byId[k].id == k
  {
  }

  lemma DecisionsFenced(o: Oracles, s: State, key: FlowKey, requested: nat, session: string, tick: Tick)
    requires RegisterFlow(o, s, key, requested, session, tick).1.Ok?
    ensures var t := RegisterFlow(o, s, key, requested, session, tick).0;
            t.decisions == s.decisions.(history := t.decisions.history)
  {
    hide F.Registered, Fence;
  }
}
