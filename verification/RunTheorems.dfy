/**
 * The main results about whole lives of a classifier.
 */
module RunTheorems {
  import opened Domain
  import opened DecisionEngine
  import opened DecisionTheorems
  import DecisionDigest
  import Policy
  import opened ClassifierState
  import opened ClassifierInvariant
  import opened ClassifierSteps
  import opened ClassifierPublication
  import opened ClassifierMemo
  import opened ClassifierRuns
  import opened Restart
  import opened RestartSafety
  import E = EvidenceStore
  import P = PublisherRegistry
  import F = FlowRegistry

  // ---- authority loss is permanent ----------------------------------------

  /** The engine's currentness test of a record for its own flow incarnation, at a tick. */
  ghost predicate Stands(s: State, r: EvidenceRecord, tick: Tick) {
    && r.state == EvidenceCurrent
    && r.acceptedEpoch == s.epoch
    && (RequiresLiveSession(r.source) ==> (r.publisher, r.publisherBoot) in P.LiveIncarnations(s.publishers))
    && !(tick != 0 && r.freshUntil != 0 && tick > r.freshUntil)
  }

  /** `Stands` is what the engine decides by, for every record that is not heuristic. */
  lemma StandsIsTheEngineTest(o: Oracles, s: State, flow: FlowRecord, r: EvidenceRecord, tick: Tick)
    requires flow.id == r.flowId && !r.source.Heuristic?
    ensures var input := Question(s, flow, r.flowGeneration, tick);
            && (Stands(s, r, tick) <==> Authoritative(input, r))
            && (Stands(s, r, tick) <==> Assess(o, input, Fresh(r)).disposition.Selected?)
  {
    hide E.FlowRecords, Assess;
    AssessSelects(o, Question(s, flow, r.flowGeneration, tick), r);
  }

  /** The record was seen earlier and, if it is still stored, it does not stand. */
  ghost predicate Spent(o: Oracles, s: State, x: EvidenceRecord, tick: Tick) {
    Recalled(o, s, x) && (x.id in s.evidence.byId ==> !Stands(s, s.evidence.byId[x.id], tick))
  }

  /** If a record stands later in the same process, it stood before. */
  lemma StoodBefore(o: Oracles, s: State, t: State, r: EvidenceRecord, tick: Tick, tock: Tick)
    requires RecordInvariant(o, s, r) && P.RegistryInvariant(s.publishers) && P.RegistryInvariant(t.publishers)
    requires DurableForward(s, t) && tick <= tock && Stands(t, r, tock)
    ensures Stands(s, r, tick)
  {
  }

  lemma SpentCarries(o: Oracles, s: State, t: State, x: EvidenceRecord, tick: Tick, tock: Tick)
    requires DistinctIdentities(o) && Inv(o, s) && Inv(o, t) && Evolves(o, s, t)
    requires Spent(o, s, x, tick) && tick <= tock
    ensures Spent(o, t, x, tock)
  {
    hide Inv, P.RegistryInvariant, DurableForward, AuthorityForward, Stands, E.IndexInvariant, F.FlowInvariant,
         RecordInvariant, TopicInvariant, Numbered, WellFormed, P.Used;
    PartsOf(o, s);
    PartsOf(o, t);
    DistinctParts(o);
    RecalledCarries(o, s, t, x);
    if x.id in t.evidence.byId && Stands(t, t.evidence.byId[x.id], tock) {
      var r := t.evidence.byId[x.id];
      assert Continues(o, s, x.id, r);
      StandsIsCurrent(t, r, tock);
      if x.id in s.evidence.byId {
        CurrentIsUntouched(s.evidence.byId[x.id], r);
        StoodBefore(o, s, t, r, tick, tock);
      } else {
        MintedOnce(o, s.publishers, x, r);
      }
    }
  }

  lemma StandsIsCurrent(s: State, r: EvidenceRecord, tick: Tick)
    requires Stands(s, r, tick)
    ensures r.state == EvidenceCurrent
  {
  }

  lemma SpentReboots(o: Oracles, s: State, t: State, x: EvidenceRecord, tick: Tick, tock: Tick)
    requires Spent(o, s, x, tick) && RestartedFrom(s, t)
    ensures Spent(o, t, x, tock)
  {
    hide P.LiveIncarnations, AllBefore, WellFormed;
    P.ForwardKeepsUsed(s.publishers, t.publishers, x.publisher, x.publisherBoot, x.generation);
    if x.id in t.evidence.byId {
      AgesTransitive(x, s.evidence.byId[x.id], t.evidence.byId[x.id]);
    }
  }

  lemma {:induction false} SpentForGood(o: Oracles, a: Life, b: Life, x: EvidenceRecord, tick: Tick, tock: Tick)
    requires DistinctIdentities(o) && Valid(o, b) && After(a, b) && Spent(o, StateOf(o, a), x, tick)
    requires SameProcess(a, b) ==> tick <= tock
    ensures Spent(o, StateOf(o, b), x, tock)
    decreases b
  {
    hide Inv, Apply, Start, ImageOf, DistinctIdentities, Evolves, RestartedFrom, MemoBacked, Spent,
         Policy.Canonicalized;
    LivesAreSound(o, b);
    if a == b {
      LaterIsNoBetter(o, StateOf(o, a), x, tick, tock);
    } else {
      LivesAreSound(o, b.before);
      var s, t := StateOf(o, b.before), StateOf(o, b);
      if b.Step? {
        var mid := if SameProcess(a, b.before) then tick else tock;
        SpentForGood(o, a, b.before, x, tick, mid);
        ApplyKeeps(o, s, b.call);
        SpentCarries(o, s, t, x, mid, tock);
      } else {
        SpentForGood(o, a, b.before, x, tick, tick);
        RestartIsSafe(o, s, b.policy, b.image, b.boot, b.tick);
        SpentReboots(o, s, t, x, tick, tock);
      }
    }
  }

  lemma LaterIsNoBetter(o: Oracles, s: State, x: EvidenceRecord, tick: Tick, tock: Tick)
    requires Spent(o, s, x, tick) && tick <= tock
    ensures Spent(o, s, x, tock)
  {
    hide Recalled, P.LiveIncarnations;
  }

  /** A stored record that fails the engine's test. */
  ghost predicate Fails(s: State, id: string, tick: Tick) {
    id in s.evidence.byId && !Stands(s, s.evidence.byId[id], tick)
  }

  /** A stored record that passes it. */
  ghost predicate Passes(s: State, id: string, tick: Tick) {
    id in s.evidence.byId && Stands(s, s.evidence.byId[id], tick)
  }

  /**
   * Authority loss is permanent: once a stored record fails the engine's test it never passes
   * again, whatever reconnects, heartbeats, boots, epochs, publications or restarts follow.
   */
  lemma AuthorityLossIsPermanent(o: Oracles, a: Life, s: State, b: Life, t: State, id: string, tick: Tick, tock: Tick)
    requires DistinctIdentities(o) && Lived(o, a, s) && Lived(o, b, t) && After(a, b)
    requires SameProcess(a, b) ==> tick <= tock
    requires Fails(s, id, tick)
    ensures !Passes(t, id, tock)
  {
    hide Inv, StateOf, Valid, DistinctIdentities, MemoBacked, Stands;
    LivesAreSound(o, a);
    StoredIsRecalled(o, s, id);
    SpentForGood(o, a, b, s.evidence.byId[id], tick, tock);
  }

  lemma StoredIsRecalled(o: Oracles, s: State, id: string)
    requires Inv(o, s) && id in s.evidence.byId
    ensures s.evidence.byId[id].id == id && Recalled(o, s, s.evidence.byId[id])
  {
    assert RecordInvariant(o, s, s.evidence.byId[id]);
  }

  // ---- the memo agrees with the engine ------------------------------------

  /** The query is answerable, and the question it raises can be told apart by its encoding. */
  ghost predicate Encodable(s: State, query: Query, tick: Tick) {
    && Subject(s, query).Ok?
    && query.flowKey in s.flows.current
    && var q := Question(s, s.flows.current[query.flowKey], Subject(s, query).value, tick);
       DecisionDigest.Fits(q) && DecisionDigest.Legible(q)
  }

  /** The query is answered, with what the engine decides now. */
  ghost predicate AnswersTruly(o: Oracles, s: State, query: Query, tick: Tick) {
    var r := Classify(o, s, query, tick).1;
    && r.Ok?
    && Subject(s, query).Ok?
    && query.flowKey in s.flows.current
    && r.value.classification == Decision(o, Question(s, s.flows.current[query.flowKey], Subject(s, query).value, tick))
  }

  /**
   * In every life, an answered query carries what the engine decides now, memo hit or not,
   * whenever the evidence-set encoding fits its bound and every digest in it names its content.
   */
  lemma MemoAgreesInEveryLife(o: Oracles, life: Life, s: State, query: Query, tick: Tick)
    requires CollisionFree(o) && Lived(o, life, s) && Encodable(s, query, tick)
    ensures AnswersTruly(o, s, query, tick)
  {
    hide StateOf, Valid, Inv, MemoBacked, CollisionFree, DistinctIdentities, Classify, Question, Decision,
         DecisionDigest.Fits, DecisionDigest.Legible, Subject;
    CollisionFreeIdentities(o);
    LivesAreSound(o, life);
    ClassifyAgreesWithEngine(o, s, query, tick);
  }

  lemma CollisionFreeIdentities(o: Oracles)
    requires CollisionFree(o)
    ensures DistinctIdentities(o)
  {
  }

  // ---- replay -------------------------------------------------------------

  /** One submission, with the clock readings it makes. */
  datatype Attempt = Attempt(envelope: SessionEnvelope, payload: EvidencePayload, tick: Tick, later: Tick, wall: nat)

  function SubmitCall(x: Attempt): Call {
    Call(OpSubmitEvidence(x.envelope, x.payload), x.tick, x.later, x.wall)
  }

  /** The submission is accepted in this state under this number. */
  ghost predicate AcceptedAs(o: Oracles, s: State, x: Attempt, number: nat) {
    var r := SubmitEvidence(o, s, x.envelope, x.payload, x.tick, x.later, x.wall).1;
    r.Ok? && r.value.record.acceptedSeq == number
  }

  lemma PublishReport(o: Oracles, s: State, env: SessionEnvelope, p: EvidencePayload, flow: FlowRegistration, tick: Tick,
                      later: Tick, wall: nat)
    requires env.publisher in s.publishers.live && Publish(o, s, env, p, flow, tick, later, wall).1.Ok?
    ensures var (t, r) := Publish(o, s, env, p, flow, tick, later, wall);
            && t.publishers == P.Touched(s.publishers, env.publisher, env.publisherBoot, later, wall).0
            && t.sequence == s.sequence + 1
            && r.value.record == Mint(o, s, env, p, flow.record, s.sequence + 1, tick)
  {
    hide Displace, E.Inserted, P.Touched, E.FlowRecords, Mint;
  }

  /** An accepted submission consumes its generation and the next sequence number. */
  lemma AcceptedConsumes(o: Oracles, s: State, env: SessionEnvelope, p: EvidencePayload, tick: Tick, later: Tick, wall: nat)
    requires Inv(o, s) && SubmitEvidence(o, s, env, p, tick, later, wall).1.Ok?
    ensures var (t, r) := SubmitEvidence(o, s, env, p, tick, later, wall);
            && P.Used(t.publishers, env.publisher, env.publisherBoot, p.evidenceGeneration)
            && r.value.record.acceptedSeq == s.sequence + 1 == t.sequence
  {
    hide Inv, Publish, Fence, F.Registered, AdmissionFault, P.Observed, P.Touched, P.RegistryInvariant, P.Used,
         P.Forward, E.IndexInvariant, TopicInvariant, RecordsInvariant, Numbered, P.LiveIncarnations;
    PartsOf(o, s);
    var (s1, flow) := RegisterFlow(o, s, p.flowKey, p.flowGeneration, env.session, tick);
    var q := P.Observed(s1.publishers, env.publisher, env.publisherBoot, p.evidenceGeneration).0;
    P.ObservedIsFresh(s1.publishers, env.publisher, env.publisherBoot, p.evidenceGeneration);
    PublishReport(o, s1.(publishers := q), env, p, flow.value, tick, later, wall);
    P.TouchedKeepsInvariant(q, env.publisher, env.publisherBoot, later, wall);
    P.ForwardKeepsUsed(q, P.Touched(q, env.publisher, env.publisherBoot, later, wall).0, env.publisher, env.publisherBoot,
                       p.evidenceGeneration);
  }

  lemma SubmitState(o: Oracles, a: Life, s: State, x: Attempt)
    requires Lived(o, a, s)
    ensures StateOf(o, Step(a, SubmitCall(x))) == SubmitEvidence(o, s, x.envelope, x.payload, x.tick, x.later, x.wall).0
  {
    hide SubmitEvidence, Valid, Classify;
  }

  /** What an accepted submission leaves behind for the rest of the life. */
  lemma AcceptedLeaves(o: Oracles, a: Life, s: State, x: Attempt, m: nat, b: Life, t: State)
    requires DistinctIdentities(o) && Lived(o, a, s) && AcceptedAs(o, s, x, m) && Lived(o, b, t)
             && After(Step(a, SubmitCall(x)), b)
    ensures Inv(o, t) && m <= t.sequence
    ensures P.Used(t.publishers, x.envelope.publisher, x.envelope.publisherBoot, x.payload.evidenceGeneration)
  {
    hide Inv, StateOf, Valid, SubmitEvidence, DistinctIdentities, MemoBacked, P.Used, P.Forward;
    var mid := StateOf(o, Step(a, SubmitCall(x)));
    LivesMoveForward(o, Step(a, SubmitCall(x)), b);
    LivesAreSound(o, a);
    LivesAreSound(o, b);
    SubmitState(o, a, s, x);
    AcceptedConsumes(o, s, x.envelope, x.payload, x.tick, x.later, x.wall);
    StillUsed(mid, t, x.envelope.publisher, x.envelope.publisherBoot, x.payload.evidenceGeneration);
  }

  /**
   * Accepted evidence generations strictly increase per publisher and boot, over every life
   * and across restarts.
   */
  lemma AcceptedGenerationsIncrease(o: Oracles, a: Life, s: State, x: Attempt, m: nat, b: Life, t: State, y: Attempt, n: nat)
    requires DistinctIdentities(o) && Lived(o, a, s) && AcceptedAs(o, s, x, m) && Lived(o, b, t) && AcceptedAs(o, t, y, n)
    requires After(Step(a, SubmitCall(x)), b)
    requires x.envelope.publisher == y.envelope.publisher && x.envelope.publisherBoot == y.envelope.publisherBoot
    ensures x.payload.evidenceGeneration < y.payload.evidenceGeneration
  {
    hide Inv, StateOf, Valid, SubmitEvidence, DistinctIdentities, P.Used, After;
    AcceptedLeaves(o, a, s, x, m, b, t);
    var gen := x.payload.evidenceGeneration;
    if y.payload.evidenceGeneration <= gen {
      UsedBelow(t.publishers, x.envelope.publisher, x.envelope.publisherBoot, gen, y.payload.evidenceGeneration);
      UsedGenerationRefused(o, t, y.envelope, y.payload, y.tick, y.later, y.wall);
    }
  }

  /** No acceptance number is ever given twice, by any publisher, across restarts. */
  lemma AcceptedNumbersIncrease(o: Oracles, a: Life, s: State, x: Attempt, m: nat, b: Life, t: State, y: Attempt, n: nat)
    requires DistinctIdentities(o) && Lived(o, a, s) && AcceptedAs(o, s, x, m) && Lived(o, b, t) && AcceptedAs(o, t, y, n)
    requires After(Step(a, SubmitCall(x)), b)
    ensures m < n
  {
    hide Inv, StateOf, Valid, SubmitEvidence, DistinctIdentities, P.Used, After;
    AcceptedLeaves(o, a, s, x, m, b, t);
    AcceptedConsumes(o, t, y.envelope, y.payload, y.tick, y.later, y.wall);
  }

  lemma StillUsed(s: State, t: State, id: string, boot: nat, generation: nat)
    requires DurableForward(s, t) && P.Used(s.publishers, id, boot, generation)
    ensures P.Used(t.publishers, id, boot, generation)
  {
    P.ForwardKeepsUsed(s.publishers, t.publishers, id, boot, generation);
  }

  lemma UsedBelow(p: P.Publishers, id: string, boot: nat, generation: nat, lower: nat)
    requires P.Used(p, id, boot, generation) && lower <= generation
    ensures P.Used(p, id, boot, lower)
  {
  }

  // ---- after a restart ----------------------------------------------------

  /** Every operation that takes an envelope refuses this one and changes nothing. */
  ghost predicate RefusesEnvelope(o: Oracles, t: State, x: Attempt, id: string, flow: FlowId, generation: nat, reason: string) {
    && SubmitEvidence(o, t, x.envelope, x.payload, x.tick, x.later, x.wall) == (t, Err(StaleEpoch))
    && WithdrawEvidence(o, t, x.envelope, id, reason, x.tick) == (t, Err(StaleEpoch))
    && RevokeGeneration(o, t, x.envelope, flow, generation, reason, x.tick) == (t, Err(StaleEpoch))
  }

  /** The submission reuses a generation its publisher has used under its boot. */
  ghost predicate Reuses(s: State, x: Attempt) {
    P.Used(s.publishers, x.envelope.publisher, x.envelope.publisherBoot, x.payload.evidenceGeneration)
  }

  /** The state a restart begins in, and what it keeps of the one whose image it read. */
  lemma RestartCarries(o: Oracles, a: Life, s: State, policy: ClassifierPolicy, image: DurableState, boot: nat, tick: Tick,
                       r: Life, b: Life, t: State)
    requires DistinctIdentities(o) && Lived(o, a, s) && Lived(o, b, t) && After(r, b)
    requires r == Reboot(a, policy, image, boot, tick)
    ensures Inv(o, t) && s.epoch < t.epoch && P.Forward(s.publishers, t.publishers)
  {
    hide Inv, Start, ImageOf, Apply, DistinctIdentities, MemoBacked, RestartedFrom, DurableForward,
         Policy.Canonicalized;
    LivesMoveForward(o, r, b);
    LivesAreSound(o, a);
    LivesAreSound(o, b);
    RestartIsSafe(o, s, policy, image, boot, tick);
    var m := StateOf(o, r);
    RestartedMarks(s, m, t);
    RestartedDurably(s, m);
    DurableForwardTransitive(s, m, t);
    ForwardPublishers(s, t);
  }

  lemma ForwardPublishers(s: State, t: State)
    requires DurableForward(s, t)
    ensures P.Forward(s.publishers, t.publishers)
  {
  }

  /**
   * From a restart on, every envelope issued before it is refused by every operation that
   * takes one, and every generation used before it is refused under any session.
   */
  lemma NothingReturnsAfterRestart(o: Oracles, a: Life, s: State, policy: ClassifierPolicy, image: DurableState, boot: nat,
                                   tick: Tick, b: Life, t: State, x: Attempt, id: string, flow: FlowId, generation: nat,
                                   reason: string)
    requires DistinctIdentities(o) && Lived(o, a, s) && Lived(o, b, t) && After(Reboot(a, policy, image, boot, tick), b)
    ensures x.envelope.epoch <= s.epoch ==> RefusesEnvelope(o, t, x, id, flow, generation, reason)
    ensures Reuses(s, x) ==> SubmitEvidence(o, t, x.envelope, x.payload, x.tick, x.later, x.wall).1.Err?
  {
    hide Inv, StateOf, Valid, After, SubmitEvidence, WithdrawEvidence, RevokeGeneration, DistinctIdentities, P.Used,
         P.Forward;
    RestartCarries(o, a, s, policy, image, boot, tick, Reboot(a, policy, image, boot, tick), b, t);
    if x.envelope.epoch <= s.epoch {
      EarlierEnvelopeRefused(o, t, x.envelope, x.payload, id, flow, generation, reason, x.tick, x.later, x.wall);
    }
    if Reuses(s, x) {
      P.ForwardKeepsUsed(s.publishers, t.publishers, x.envelope.publisher, x.envelope.publisherBoot,
                         x.payload.evidenceGeneration);
      UsedGenerationRefused(o, t, x.envelope, x.payload, x.tick, x.later, x.wall);
    }
  }

  lemma RestartedMarks(s: State, m: State, t: State)
    requires RestartedFrom(s, m) && DurableForward(m, t)
    ensures s.epoch < t.epoch && s.sequence < t.sequence
  {
    hide OnlyOldRecords, AllBefore, P.LiveIncarnations;
  }

  // ---- what CURRENT means in every state ----------------------------------

  ghost predicate StoredCurrent(s: State, id: string) {
    id in s.evidence.byId && s.evidence.byId[id].state == EvidenceCurrent
  }

  /** The record is grounded and carries the current generation of every registered flow it names. */
  ghost predicate GroundedRecord(o: Oracles, s: State, id: string) {
    && id in s.evidence.byId
    && var r := s.evidence.byId[id];
       && Grounded(s, r)
       && forall key | key in s.flows.current && o.flowId(key) == r.flowId :: s.flows.current[key].generation ==
           r.flowGeneration
  }

  /**
   * A stored CURRENT record is of this epoch, its publisher is live or has moved to a later
   * boot, and it carries the current generation of its flow.
   */
  lemma CurrentRecordsAreGrounded(o: Oracles, life: Life, s: State, id: string)
    requires DistinctIdentities(o) && Lived(o, life, s) && StoredCurrent(s, id)
    ensures GroundedRecord(o, s, id)
  {
    hide StateOf, Valid, MemoBacked, Inv, DistinctIdentities, Grounded;
    LivesAreSound(o, life);
    DistinctParts(o);
    GroundedHere(o, s, id);
    forall key | key in s.flows.current && o.flowId(key) == s.evidence.byId[id].flowId
      ensures s.flows.current[key].generation == s.evidence.byId[id].flowGeneration
    {
      OneIncarnation(o, s, id, key);
    }
  }

  lemma GroundedHere(o: Oracles, s: State, id: string)
    requires Inv(o, s) && id in s.evidence.byId && s.evidence.byId[id].state == EvidenceCurrent
    ensures Grounded(s, s.evidence.byId[id])
  {
    assert RecordInvariant(o, s, s.evidence.byId[id]);
  }

  lemma OneIncarnation(o: Oracles, s: State, id: string, key: FlowKey)
    requires Inv(o, s) && DistinctFlowIds(o) && id in s.evidence.byId && Grounded(s, s.evidence.byId[id])
    requires key in s.flows.current && o.flowId(key) == s.evidence.byId[id].flowId
    ensures s.flows.current[key].generation == s.evidence.byId[id].flowGeneration
  {
    hide E.IndexInvariant, RecordsInvariant, TopicInvariant, Numbered, P.RegistryInvariant, Attended;
    var r := s.evidence.byId[id];
    var k :| k in s.flows.current && s.flows.current[k].id == r.flowId && s.flows.current[k].generation == r.flowGeneration;
    assert F.Fenced(o, s.flows, k) && F.Fenced(o, s.flows, key);
  }

  ghost predicate Reaches(e: E.Evidence, flow: FlowId, id: string) {
    flow in e.byFlow && id in e.byFlow[flow]
  }

  /** Both are stored, and if the first is CURRENT and of the same topic, the second is older and not. */
  ghost predicate LeadsTopic(e: E.Evidence, a: string, b: string) {
    && a in e.byId && b in e.byId
    && (SameTopic(e.byId[a], e.byId[b]) && e.byId[a].state == EvidenceCurrent ==>
          e.byId[b].generation < e.byId[a].generation && e.byId[b].state != EvidenceCurrent)
  }

  /**
   * Among the records a flow reaches, a CURRENT one has the highest generation of its publisher,
   * boot and topic, so at most one per topic is CURRENT.
   */
  lemma OneCurrentPerTopic(o: Oracles, life: Life, s: State, flow: FlowId, a: string, b: string)
    requires DistinctIdentities(o) && Lived(o, life, s)
    requires Reaches(s.evidence, flow, a) && Reaches(s.evidence, flow, b) && a != b
    ensures LeadsTopic(s.evidence, a, b)
  {
    hide StateOf, Valid, MemoBacked, Inv, DistinctIdentities, E.IndexInvariant, RecordsInvariant, P.RegistryInvariant,
         F.FlowInvariant, Numbered;
    LivesAreSound(o, life);
    PartsOf(o, s);
    ReachableId(s.evidence, flow, a);
    ReachableId(s.evidence, flow, b);
    assert Leads(s.evidence, a, b) && Leads(s.evidence, b, a);
  }
}
