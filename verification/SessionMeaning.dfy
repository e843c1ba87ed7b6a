/**
 * What opening, closing and losing a session does to a publisher and to its records, and that
 * a closed session stays closed until it is opened again.
 */
module SessionMeaning {
  import opened Domain
  import opened Sorting
  import opened DecisionMeaning
  import opened ClassifierState
  import opened ClassifierInvariant
  import opened ClassifierSteps
  import opened ClassifierPublication
  import opened ClassifierRuns
  import opened Restart
  import opened RestartSafety
  import opened StartConditions
  import opened RunTheorems
  import opened Sweeps
  import opened SubmissionMeaning
  import Policy
  import E = EvidenceStore
  import P = PublisherRegistry
  import W = WorkloadRegistry
  import F = FlowRegistry
  import D = ClassificationIndex

  /** The publisher's registration at this boot. */
  ghost predicate RegisteredAt(p: P.Publishers, id: string, boot: nat) {
    id in p.live && p.live[id].boot == boot
  }

  /** No publisher but this one is affected. */
  ghost predicate OnlyPublisher(p: P.Publishers, q: P.Publishers, id: string) {
    q.live - {id} == p.live - {id} && q.records - {id} == p.records - {id}
  }

  // ---- closing a session --------------------------------------------------

  /** The sessions that remain: none when all are closed, otherwise the others in their order. */
  function Remaining(sessions: seq<string>, session: string): seq<string> {
    if session == "" then [] else Filter((x: string) => x != session, sessions)
  }

  /** What closing does to the registration. */
  ghost predicate ClosedTo(before: PublisherRegistration, after: PublisherRegistration, session: string, tick: Tick) {
    var left := Remaining(before.liveSessions, session);
    && after.liveSessions == left
    && (left == [] ==> after.state == PublisherDead && after.lastSeenTick == tick)
    && (left != [] ==> after.state == before.state && after.lastSeenTick == before.lastSeenTick)
    && (before.session != session && session != "" ==> after.session == before.session)
    && (before.session == session || session == "" ==>
          after.session == if left == [] then "" else left[|left| - 1])
    && after == before.(liveSessions := after.liveSessions, state := after.state, lastSeenTick := after.lastSeenTick,
                        session := after.session)
  }

  /** Which records lose their standing with the session. */
  ghost predicate LosesSession(after: PublisherRegistration, id: string, boot: nat, session: string, r: EvidenceRecord) {
    && r.publisher == id && r.publisherBoot == boot
    && (after.liveSessions == [] || (session != "" && (r.session == "" || r.session == session)))
  }

  lemma EndedMeans(p: P.Publishers, id: string, boot: nat, session: string, tick: Tick)
    ensures var (q, r) := P.Ended(p, id, boot, session, tick);
            && (r.Ok? <==> RegisteredAt(p, id, boot))
            && (r.Err? ==> q == p)
            && (r.Ok? ==>
                  && id in q.live && ClosedTo(p.live[id], q.live[id], session, tick)
                  && q == p.(live := q.live) && OnlyPublisher(p, q, id))
  {
    hide Filter;
    if RegisteredAt(p, id, boot) && session != "" {
      FilterAgrees(P.NotSession(session), (x: string) => x != session, p.live[id].liveSessions);
    }
  }

  lemma LiveMeans(p: P.Publishers, id: string, boot: nat)
    ensures (id, boot) in P.LiveIncarnations(p) <==> RegisteredAt(p, id, boot) && p.live[id].state == PublisherLive
  {
  }

  /** What ending a session does: `t` and `r` are the state and the answer. */
  ghost predicate EndsSession(s: State, id: string, boot: nat, session: string, tick: Tick, t: State, r: Result<()>) {
    && (r.Ok? <==> RegisteredAt(s.publishers, id, boot))
    && (r.Err? ==> t == s)
    && (r.Ok? ==>
          && id in t.publishers.live
          && var before, after := s.publishers.live[id], t.publishers.live[id];
             && ClosedTo(before, after, session, tick)
             && OnlyPublisher(s.publishers, t.publishers, id) && t.publishers.records == s.publishers.records
             && ((id, boot) in P.LiveIncarnations(t.publishers)
                 <==> (id, boot) in P.LiveIncarnations(s.publishers) && after.liveSessions != [])
             && (session != "" ==> session !in after.liveSessions)
             && Staled(s.evidence, t.evidence, x => LosesSession(after, id, boot, session, x))
             && t == s.(publishers := t.publishers, evidence := t.evidence, authoritySequence := s.authoritySequence + 1))
  }

  lemma EndSessionStages(o: Oracles, s: State, id: string, boot: nat, session: string, tick: Tick)
    ensures var e := EndSession(o, s, id, boot, session, tick);
            var d := P.Ended(s.publishers, id, boot, session, tick);
            && (e.1.Ok? <==> d.1.Ok?)
            && e.0 == if d.1.Err? then s.(publishers := d.0)
                      else s.(publishers := d.0, evidence := Disowned(o, s.evidence, d.0, id, boot, session),
                              authoritySequence := s.authoritySequence + 1)
  {
    hide P.Ended, Disowned;
  }

  lemma SessionEnds(o: Oracles, s: State, id: string, boot: nat, session: string, tick: Tick)
    ensures var e := EndSession(o, s, id, boot, session, tick);
            EndsSession(s, id, boot, session, tick, e.0, e.1)
  {
    hide P.Ended, EndSession, Disowned, P.LiveIncarnations, Filter, Staled;
    EndedMeans(s.publishers, id, boot, session, tick);
    EndSessionStages(o, s, id, boot, session, tick);
    var e := EndSession(o, s, id, boot, session, tick);
    LiveMeans(s.publishers, id, boot);
    LiveMeans(e.0.publishers, id, boot);
    if e.1.Ok? {
      FilterMembers((x: string) => x != session, s.publishers.live[id].liveSessions);
      DisownedMeans(o, s.evidence, e.0.publishers, id, boot, session);
    }
  }

  lemma DisownedMeans(o: Oracles, e: E.Evidence, p: P.Publishers, id: string, boot: nat, session: string)
    requires id in p.live
    ensures Staled(e, Disowned(o, e, p, id, boot, session), x => LosesSession(p.live[id], id, boot, session, x))
  {
    hide E.MarkStale, Staled;
    var lost := x => LosesSession(p.live[id], id, boot, session, x);
    if p.live[id].liveSessions == [] {
      MarkStaleMeans(e, OfIncarnation(id, boot), o.render(IncarnationEnded(id, boot)));
      StaledAlike(e, Disowned(o, e, p, id, boot, session), OfIncarnation(id, boot), lost);
    } else if session != "" {
      MarkStaleMeans(e, OfSession(id, boot, session), o.render(SessionEnded(session, id, boot)));
      StaledAlike(e, Disowned(o, e, p, id, boot, session), OfSession(id, boot, session), lost);
    } else {
      StaledNone(e, lost);
    }
  }

  // ---- opening a session --------------------------------------------------

  /** A known publisher may not come back with an earlier boot; an unknown one needs room. */
  ghost predicate MayOpen(p: P.Publishers, h: Hello) {
    && h.boot != 0
    && if h.id in p.records then h.boot >= p.records[h.id].highestBoot else |p.records| < p.maxPublishers
  }

  /** What opening leaves as the registration. */
  ghost predicate OpenedTo(s: State, h: Hello, tick: Tick, reg: PublisherRegistration) {
    && reg.id == h.id && reg.boot == h.boot && reg.session == h.session && reg.state == PublisherLive
    && reg.lastSeenTick == tick && reg.registeredEpoch == s.epoch && reg.registeredBoot == s.boot
    && (if RegisteredAt(s.publishers, h.id, h.boot) then
          var was := s.publishers.live[h.id];
          && reg.highestGeneration == was.highestGeneration
          && reg.liveSessions == was.liveSessions + (if h.session in was.liveSessions then [] else [h.session])
        else
          reg.highestGeneration == 0 && reg.liveSessions == [h.session])
    && reg.maxSource == if h.id in s.publishers.live then s.publishers.live[h.id].maxSource else h.maxSource
  }

  /** What opening leaves on record: the highest boot, its generations afresh, the highest source ever bound. */
  ghost predicate RecordedAs(p: P.Publishers, h: Hello, r: PublisherRecord) {
    && r.id == h.id && r.highestBoot == h.boot
    && if h.id in p.records then
         var was := p.records[h.id];
         && r.highestGeneration == (if h.boot == was.highestBoot then was.highestGeneration else 0)
         && r.maxSource == (if StandsHigher(h.maxSource, was.maxSource) then h.maxSource else was.maxSource)
       else
         r.highestGeneration == 0 && r.maxSource == h.maxSource
  }

  ghost predicate OpensSession(s: State, h: Hello, tick: Tick, t: State, r: Result<PublisherRegistration>) {
    && (r.Ok? <==> MayOpen(s.publishers, h))
    && (r.Err? ==> t == s)
    && (r.Ok? ==>
          && h.id in t.publishers.live && r.value == t.publishers.live[h.id] && OpenedTo(s, h, tick, r.value)
          && h.id in t.publishers.records && RecordedAs(s.publishers, h, t.publishers.records[h.id])
          && OnlyPublisher(s.publishers, t.publishers, h.id)
          && (h.id, h.boot) in P.LiveIncarnations(t.publishers)
          && t == s.(publishers := t.publishers, authoritySequence := s.authoritySequence + 1))
  }

  lemma BoundMeans(p: P.Publishers, b: P.Binding)
    requires P.RegistryInvariant(p)
    ensures P.Bound(p, b).1.Ok? <==>
              b.boot != 0 && if b.id in p.records then b.boot >= p.records[b.id].highestBoot else |p.records| < p.maxPublishers
    ensures P.Bound(p, b).1.Ok? ==> b.id in P.Bound(p, b).0.live && P.Bound(p, b).1.value == P.Bound(p, b).0.live[b.id]
  {
    hide P.NewRecord, P.RenewedRecord, P.NewRegistration, P.RenewedRegistration;
    P.KeysFit(p);
  }

  lemma RenewedOpens(s: State, h: Hello, tick: Tick, wall: nat)
    requires P.RegistryInvariant(s.publishers) && h.id in s.publishers.live
    requires h.boot >= s.publishers.records[h.id].highestBoot
    ensures OpenedTo(s, h, tick, P.RenewedRegistration(s.publishers.live[h.id], BindingOf(s, h, tick, wall)))
    ensures RecordedAs(s.publishers, h, P.RenewedRecord(s.publishers.records[h.id], BindingOf(s, h, tick, wall)))
  {
  }

  lemma NewOpens(s: State, h: Hello, tick: Tick, wall: nat)
    requires h.id !in s.publishers.live && h.id !in s.publishers.records
    ensures OpenedTo(s, h, tick, P.NewRegistration(BindingOf(s, h, tick, wall)))
    ensures RecordedAs(s.publishers, h, P.NewRecord(BindingOf(s, h, tick, wall)))
  {
  }

  lemma OnlyOne(p: P.Publishers, id: string, x: PublisherRegistration, r: PublisherRecord)
    ensures OnlyPublisher(p, p.(live := p.live[id := x], records := p.records[id := r]), id)
  {
  }

  lemma BoundOpens(s: State, h: Hello, tick: Tick, wall: nat)
    requires P.RegistryInvariant(s.publishers) && P.Bound(s.publishers, BindingOf(s, h, tick, wall)).1.Ok?
    ensures var q := P.Bound(s.publishers, BindingOf(s, h, tick, wall)).0;
            h.id in q.live && OpenedTo(s, h, tick, q.live[h.id]) && OnlyPublisher(s.publishers, q, h.id)
    ensures var q := P.Bound(s.publishers, BindingOf(s, h, tick, wall)).0;
            h.id in q.records && RecordedAs(s.publishers, h, q.records[h.id])
  {
    hide P.Bound, OpenedTo, RecordedAs, OnlyPublisher, P.RenewedRegistration, P.RenewedRecord, P.NewRegistration,
         P.NewRecord;
    var p, b := s.publishers, BindingOf(s, h, tick, wall);
    P.BoundCases(p, b);
    if h.id in p.records {
      RenewedOpens(s, h, tick, wall);
      OnlyOne(p, h.id, P.RenewedRegistration(p.live[h.id], b), P.RenewedRecord(p.records[h.id], b));
    } else {
      NewOpens(s, h, tick, wall);
      OnlyOne(p, h.id, P.NewRegistration(b), P.NewRecord(b));
    }
  }

  lemma SessionOpens(o: Oracles, s: State, h: Hello, tick: Tick, wall: nat)
    requires P.RegistryInvariant(s.publishers)
    ensures var e := RegisterPublisher(s, h, tick, wall);
            OpensSession(s, h, tick, e.0, e.1)
  {
    hide P.Bound, P.LiveIncarnations, OnlyPublisher, P.RegistryInvariant;
    var b := BindingOf(s, h, tick, wall);
    BoundMeans(s.publishers, b);
    if P.Bound(s.publishers, b).1.Ok? {
      BoundOpens(s, h, tick, wall);
      LiveMeans(P.Bound(s.publishers, b).0, h.id, h.boot);
    } else {
      P.BoundCases(s.publishers, b);
    }
  }

  // ---- contact and silence ------------------------------------------------

  /** Contact brings back a publisher that fell silent, and never one whose last session was closed. */
  ghost predicate MakesContact(s: State, id: string, boot: nat, tick: Tick, t: State, r: Result<()>) {
    && (r.Ok? <==> RegisteredAt(s.publishers, id, boot))
    && (r.Err? ==> t == s)
    && (r.Ok? ==>
          && id in t.publishers.live
          && var before, after := s.publishers.live[id], t.publishers.live[id];
             && after == before.(lastSeenTick := tick, state := after.state)
             && after.state == (if before.state == PublisherDead then PublisherDead else PublisherLive)
             && OnlyPublisher(s.publishers, t.publishers, id)
             && t == s.(publishers := t.publishers, authoritySequence := s.authoritySequence + 1))
  }

  lemma ContactMeans(s: State, id: string, boot: nat, tick: Tick, wall: nat)
    ensures var e := Heartbeat(s, id, boot, tick, wall);
            MakesContact(s, id, boot, tick, e.0, e.1)
  {
  }

  /** Silent for more ticks than allowed. */
  predicate Silent(p: P.Publishers, r: PublisherRegistration, tick: Tick) {
    tick > r.lastSeenTick + p.idleTicks
  }

  /** Live, with a session. */
  ghost predicate AttendedBy(p: P.Publishers, r: EvidenceRecord) {
    RegisteredAt(p, r.publisher, r.publisherBoot) && p.live[r.publisher].state == PublisherLive
    && p.live[r.publisher].liveSessions != []
  }

  /** Exactly the live publishers silent for too long fall idle, and their records go stale. */
  ghost predicate ExpiresSilent(s: State, tick: Tick, t: State) {
    && t.publishers == s.publishers.(live := t.publishers.live) && t.publishers.live.Keys == s.publishers.live.Keys
    && (forall id | id in s.publishers.live ::
          var r := s.publishers.live[id];
          t.publishers.live[id] == if r.state == PublisherLive && Silent(s.publishers, r, tick) then r.(state := PublisherIdle)
                                   else r)
    && (forall id, boot :: (id, boot) in P.LiveIncarnations(t.publishers) <==>
          (id, boot) in P.LiveIncarnations(s.publishers) && !Silent(s.publishers, s.publishers.live[id], tick))
    && if t.publishers == s.publishers then t == s
       else
         && Staled(s.evidence, t.evidence, x => !AttendedBy(t.publishers, x))
         && t == s.(publishers := t.publishers, evidence := t.evidence, authoritySequence := s.authoritySequence + 1)
  }

  lemma SilenceMeans(o: Oracles, s: State, tick: Tick)
    ensures ExpiresSilent(s, tick, ExpireLiveness(o, s, tick))
  {
    hide E.MarkStale, Staled;
    var p := P.Expire(s.publishers, tick);
    if P.ExpiredIds(s.publishers, tick) == {} {
      assert p.live == s.publishers.live by {
        forall id | id in s.publishers.live
          ensures !P.IdleTooLong(s.publishers.live[id], s.publishers.idleTicks, tick)
        {
          assert id !in P.ExpiredIds(s.publishers, tick);
        }
      }
    } else {
      var id :| id in P.ExpiredIds(s.publishers, tick);
      assert p.live[id].state == PublisherIdle;
      MarkStaleMeans(s.evidence, Unattended(p), o.render(LivenessLost));
      StaledAlike(s.evidence, ExpireLiveness(o, s, tick).evidence, Unattended(p), x => !AttendedBy(p, x));
    }
  }

  // ---- a closed session stays closed --------------------------------------

  /** The session, or every session when it is empty, is closed at that boot. */
  ghost predicate Shut(p: P.Publishers, id: string, boot: nat, session: string) {
    && id in p.live && p.live[id].boot >= boot
    && (p.live[id].boot == boot ==>
          if session == "" then p.live[id].liveSessions == []
          else session !in p.live[id].liveSessions && p.live[id].session != session)
  }

  /** The call opens the session, or any when it is empty. */
  predicate Reopens(c: Call, id: string, session: string) {
    c.op.OpRegisterPublisher? && c.op.hello.id == id && (session == "" || c.op.hello.session == session)
  }

  lemma EndedIsShut(s: State, id: string, boot: nat, session: string, tick: Tick, t: State, r: Result<()>)
    requires EndsSession(s, id, boot, session, tick, t, r) && r.Ok?
    ensures Shut(t.publishers, id, boot, session)
  {
    hide Filter, Staled, P.LiveIncarnations, OnlyPublisher;
    FilterMembers((x: string) => x != session, s.publishers.live[id].liveSessions);
    var left := Remaining(s.publishers.live[id].liveSessions, session);
    if left != [] {
      assert left[|left| - 1] in left;
    }
  }

  /** Nobody's sessions have changed, other than that the current one may have been dropped. */
  ghost predicate SessionsKept(p: P.Publishers, q: P.Publishers) {
    forall id | id in p.live ::
      && id in q.live && q.live[id].boot == p.live[id].boot && q.live[id].liveSessions == p.live[id].liveSessions
      && q.live[id].session in {p.live[id].session, ""}
  }

  lemma KeptIsShut(p: P.Publishers, q: P.Publishers, id: string, boot: nat, session: string)
    requires SessionsKept(p, q) && Shut(p, id, boot, session)
    ensures Shut(q, id, boot, session)
  {
  }

  lemma PublisherStepsKeep(p: P.Publishers, id: string, boot: nat, generation: nat, tick: Tick, wall: nat)
    ensures SessionsKept(p, P.Touched(p, id, boot, tick, wall).0)
    ensures SessionsKept(p, P.Observed(p, id, boot, generation).0)
    ensures SessionsKept(p, P.Expire(p, tick)) && SessionsKept(p, P.ClearedSessions(p))
  {
    hide P.IdleTooLong;
  }

  lemma KeptTwice(p: P.Publishers, q: P.Publishers, r: P.Publishers)
    requires SessionsKept(p, q) && SessionsKept(q, r)
    ensures SessionsKept(p, r)
  {
  }

  lemma PublishPublishers(o: Oracles, s: State, env: SessionEnvelope, p: EvidencePayload, flow: FlowRegistration, tick: Tick,
                          later: Tick, wall: nat)
    requires env.publisher in s.publishers.live
    ensures var t := Publish(o, s, env, p, flow, tick, later, wall).0;
            || t.publishers == s.publishers
            || t.publishers == P.Touched(s.publishers, env.publisher, env.publisherBoot, later, wall).0
  {
    hide Displace, E.Inserted, P.Touched, E.FlowRecords, Mint;
  }

  lemma SubmitKeepsSessions(o: Oracles, s: State, env: SessionEnvelope, p: EvidencePayload, tick: Tick, later: Tick, wall: nat)
    ensures SessionsKept(s.publishers, SubmitEvidence(o, s, env, p, tick, later, wall).0.publishers)
  {
    hide SubmitEvidence, Publish, RegisterFlow, P.Observed, P.Touched, SessionsKept;
    KeptSelf(s.publishers);
    SubmitCases(o, s, env, p, tick, later, wall);
    RegisterFlowKeepsPublishers(o, s, p.flowKey, p.flowGeneration, env.session, tick);
    var (s1, flow) := RegisterFlow(o, s, p.flowKey, p.flowGeneration, env.session, tick);
    var s2 := Observing(s1, env.publisher, env.publisherBoot, p.evidenceGeneration);
    PublisherStepsKeep(s1.publishers, env.publisher, env.publisherBoot, p.evidenceGeneration, 0, 0);
    PublisherStepsKeep(s2.publishers, env.publisher, env.publisherBoot, 0, later, wall);
    KeptTwice(s.publishers, s2.publishers, P.Touched(s2.publishers, env.publisher, env.publisherBoot, later, wall).0);
    if flow.Ok? && env.publisher in s2.publishers.live {
      PublishPublishers(o, s2, env, p, flow.value, tick, later, wall);
    }
  }

  lemma KeptSelf(p: P.Publishers)
    ensures SessionsKept(p, p)
  {
  }

  lemma BoundKeepsShut(p: P.Publishers, b: P.Binding, id: string, boot: nat, session: string)
    requires P.RegistryInvariant(p) && Shut(p, id, boot, session)
    requires !(b.id == id && (session == "" || b.session == session))
    ensures Shut(P.Bound(p, b).0, id, boot, session)
  {
    P.BoundCases(p, b);
  }

  lemma OthersStay(p: P.Publishers, q: P.Publishers, k: string, id: string)
    requires OnlyPublisher(p, q, k) && id != k && id in p.live
    ensures id in q.live && q.live[id] == p.live[id]
  {
    assert id in p.live - {k};
    assert id in q.live - {k};
  }

  lemma EndedKeepsShut(p: P.Publishers, k: string, bt: nat, other: string, tick: Tick, id: string, boot: nat, session: string)
    requires Shut(p, id, boot, session)
    ensures Shut(P.Ended(p, k, bt, other, tick).0, id, boot, session)
  {
    hide Filter, P.Ended;
    EndedMeans(p, k, bt, other, tick);
    var q := P.Ended(p, k, bt, other, tick).0;
    if RegisteredAt(p, k, bt) {
      var left := Remaining(p.live[k].liveSessions, other);
      FilterMembers((x: string) => x != other, p.live[k].liveSessions);
      if left != [] {
        assert left[|left| - 1] in left;
      }
      if k != id {
        OthersStay(p, q, k, id);
      }
    }
  }

  lemma OthersKeepPublishers(o: Oracles, s: State, c: Call)
    requires !c.op.OpAdvanceEpoch? && !c.op.OpRegisterPublisher? && !c.op.OpEndSession? && !c.op.OpHeartbeat?
    requires !c.op.OpExpireLiveness? && !c.op.OpSubmitEvidence? && !c.op.OpClassify?
    ensures Apply(o, s, c).publishers == s.publishers
  {
    hide AdvanceEpoch, RegisterPublisher, EndSession, Heartbeat, ExpireLiveness, SubmitEvidence, Classify, W.Declared,
         W.Proposed, W.Activated, W.ContractRetirement, W.WorkloadRetirement, W.RetiredByDeclaring,
         W.RetiredByActivating, F.Registered, Fence, Policy.Canonicalized, F.HasGeneration, E.WithState, E.MarkStale,
         StaleContracts;
  }

  lemma ClassifyKeepsPublishers(o: Oracles, s: State, query: Query, tick: Tick)
    ensures Classify(o, s, query, tick).0.publishers == s.publishers
  {
    hide Question, D.Recorded, D.MemoStored, KeyOf, F.HasGeneration;
  }

  lemma AdvanceKeepsSessions(o: Oracles, s: State, boot: nat)
    ensures SessionsKept(s.publishers, AdvanceEpoch(o, s, boot).0.publishers)
  {
    hide P.ClearedSessions, E.MarkEpochStale, SessionsKept;
    KeptSelf(s.publishers);
    PublisherStepsKeep(s.publishers, "", 0, 0, 0, 0);
  }

  /** No operation but opening it again reopens a closed session. */
  lemma ApplyKeepsShut(o: Oracles, s: State, c: Call, id: string, boot: nat, session: string)
    requires P.RegistryInvariant(s.publishers) && Shut(s.publishers, id, boot, session) && !Reopens(c, id, session)
    ensures Shut(Apply(o, s, c).publishers, id, boot, session)
  {
    hide Shut, SessionsKept, AdvanceEpoch, SubmitEvidence, Classify, SetPolicy, DeclareWorkload, ProposeContract,
         ActivateContract, RetireContract, RetireWorkload, RegisterFlow, WithdrawEvidence, RevokeGeneration, P.Bound,
         P.Ended, P.Touched, P.Expire, P.ExpiredIds, Disowned, E.MarkStale, P.RegistryInvariant;
    var p := s.publishers;
    match c.op
    case OpAdvanceEpoch(b) =>
      AdvanceKeepsSessions(o, s, b);
      KeptIsShut(p, Apply(o, s, c).publishers, id, boot, session);
    case OpRegisterPublisher(h) =>
      BoundKeepsShut(p, BindingOf(s, h, c.tick, c.wall), id, boot, session);
    case OpEndSession(k, b, other) =>
      EndedKeepsShut(p, k, b, other, c.tick, id, boot, session);
    case OpHeartbeat(k, b) =>
      PublisherStepsKeep(p, k, b, 0, c.tick, c.wall);
      KeptIsShut(p, Apply(o, s, c).publishers, id, boot, session);
    case OpExpireLiveness =>
      PublisherStepsKeep(p, "", 0, 0, c.tick, 0);
      KeptIsShut(p, Apply(o, s, c).publishers, id, boot, session);
    case OpSubmitEvidence(env, payload) =>
      SubmitKeepsSessions(o, s, env, payload, c.tick, c.later, c.wall);
      KeptIsShut(p, Apply(o, s, c).publishers, id, boot, session);
    case OpClassify(query) => ClassifyKeepsPublishers(o, s, query, c.tick);
    case _ => OthersKeepPublishers(o, s, c);
  }

  ghost predicate NoSessions(p: P.Publishers) {
    forall id | id in p.live :: p.live[id].liveSessions == [] && p.live[id].session == ""
  }

  lemma {:induction false} RestoredHaveNone(p: P.Publishers, rs: seq<PublisherRecord>, tick: Tick)
    requires NoSessions(p)
    ensures NoSessions(P.RestoredRecords(p, rs, tick).0)
    decreases |rs|
  {
    if rs != [] {
      RestoredHaveNone(P.RestoredRecord(p, rs[0], tick).0, rs[1..], tick);
    }
  }

  lemma ClearedHaveNone(p: P.Publishers)
    requires NoSessions(p)
    ensures NoSessions(P.ClearedSessions(p))
  {
  }

  lemma StartHasNoSessions(o: Oracles, policy: ClassifierPolicy, img: DurableState, boot: nat, tick: Tick)
    requires Start(o, policy, img, boot, tick).1.Ok?
    ensures NoSessions(Start(o, policy, img, boot, tick).0.publishers)
  {
    hide Restore, SetPolicy, P.ClearedSessions, P.RestoredRecords, RestoreAll, RestoreDecisions, NoSessions,
         E.MarkEpochStale;
    StartBegins(o, policy, img);
    var built := Initial(policy, 1, 1);
    var start := if img.policy.generation != 0 then SetPolicy(o, built, img.policy).0 else built;
    RestoreParts(o, start, img, boot, tick);
    assert NoSessions(start.publishers) by {
      NoneIsNoSessions(start.publishers);
    }
    RestoredHaveNone(start.publishers, img.publishers, tick);
    var p := P.RestoredRecords(start.publishers, img.publishers, tick).0;
    ClearedHaveNone(p);
    ClearedHaveNone(P.ClearedSessions(p));
  }

  lemma NoneIsNoSessions(p: P.Publishers)
    requires p.live == map[]
    ensures NoSessions(p)
  {
  }

  lemma RestartKeepsShut(o: Oracles, s: State, t: State, id: string, boot: nat, session: string)
    requires P.RegistryInvariant(s.publishers) && P.RegistryInvariant(t.publishers)
    requires P.Forward(s.publishers, t.publishers) && NoSessions(t.publishers) && Shut(s.publishers, id, boot, session)
    ensures Shut(t.publishers, id, boot, session)
  {
    assert id in s.publishers.records;
    assert id in t.publishers.live;
  }

  /** `b` continues `a`, and the session is not opened on the way. */
  predicate StaysClosed(a: Life, b: Life, id: string, session: string) {
    || a == b
    || (&& !b.Begin? && StaysClosed(a, b.before, id, session)
        && (b.Step? ==> !Reopens(b.call, id, session)))
  }

  lemma {:induction false} ShutForGood(o: Oracles, a: Life, s: State, b: Life, t: State, id: string, boot: nat, session: string)
    requires DistinctIdentities(o) && Lived(o, a, s) && Lived(o, b, t) && StaysClosed(a, b, id, session)
    requires Shut(s.publishers, id, boot, session)
    ensures Shut(t.publishers, id, boot, session)
    decreases b
  {
    hide Inv, Apply, Start, ImageOf, DistinctIdentities, MemoBacked, Shut, NoSessions, RestartedFrom,
         P.RegistryInvariant, P.Forward, Reopens, Policy.Canonicalized, F.FlowInvariant, W.ContractInvariant,
         E.IndexInvariant, D.MemoInvariant, RecordsInvariant, TopicInvariant, Numbered;
    if a != b {
      var m := StateOf(o, b.before);
      ShutForGood(o, a, s, b.before, m, id, boot, session);
      LivesAreSound(o, b.before);
      PartsOf(o, m);
      if b.Step? {
        ApplyKeepsShut(o, m, b.call, id, boot, session);
      } else {
        LivesAreSound(o, b);
        PartsOf(o, t);
        RestartIsSafe(o, m, b.policy, b.image, b.boot, b.tick);
        RestartedDurably(m, t);
        ForwardPublishers(m, t);
        StartHasNoSessions(o, b.policy, b.image, b.boot, b.tick);
        RestartKeepsShut(o, m, t, id, boot, session);
      }
    }
  }

  /**
   * Once a session was ended, every submission through it is refused and changes nothing, at
   * every later point of the life, restarts included, until that session is opened again; after
   * all sessions were ended, every submission of that incarnation is, until one is opened.
   */
  lemma EndedSessionIsRefused(o: Oracles, a: Life, s: State, id: string, boot: nat, session: string, tick: Tick, later: Tick,
                              wall: nat, b: Life, t: State, x: Attempt)
    requires DistinctIdentities(o) && Lived(o, a, s) && RegisteredAt(s.publishers, id, boot)
    requires Clock(a) <= tick <= later
    requires StaysClosed(Step(a, Call(OpEndSession(id, boot, session), tick, later, wall)), b, id, session) && Lived(o, b, t)
    requires x.envelope.publisher == id && x.envelope.publisherBoot == boot
    requires session == "" || x.envelope.session == session
    ensures Refuses(o, t, x)
  {
    hide Lived, EndSession, DistinctIdentities, EndsSession, StaysClosed, SubmitEvidence, Admissible, Refuses,
         SetPolicy, Classify;
    var call := Call(OpEndSession(id, boot, session), tick, later, wall);
    var m := EndSession(o, s, id, boot, session, tick);
    SessionEnds(o, s, id, boot, session, tick);
    EndsWhenRegistered(s, id, boot, session, tick, m.0, m.1);
    EndedIsShut(s, id, boot, session, tick, m.0, m.1);
    LivedStep(o, a, s, call);
    ShutForGood(o, Step(a, call), m.0, b, t, id, boot, session);
    ShutIsRefused(o, t, x, id, boot, session);
  }

  /** The submission is refused and changes nothing. */
  ghost predicate Refuses(o: Oracles, t: State, x: Attempt) {
    var e := SubmitEvidence(o, t, x.envelope, x.payload, x.tick, x.later, x.wall);
    e.0 == t && e.1.Err?
  }

  lemma EndsWhenRegistered(s: State, id: string, boot: nat, session: string, tick: Tick, t: State, r: Result<()>)
    requires EndsSession(s, id, boot, session, tick, t, r) && RegisteredAt(s.publishers, id, boot)
    ensures r.Ok?
  {
  }

  lemma ShutIsRefused(o: Oracles, t: State, x: Attempt, id: string, boot: nat, session: string)
    requires Shut(t.publishers, id, boot, session)
    requires x.envelope.publisher == id && x.envelope.publisherBoot == boot
    requires session == "" || x.envelope.session == session
    ensures Refuses(o, t, x)
  {
    hide SubmitEvidence, SourceUsable, Effective, WorkloadNamed, ContractNamed;
    InadmissibleIsRefused(o, t, x.envelope, x.payload, x.tick, x.later, x.wall);
  }
}
