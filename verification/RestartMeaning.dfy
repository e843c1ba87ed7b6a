/**
 * What a process holds after it has started from an image, table by table: everything the
 * image held, nobody attending, nothing CURRENT and nothing remembered of past answers.
 */
module RestartMeaning {
  import opened Domain
  import opened Sorting
  import opened ClassifierState
  import opened ClassifierInvariant
  import opened ClassifierSteps
  import opened Restart
  import opened RestartSafety
  import opened AuthorityMeaning
  import E = EvidenceStore
  import P = PublisherRegistry
  import D = ClassificationIndex

  // ---- what comes back ----------------------------------------------------

  ghost predicate TablesReturn(s: State, t: State) {
    && t.workloads.workloads == s.workloads.workloads && t.workloads.contracts == s.workloads.contracts
    && t.flows.current == s.flows.current && t.flows.history == map[]
  }

  /** Every record is back; those that were CURRENT are STALE. */
  ghost predicate RecordsReturn(s: E.Evidence, t: E.Evidence) {
    && t.byId.Keys == s.byId.Keys
    && forall id | id in s.byId ::
         if s.byId[id].state == EvidenceCurrent then
           t.byId[id] == s.byId[id].(state := EvidenceStale, stateReason := t.byId[id].stateReason)
         else
           t.byId[id] == s.byId[id]
  }

  /** A publisher is known by its boot and marks, and does not attend. */
  ghost predicate Dormant(r: PublisherRecord, x: PublisherRegistration) {
    && x.id == r.id && x.boot == r.highestBoot && x.highestGeneration == r.highestGeneration && x.maxSource == r.maxSource
    && x.description == r.description
    && x.state == PublisherIdle && x.session == "" && x.liveSessions == []
  }

  ghost predicate PublishersReturn(s: P.Publishers, t: P.Publishers, tick: Tick) {
    && t.records.Keys == s.records.Keys && t.live.Keys == s.records.Keys
    && forall id | id in s.records ::
         && t.records[id] == (if s.records[id].firstSeenTick == 0 then s.records[id].(firstSeenTick := tick) else s.records[id])
         && Dormant(s.records[id], t.live[id])
  }

  /** The youngest that fit, and at least the last one. */
  ghost predicate LastOf<T(!new)>(all: seq<T>, bound: nat, kept: seq<T>) {
    && Suffix(kept, all)
    && |kept| == if |all| <= bound then |all| else if bound == 0 then 1 else bound
  }

  ghost predicate RingsReturn(s: D.Decisions, t: D.Decisions, limits: ResourceLimits) {
    && LastOf(s.revocations, limits.maxRevocations, t.revocations)
    && LastOf(s.supersessions, limits.maxSupersessions, t.supersessions)
    && t.memo == map[] && t.memoOrder == []
  }

  function About(flow: FlowId): Classification -> bool {
    (c: Classification) => c.flowId == flow
  }

  ghost predicate YoungestFit(all: seq<Classification>, bound: nat, h: D.FlowHistory) {
    h.contradictions == [] && Suffix(h.decisions, all) && |h.decisions| == Smaller(|all|, bound)
  }

  /** Of each flow's decisions, in the order they were written, the youngest that fit. */
  ghost predicate DecisionsReturn(cs: seq<Classification>, bound: nat, t: D.Decisions) {
    && (forall flow | flow in t.history :: YoungestFit(Filter(About(flow), cs), bound, t.history[flow]))
    && (forall c | c in cs :: c.flowId in t.history)
  }

  function Smaller(a: nat, b: nat): nat {
    if a < b then a else b
  }

  /** The configured policy, or the image's installed over it. */
  ghost predicate PolicyReturns(o: Oracles, policy: ClassifierPolicy, persisted: ClassifierPolicy, now: ClassifierPolicy) {
    if persisted.generation == 0 then now == policy
    else exists mid, r :: InstallsPolicy(o, Initial(policy, 1, 1), persisted, mid, r) && now == mid.policy
  }

  ghost predicate Returns(o: Oracles, s: State, policy: ClassifierPolicy, img: DurableState, boot: nat, tick: Tick, t: State) {
    && t.boot == boot && t.epoch == (if s.epoch > 1 then s.epoch else 1) + 1 && t.sequence == s.sequence + 1
    && PolicyReturns(o, policy, img.policy, t.policy)
    && TablesReturn(s, t)
    && RecordsReturn(s.evidence, t.evidence)
    && PublishersReturn(s.publishers, t.publishers, tick)
    && RingsReturn(s.decisions, t.decisions, policy.limits)
    && DecisionsReturn(img.classifications, policy.limits.maxDecisionsPerFlow, t.decisions)
  }

  // ---- the rings ----------------------------------------------------------

  lemma PushedLast<T(!new)>(all: seq<T>, ring: seq<T>, bound: nat, x: T)
    requires LastOf(all, bound, ring)
    ensures LastOf(all + [x], bound, D.Pushed(ring, bound, x))
  {
    var after := D.Pushed(ring, bound, x);
    var whole := all + [x];
    assert whole[|whole| - |after|..] == after;
  }

  lemma {:induction false} RevocationsReturn(d: D.Decisions, rs: seq<RevocationRecord>)
    requires d.revocations == []
    ensures LastOf(rs, d.bounds.revocations, RestoreRevocations(d, rs).revocations)
  {
    hide D.Pushed;
    if rs != [] {
      var rest := rs[..|rs| - 1];
      RevocationsReturn(d, rest);
      RevocationsFrame(d, rest);
      PushedLast(rest, RestoreRevocations(d, rest).revocations, d.bounds.revocations, rs[|rs| - 1]);
      assert rest + [rs[|rs| - 1]] == rs;
    }
  }

  lemma {:induction false} SupersessionsReturn(d: D.Decisions, rs: seq<SupersessionRecord>)
    requires d.supersessions == []
    ensures LastOf(rs, d.bounds.supersessions, RestoreSupersessions(d, rs).supersessions)
  {
    hide D.Pushed;
    if rs != [] {
      var rest := rs[..|rs| - 1];
      SupersessionsReturn(d, rest);
      SupersessionsFrame(d, rest);
      PushedLast(rest, RestoreSupersessions(d, rest).supersessions, d.bounds.supersessions, rs[|rs| - 1]);
      assert rest + [rs[|rs| - 1]] == rs;
    }
  }

  lemma YoungestWith(all: seq<Classification>, bound: nat, h: D.FlowHistory, c: Classification)
    requires YoungestFit(all, bound, h)
    ensures YoungestFit(all + [c], bound, h.(decisions := D.Youngest(h.decisions + [c], bound)))
  {
    var whole, now := all + [c], D.Youngest(h.decisions + [c], bound);
    assert whole[|whole| - |now|..] == now;
  }

  lemma FilterWith(cs: seq<Classification>, c: Classification, flow: FlowId)
    ensures Filter(About(flow), cs + [c]) == if c.flowId == flow then Filter(About(flow), cs) + [c] else Filter(About(flow), cs)
  {
    hide Filter;
    FilterConcat(About(flow), cs, [c]);
    FilterSingleton(About(flow), c);
  }

  lemma RestoredDecision(d: D.Decisions, cs: seq<Classification>, c: Classification)
    requires DecisionsReturn(cs, d.bounds.decisionsPerFlow, d)
    requires forall flow | flow !in d.history :: Filter(About(flow), cs) == []
    ensures DecisionsReturn(cs + [c], d.bounds.decisionsPerFlow, D.RestoredClassification(d, c))
    ensures forall flow | flow !in D.RestoredClassification(d, c).history :: Filter(About(flow), cs + [c]) == []
  {
    hide Filter, YoungestFit, About, D.Youngest;
    var e := D.RestoredClassification(d, c);
    forall flow
      ensures flow in e.history ==> YoungestFit(Filter(About(flow), cs + [c]), d.bounds.decisionsPerFlow, e.history[flow])
      ensures flow !in e.history ==> Filter(About(flow), cs + [c]) == []
    {
      FilterWith(cs, c, flow);
      if flow == c.flowId {
        NoneFit(d.bounds.decisionsPerFlow);
        YoungestWith(Filter(About(flow), cs), d.bounds.decisionsPerFlow, D.HistoryOf(d, flow), c);
      }
    }
  }

  lemma NoneFit(bound: nat)
    ensures YoungestFit([], bound, D.FlowHistory([], []))
  {
  }

  lemma {:induction false} ClassificationsReturn(d: D.Decisions, cs: seq<Classification>)
    requires d.history == map[]
    ensures DecisionsReturn(cs, d.bounds.decisionsPerFlow, RestoreClassifications(d, cs))
    ensures forall flow | flow !in RestoreClassifications(d, cs).history :: Filter(About(flow), cs) == []
  {
    hide DecisionsReturn, D.RestoredClassification;
    if cs == [] {
      NoDecisions(d);
    } else {
      var rest := cs[..|cs| - 1];
      ClassificationsReturn(d, rest);
      ClassificationsFrame(d, rest);
      RestoredDecision(RestoreClassifications(d, rest), rest, cs[|cs| - 1]);
      assert rest + [cs[|cs| - 1]] == cs;
    }
  }

  lemma NoDecisions(d: D.Decisions)
    requires d.history == map[]
    ensures DecisionsReturn([], d.bounds.decisionsPerFlow, d)
  {
  }

  lemma IndexReturns(d: D.Decisions, img: DurableState)
    requires d.history == map[] && d.memo == map[] && d.memoOrder == [] && d.revocations == [] && d.supersessions == []
    ensures var e := RestoreDecisions(d, img);
            && LastOf(img.revocations, d.bounds.revocations, e.revocations)
            && LastOf(img.supersessions, d.bounds.supersessions, e.supersessions)
            && e.memo == map[] && e.memoOrder == []
            && DecisionsReturn(img.classifications, d.bounds.decisionsPerFlow, e)
  {
    hide RestoreClassifications, RestoreRevocations, RestoreSupersessions, LastOf;
    var d1 := RestoreClassifications(d, img.classifications);
    var d2 := RestoreRevocations(d1, img.revocations);
    ClassificationsFrame(d, img.classifications);
    ClassificationsReturn(d, img.classifications);
    RevocationsFrame(d1, img.revocations);
    RevocationsReturn(d1, img.revocations);
    SupersessionsFrame(d2, img.supersessions);
    SupersessionsReturn(d2, img.supersessions);
  }

  // ---- the publishers -----------------------------------------------------

  function DormantAt(tick: Tick): PublisherRecord -> PublisherRegistration {
    (r: PublisherRecord) => P.DormantRegistration(r, tick)
  }

  lemma {:induction false} RegistrationsFill(p: P.Publishers, rs: seq<PublisherRecord>, tick: Tick)
    requires P.RestoredRecords(p, rs, tick).1.Ok?
    ensures P.RestoredRecords(p, rs, tick).0.live == FillTable(p.live, PublisherKey(), DormantAt(tick), rs)
    decreases |rs|
  {
    if rs != [] {
      RegistrationsFill(P.RestoredRecord(p, rs[0], tick).0, rs[1..], tick);
    }
  }

  lemma DormantStays(r: PublisherRecord, tick: Tick)
    ensures Dormant(r, P.DormantRegistration(r, tick))
  {
  }

  lemma ClearedStaysDormant(r: PublisherRecord, x: PublisherRegistration)
    requires Dormant(r, x)
    ensures Dormant(r, P.ClearedRegistration(x))
  {
  }

  lemma RegistryReturns(s: P.Publishers, start: P.Publishers, rs: seq<PublisherRecord>, tick: Tick)
    requires start.live == map[] && start.records == map[]
    requires Lists(s.records, PublisherKey(), rs)
    requires P.RestoredRecords(start, rs, tick).1.Ok?
    ensures PublishersReturn(s, P.RestoredRecords(start, rs, tick).0, tick)
  {
    hide P.RestoredRecords, Lists, Dormant;
    PublishersFill(start, rs, tick);
    RegistrationsFill(start, rs, tick);
    FillFromListing(s.records, PublisherKey(), StoredAt(tick), rs);
    FillFromListing(s.records, PublisherKey(), DormantAt(tick), rs);
    forall id | id in s.records
      ensures Dormant(s.records[id], P.DormantRegistration(s.records[id], tick))
    {
      DormantStays(s.records[id], tick);
    }
  }

  lemma ClearedReturns(s: P.Publishers, p: P.Publishers, tick: Tick)
    requires PublishersReturn(s, p, tick)
    ensures PublishersReturn(s, P.ClearedSessions(p), tick)
  {
    hide Dormant, P.ClearedRegistration;
    forall id | id in s.records
      ensures Dormant(s.records[id], P.ClearedRegistration(p.live[id]))
    {
      ClearedStaysDormant(s.records[id], p.live[id]);
    }
  }

  // ---- starting -----------------------------------------------------------

  /** A classifier as it was built under these limits, with nothing filed. */
  ghost predicate Blank(limits: ResourceLimits, start: State) {
    && Unused(start) && start.decisions.history == map[]
    && start.epoch == 1 && start.sequence == 0
    && start.decisions.bounds.decisionsPerFlow == limits.maxDecisionsPerFlow
    && start.decisions.bounds.revocations == limits.maxRevocations
    && start.decisions.bounds.supersessions == limits.maxSupersessions
  }

  lemma BuiltBlank(o: Oracles, policy: ClassifierPolicy, persisted: ClassifierPolicy)
    ensures Blank(policy.limits, Initial(policy, 1, 1))
    ensures Blank(policy.limits, SetPolicy(o, Initial(policy, 1, 1), persisted).0)
  {
    hide SetPolicy;
    SetPolicyCases(o, Initial(policy, 1, 1), persisted);
  }

  lemma RestoreCounts(o: Oracles, start: State, img: DurableState, boot: nat, tick: Tick)
    requires Restore(o, start, img, boot, tick).1.Ok?
    ensures var t := Restore(o, start, img, boot, tick).0;
            && t.policy == start.policy
            && t.epoch == (if img.epoch > start.epoch then img.epoch else start.epoch)
            && t.sequence == (if img.sequence > start.sequence then img.sequence else start.sequence)
  {
    hide P.RestoredRecords, RestoreAll, RestoreDecisions, P.ClearedSessions;
  }

  lemma ReloadReturns(o: Oracles, s: E.Evidence, t: E.Evidence)
    requires t.byId.Keys == s.byId.Keys && forall id | id in t.byId :: t.byId[id] == Reload(o)(s.byId[id])
    ensures RecordsReturn(s, t)
  {
  }

  lemma NothingLeftToStale(o: Oracles, s: E.Evidence, t: E.Evidence, epoch: nat)
    requires RecordsReturn(s, t)
    ensures E.MarkEpochStale(o, t, epoch) == t
  {
    forall id | id in t.byId
      ensures t.byId[id].state != EvidenceCurrent
    {
      assert id in s.byId;
    }
    assert E.MarkEpochStale(o, t, epoch).byId == t.byId;
  }

  lemma StartStages(o: Oracles, policy: ClassifierPolicy, img: DurableState, boot: nat, tick: Tick)
    requires Start(o, policy, img, boot, tick).1.Ok?
    ensures var built := Initial(policy, 1, 1);
            var start := if img.policy.generation != 0 then SetPolicy(o, built, img.policy).0 else built;
            var mid := Restore(o, start, img, boot, tick);
            mid.1.Ok? && Start(o, policy, img, boot, tick).0 == Advanced(o, mid.0, boot)
  {
    hide Restore, SetPolicy, Advanced;
  }

  lemma PolicyStarts(o: Oracles, policy: ClassifierPolicy, persisted: ClassifierPolicy)
    ensures var built := Initial(policy, 1, 1);
            PolicyReturns(o, policy, persisted,
                          (if persisted.generation != 0 then SetPolicy(o, built, persisted).0 else built).policy)
  {
    hide SetPolicy, InstallsPolicy;
    PolicyIsInstalled(o, Initial(policy, 1, 1), persisted);
  }

  lemma RestoredReturns(o: Oracles, s: State, limits: ResourceLimits, start: State, img: DurableState, boot: nat, tick: Tick)
    requires Inv(o, s) && ImageOf(s, img) && Blank(limits, start) && Restore(o, start, img, boot, tick).1.Ok?
    ensures var t := Restore(o, start, img, boot, tick).0;
            && TablesReturn(s, t)
            && RecordsReturn(s.evidence, t.evidence)
            && PublishersReturn(s.publishers, t.publishers, tick)
            && RingsReturn(s.decisions, t.decisions, limits)
            && DecisionsReturn(img.classifications, limits.maxDecisionsPerFlow, t.decisions)
  {
    hide Inv, Restore, P.RestoredRecords, RestoreAll, RestoreDecisions, P.ClearedSessions, Lists, Reload, LastOf,
         PublishersReturn, RecordsReturn, DecisionsReturn, Gathers, E.IndexInvariant, P.RegistryInvariant, P.Forward,
         RingsNumbered;
    RestoreParts(o, start, img, boot, tick);
    RestoredCameBack(o, s, start, img, boot, tick);
    var t := Restore(o, start, img, boot, tick).0;
    ReloadReturns(o, s.evidence, t.evidence);
    RegistryReturns(s.publishers, start.publishers, img.publishers, tick);
    ClearedReturns(s.publishers, P.RestoredRecords(start.publishers, img.publishers, tick).0, tick);
    IndexReturns(start.decisions, img);
  }

  /** Everything the image held is in the new process, aged and unattended, under the next epoch. */
  lemma RestartMeans(o: Oracles, s: State, policy: ClassifierPolicy, img: DurableState, boot: nat, tick: Tick)
    requires Inv(o, s) && ImageOf(s, img) && Start(o, policy, img, boot, tick).1.Ok?
    ensures Returns(o, s, policy, img, boot, tick, Start(o, policy, img, boot, tick).0)
  {
    hide Inv, Restore, SetPolicy, Lists, Gathers, PolicyReturns, TablesReturn, RecordsReturn, PublishersReturn,
         RingsReturn, DecisionsReturn, Start, E.MarkEpochStale, P.ClearedSessions, Blank;
    StartStages(o, policy, img, boot, tick);
    PolicyStarts(o, policy, img.policy);
    BuiltBlank(o, policy, img.policy);
    var built := Initial(policy, 1, 1);
    var start := if img.policy.generation != 0 then SetPolicy(o, built, img.policy).0 else built;
    var mid := Restore(o, start, img, boot, tick).0;
    RestoredReturns(o, s, policy.limits, start, img, boot, tick);
    RestoreCounts(o, start, img, boot, tick);
    BlankCounts(policy.limits, start);
    NothingLeftToStale(o, s.evidence, mid.evidence, mid.epoch + 1);
    ClearedReturns(s.publishers, mid.publishers, tick);
    TablesStay(s, mid, Advanced(o, mid, boot));
  }

  lemma BlankCounts(limits: ResourceLimits, start: State)
    requires Blank(limits, start)
    ensures start.epoch == 1 && start.sequence == 0
  {
  }

  lemma TablesStay(s: State, t: State, u: State)
    requires TablesReturn(s, t) && u.workloads == t.workloads && u.flows == t.flows
    ensures TablesReturn(s, u)
  {
  }
}
