/**
 * What a policy must be to be installed, and what installing it, advancing the epoch,
 * withdrawing a record and revoking an incarnation do.
 */
module AuthorityMeaning {
  import opened Domain
  import opened Sorting
  import opened ClassifierState
  import opened Sweeps
  import Policy
  import E = EvidenceStore
  import F = FlowRegistry
  import D = ClassificationIndex

  // ---- which policies are accepted ----------------------------------------

  function NameOf(a: HeuristicAdapter): string {
    a.name
  }

  function HintKey(h: PortHint): (Transport, nat, SemanticClass) {
    (h.transport, h.port, h.semantic)
  }

  ghost predicate ScalarsInRange(p: ClassifierPolicy) {
    && p.defaultFreshnessWindow > 0 && p.maxEvidenceConsidered > 0
    && p.minimumPublishableConfidence <= 10000 && p.contradictionPenalty <= 10000
    && |p.heuristicAdapters| <= 4096 && |p.portHints| <= 4096
  }

  ghost predicate AdaptersSound(adapters: seq<HeuristicAdapter>) {
    && (forall a | a in adapters :: Policy.IsCanonicalIdentity(a.name) && a.maxBasisPoints <= 10000)
    && NoRepeats(Map(NameOf, adapters))
  }

  ghost predicate HintsSound(adapters: seq<HeuristicAdapter>, hints: seq<PortHint>) {
    && (forall h | h in hints :: h.basisPoints <= 10000 && exists a | a in adapters :: a.name == h.adapter)
    && NoRepeats(Map(HintKey, hints))
  }

  ghost predicate NoGuessing(p: ClassifierPolicy) {
    !p.allowHeuristicEvidence ==> p.portHints == [] && forall a | a in p.heuristicAdapters :: !a.enabled
  }

  /** In range, its adapters and hints well formed and distinct, and no guessing unless it is allowed. */
  ghost predicate Acceptable(p: ClassifierPolicy) {
    && ScalarsInRange(p) && AdaptersSound(p.heuristicAdapters) && HintsSound(p.heuristicAdapters, p.portHints)
    && NoGuessing(p)
  }

  /** The same policy, its limits within bounds, its adapters and hints in order. */
  ghost predicate CanonicalOf(p: ClassifierPolicy, c: ClassifierPolicy) {
    && c == p.(limits := Policy.Effective(p.limits), heuristicAdapters := c.heuristicAdapters, portHints := c.portHints)
    && multiset(c.heuristicAdapters) == multiset(p.heuristicAdapters) && multiset(c.portHints) == multiset(p.portHints)
    && Ascending(Policy.AdapterBefore, c.heuristicAdapters) && Ascending(Policy.HintBefore, c.portHints)
  }

  lemma AdaptersCheck(adapters: seq<HeuristicAdapter>)
    requires WeaklySorted(Policy.AdapterBefore, adapters)
    ensures Policy.FirstAdapterFault(adapters).None? && !Policy.AdapterTwice(adapters) <==> AdaptersSound(adapters)
  {
    hide Policy.IsCanonicalIdentity;
    Policy.FaultOfLeastName(adapters);
    if !Policy.AdapterTwice(adapters) {
      Policy.NamesWithoutTies(adapters);
      forall i, j | 0 <= i < j < |adapters|
        ensures adapters[i].name != adapters[j].name
      {
        TextLessIrreflexive(adapters[i].name);
        assert Policy.AdapterBefore(adapters[i], adapters[j]);
      }
    } else {
      var i :| 1 <= i < |adapters| && adapters[i - 1].name == adapters[i].name;
      assert Map(NameOf, adapters)[i - 1] == Map(NameOf, adapters)[i];
    }
  }

  lemma HintsCheck(adapters: seq<HeuristicAdapter>, hints: seq<PortHint>)
    requires WeaklySorted(Policy.HintBefore, hints)
    ensures !Policy.Overconfident(hints) && !Policy.HintTwice(hints) && !Policy.Dangling(adapters, hints)
       <==> HintsSound(adapters, hints)
  {
    hide Policy.HintBefore;
    HintsDistinct(hints);
    HintsNamed(adapters, hints);
  }

  lemma HintsDistinct(hints: seq<PortHint>)
    requires WeaklySorted(Policy.HintBefore, hints)
    ensures !Policy.HintTwice(hints) <==> NoRepeats(Map(HintKey, hints))
  {
    if !Policy.HintTwice(hints) {
      Policy.HintsWithoutTies(hints);
      forall i, j | 0 <= i < j < |hints|
        ensures HintKey(hints[i]) != HintKey(hints[j])
      {
        assert Policy.HintBefore(hints[i], hints[j]);
      }
    } else {
      var i :| 1 <= i < |hints| && Policy.SameHint(hints[i - 1], hints[i]);
      assert Map(HintKey, hints)[i - 1] == Map(HintKey, hints)[i];
    }
  }

  lemma HintsNamed(adapters: seq<HeuristicAdapter>, hints: seq<PortHint>)
    ensures !Policy.Overconfident(hints) && !Policy.Dangling(adapters, hints)
       <==> forall h | h in hints :: h.basisPoints <= 10000 && exists a | a in adapters :: a.name == h.adapter
  {
    forall h | h in hints
      ensures Policy.DeclaresAdapter(adapters, h.adapter) <==> exists a | a in adapters :: a.name == h.adapter
    {
      AdapterDeclared(adapters, h.adapter);
    }
    forall i | 0 <= i < |hints|
      ensures hints[i] in hints
    {
    }
  }

  lemma AdapterDeclared(adapters: seq<HeuristicAdapter>, name: string)
    ensures Policy.DeclaresAdapter(adapters, name) <==> exists a | a in adapters :: a.name == name
  {
  }

  lemma SoundPermutes(p: ClassifierPolicy, c: ClassifierPolicy)
    requires multiset(c.heuristicAdapters) == multiset(p.heuristicAdapters) && multiset(c.portHints) == multiset(p.portHints)
    requires c.allowHeuristicEvidence == p.allowHeuristicEvidence
    ensures AdaptersSound(c.heuristicAdapters) <==> AdaptersSound(p.heuristicAdapters)
    ensures HintsSound(c.heuristicAdapters, c.portHints) <==> HintsSound(p.heuristicAdapters, p.portHints)
    ensures NoGuessing(c) <==> NoGuessing(p)
  {
    hide Policy.IsCanonicalIdentity;
    MultisetMembership(c.heuristicAdapters, p.heuristicAdapters);
    MultisetMembership(c.portHints, p.portHints);
    SameRepeats(NameOf, c.heuristicAdapters, p.heuristicAdapters);
    SameRepeats(HintKey, c.portHints, p.portHints);
  }

  lemma SameRepeats<T(!new), U(!new)>(f: T -> U, a: seq<T>, b: seq<T>)
    requires multiset(a) == multiset(b)
    ensures NoRepeats(Map(f, a)) <==> NoRepeats(Map(f, b))
  {
    MapPermutation(f, a, b);
    if NoRepeats(Map(f, a)) {
      NoRepeatsPermutation(Map(f, a), Map(f, b));
    }
    if NoRepeats(Map(f, b)) {
      NoRepeatsPermutation(Map(f, b), Map(f, a));
    }
  }

  lemma GuessingCheck(p: ClassifierPolicy)
    ensures !(!p.allowHeuristicEvidence && (Policy.AnyEnabled(p.heuristicAdapters) || p.portHints != [])) <==> NoGuessing(p)
  {
  }

  lemma ListCheck(p: ClassifierPolicy)
    requires WeaklySorted(Policy.AdapterBefore, p.heuristicAdapters) && WeaklySorted(Policy.HintBefore, p.portHints)
    ensures Policy.ListFault(p).None?
       <==> AdaptersSound(p.heuristicAdapters) && HintsSound(p.heuristicAdapters, p.portHints) && NoGuessing(p)
  {
    hide Policy.FirstAdapterFault, Policy.AdapterTwice, Policy.Overconfident, Policy.HintTwice, Policy.Dangling,
         Policy.AnyEnabled, AdaptersSound, HintsSound, NoGuessing, WeaklySorted, Policy.AdapterBefore,
         Policy.HintBefore;
    AdaptersCheck(p.heuristicAdapters);
    HintsCheck(p.heuristicAdapters, p.portHints);
    GuessingCheck(p);
  }

  /** A policy is canonicalised exactly when it is acceptable, and nothing but order and limits changes. */
  lemma CanonicalMeans(p: ClassifierPolicy)
    ensures Policy.Canonicalized(p).Ok? <==> Acceptable(p)
    ensures Policy.Canonicalized(p).Ok? ==> CanonicalOf(p, Policy.Canonicalized(p).value)
  {
    hide AdaptersSound, HintsSound, NoGuessing, WeaklySorted, Policy.AdapterBefore, Policy.HintBefore,
         Policy.ListFault, Policy.Effective;
    var c := Policy.Sorted(p);
    Policy.SortedWeakly(p);
    SoundPermutes(p, c);
    ListCheck(c);
    if Policy.ListFault(c).None? {
      NoFaultNoTies(c);
      Policy.NamesWithoutTies(c.heuristicAdapters);
      Policy.HintsWithoutTies(c.portHints);
    }
  }

  lemma NoFaultNoTies(p: ClassifierPolicy)
    requires Policy.ListFault(p).None?
    ensures !Policy.AdapterTwice(p.heuristicAdapters) && !Policy.HintTwice(p.portHints)
  {
  }

  // ---- installing a policy ------------------------------------------------

  /** Refused unchanged, kept unchanged, or the next generation with every earlier decision forgotten. */
  ghost predicate InstallsPolicy(o: Oracles, s: State, p: ClassifierPolicy, t: State, r: Result<nat>) {
    && (r.Err? ==> t == s)
    && (!Acceptable(p) ==> r.Err?)
    && (r.Ok? ==>
          exists c ::
            && CanonicalOf(p, c)
            && if o.policyDigest(c.(generation := 0)) == o.policyDigest(s.policy.(generation := 0)) && s.policy.generation > 0
               then t == s && r.value == s.policy.generation
               else
                 && s.policy.generation < MAX_U64 && r.value == s.policy.generation + 1
                 && t == s.(policy := c.(generation := r.value), decisions := t.decisions)
                 && t.decisions.history == map[] && t.decisions.memo == map[] && t.decisions.memoOrder == []
                 && t.decisions.revocations == [] && t.decisions.supersessions == []
                 && t.decisions.bounds == s.decisions.bounds)
    && (Acceptable(p) && r.Err? ==> s.policy.generation >= MAX_U64 && r.code == CounterExhausted)
  }

  lemma PolicyIsInstalled(o: Oracles, s: State, p: ClassifierPolicy)
    ensures var e := SetPolicy(o, s, p); InstallsPolicy(o, s, p, e.0, e.1)
  {
    hide Acceptable, CanonicalOf, Policy.Canonicalized;
    CanonicalMeans(p);
    var c := Policy.Canonicalized(p);
    if c.Ok? {
      assert CanonicalOf(p, c.value);
    }
  }

  // ---- advancing the epoch ------------------------------------------------

  ghost predicate AdvancesEpoch(s: State, boot: nat, t: State, r: Result<nat>) {
    && (r.Ok? <==> s.sequence < MAX_U64 && s.epoch < MAX_U64)
    && (r.Err? ==> r.code == CounterExhausted && t == s.(sequence := t.sequence))
    && (r.Ok? ==>
          && r.value == s.epoch + 1
          && t == s.(epoch := s.epoch + 1, boot := boot, sequence := s.sequence + 1,
                     authoritySequence := s.authoritySequence + 1, publishers := t.publishers, evidence := t.evidence)
          && Staled(s.evidence, t.evidence, (x: EvidenceRecord) => x.acceptedEpoch != s.epoch + 1)
          && t.publishers == s.publishers.(live := t.publishers.live)
          && t.publishers.live.Keys == s.publishers.live.Keys
          && forall id | id in s.publishers.live ::
               t.publishers.live[id] == s.publishers.live[id].(state := PublisherIdle, session := "", lastSeenTick := 0))
  }

  lemma EpochAdvances(o: Oracles, s: State, boot: nat)
    ensures var e := AdvanceEpoch(o, s, boot); AdvancesEpoch(s, boot, e.0, e.1)
  {
  }

  // ---- withdrawing and revoking -------------------------------------------

  /** A ring gains its youngest, and loses its oldest when it is full. */
  ghost predicate Joins<T(!new)>(before: seq<T>, after: seq<T>, bound: nat, x: T) {
    && 0 < |after| && after[|after| - 1] == x
    && Suffix(after[..|after| - 1], before)
    && |after| == if |before| < bound || |before| == 0 then |before| + 1 else |before|
  }

  lemma PushedJoins<T(!new)>(ring: seq<T>, bound: nat, x: T)
    ensures Joins(ring, D.Pushed(ring, bound, x), bound, x)
  {
    var after := D.Pushed(ring, bound, x);
    assert after[..|after| - 1] == if |ring| >= bound && |ring| > 0 then ring[1..] else ring;
  }

  /** The reason given, or a standing one. */
  ghost predicate Reason(o: Oracles, given: string, standing: Phrase, used: string) {
    used == if given == "" then o.render(standing) else given
  }

  /** The notice of a withdrawal or a revocation joins the ring; nothing else of the index changes. */
  ghost predicate Notes(d: D.Decisions, e: D.Decisions, flow: FlowId, generation: nat, evidence: string, env: SessionEnvelope,
                        epoch: nat, seqno: nat, tick: Tick, reason: string)
  {
    && e == d.(revocations := e.revocations)
    && Joins(d.revocations, e.revocations, d.bounds.revocations,
             RevocationRecord(flow, generation, evidence, env.session, env.publisher, epoch, seqno, tick, reason))
  }

  /** Only the record's state has changed, and it is SUPERSEDED. */
  ghost predicate Withdraws(e: E.Evidence, f: E.Evidence, id: string, reason: string) {
    && id in e.byId
    && f == e.(byId := e.byId[id := if e.byId[id].state == EvidenceSuperseded then e.byId[id]
                                    else e.byId[id].(state := EvidenceSuperseded, stateReason := reason)])
  }

  ghost predicate MayWithdraw(s: State, env: SessionEnvelope, id: string) {
    && env.epoch == s.epoch && id in s.evidence.byId
    && s.evidence.byId[id].publisher == env.publisher && s.evidence.byId[id].publisherBoot == env.publisherBoot
  }

  /** The publisher that submitted it may withdraw it; out of numbers, it is withdrawn without notice. */
  ghost predicate WithdrawsEvidence(o: Oracles, s: State, env: SessionEnvelope, id: string, reason: string, tick: Tick,
                                    t: State, r: Result<()>)
  {
    && (r.Ok? <==> MayWithdraw(s, env, id) && s.sequence < MAX_U64)
    && (r.Err? ==> r.code == if env.epoch != s.epoch then StaleEpoch else if id !in s.evidence.byId then NotFound
                             else if !MayWithdraw(s, env, id) then Unauthorized else CounterExhausted)
    && (!MayWithdraw(s, env, id) ==> t == s)
    && (MayWithdraw(s, env, id) ==>
          exists used ::
            && Reason(o, reason, WithdrawnByPublisher, used)
            && Withdraws(s.evidence, t.evidence, id, used)
            && (r.Err? ==> t == s.(evidence := t.evidence))
            && (r.Ok? ==>
                  && t == s.(evidence := t.evidence, sequence := s.sequence + 1, decisions := t.decisions)
                  && Notes(s.decisions, t.decisions, s.evidence.byId[id].flowId, s.evidence.byId[id].flowGeneration, id, env,
                           s.epoch, s.sequence + 1, tick, used)))
  }

  lemma EvidenceIsWithdrawn(o: Oracles, s: State, env: SessionEnvelope, id: string, reason: string, tick: Tick)
    ensures var e := WithdrawEvidence(o, s, env, id, reason, tick); WithdrawsEvidence(o, s, env, id, reason, tick, e.0, e.1)
  {
    hide Joins, D.Pushed;
    if MayWithdraw(s, env, id) {
      var used := AppliedReason(o, reason, WithdrawnByPublisher);
      var x := s.evidence.byId[id];
      PushedJoins(s.decisions.revocations, s.decisions.bounds.revocations,
                  RevocationRecord(x.flowId, x.flowGeneration, id, env.session, env.publisher, s.epoch, s.sequence + 1,
                                   tick, used));
      WithStateWithdraws(s.evidence, id, used);
      assert Reason(o, reason, WithdrawnByPublisher, used);
    }
  }

  lemma WithStateWithdraws(e: E.Evidence, id: string, reason: string)
    requires id in e.byId
    ensures Withdraws(e, E.WithState(e, id, EvidenceSuperseded, reason).0, id, reason)
  {
    assert e.byId[id := e.byId[id]] == e.byId;
  }

  /** The whole incarnation is on notice; the records stay as they are. */
  ghost predicate RevokesGeneration(o: Oracles, s: State, env: SessionEnvelope, flow: FlowId, generation: nat, reason: string,
                                    tick: Tick, t: State, r: Result<()>)
  {
    && (r.Ok? <==> env.epoch == s.epoch && F.HasGeneration(s.flows, flow, generation) && s.sequence < MAX_U64)
    && (r.Err? ==> t == s && r.code == if env.epoch != s.epoch then StaleEpoch
                                       else if !F.HasGeneration(s.flows, flow, generation) then UnknownFlow
                                           else CounterExhausted)
    && (r.Ok? ==>
          && t == s.(sequence := s.sequence + 1, decisions := t.decisions)
          && exists used ::
               && Reason(o, reason, RevokedByRequest, used)
               && Notes(s.decisions, t.decisions, flow, generation, "", env, s.epoch, s.sequence + 1, tick, used))
  }

  lemma GenerationIsRevoked(o: Oracles, s: State, env: SessionEnvelope, flow: FlowId, generation: nat, reason: string,
                            tick: Tick)
    ensures var e := RevokeGeneration(o, s, env, flow, generation, reason, tick);
            RevokesGeneration(o, s, env, flow, generation, reason, tick, e.0, e.1)
  {
    hide Joins, D.Pushed, F.HasGeneration;
    var used := AppliedReason(o, reason, RevokedByRequest);
    PushedJoins(s.decisions.revocations, s.decisions.bounds.revocations,
                RevocationRecord(flow, generation, "", env.session, env.publisher, s.epoch, s.sequence + 1, tick, used));
    assert Reason(o, reason, RevokedByRequest, used);
  }
}
