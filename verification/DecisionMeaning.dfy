/**
 * What a decision says, spelled out over the records the engine considers: which record
 * decides, in the listed order of sources; what is reported of it; and what is reported when
 * no record decides.  Nothing here goes through the engine's own ranking, tables or stages.
 */
module DecisionMeaning {
  import opened Domain
  import opened Sorting
  import opened DecisionEngine
  import opened DecisionOrder
  import opened DecisionTheorems
  import opened DecisionCoherence

  // ---- the order of records -----------------------------------------------

  /** Declared before contract-derived, coordinator-correlated, topology-correlated, heuristic. */
  predicate StandsHigher(a: EvidenceSource, b: EvidenceSource) {
    match a
    case DeclaredAuthenticated => b in {ContractDerived, CoordinatorCorrelated, TopologyCorrelated, Heuristic, UnknownSource}
    case ContractDerived => b in {CoordinatorCorrelated, TopologyCorrelated, Heuristic, UnknownSource}
    case CoordinatorCorrelated => b in {TopologyCorrelated, Heuristic, UnknownSource}
    case TopologyCorrelated => b in {Heuristic, UnknownSource}
    case Heuristic => b in {UnknownSource}
    case UnknownSource => false
  }

  /** The number a source is given in an explanation. */
  function Grade(s: EvidenceSource): nat {
    match s
    case DeclaredAuthenticated => 5
    case ContractDerived => 4
    case CoordinatorCorrelated => 3
    case TopologyCorrelated => 2
    case Heuristic => 1
    case UnknownSource => 0
  }

  /** The most a source can ever justify, in basis points. */
  function BasisPoints(s: EvidenceSource): nat {
    match s
    case DeclaredAuthenticated => 9000
    case ContractDerived => 8000
    case CoordinatorCorrelated => 7000
    case TopologyCorrelated => 5000
    case Heuristic => 2000
    case UnknownSource => 0
  }

  /** At the first place where they differ, `a` has ended or has the smaller character. */
  ghost predicate Alphabetical(a: string, b: string) {
    exists k: nat | k <= |a| && k < |b| :: a[..k] == b[..k] && (k < |a| ==> a[k] < b[k])
  }

  /** Higher source; then the later workload generation; then the later acceptance; then the lesser identity. */
  ghost predicate Ahead(a: EvidenceRecord, b: EvidenceRecord) {
    || StandsHigher(a.source, b.source)
    || (&& a.source == b.source
        && (|| a.workloadGeneration > b.workloadGeneration
            || (&& a.workloadGeneration == b.workloadGeneration
                && (|| a.acceptedSeq > b.acceptedSeq
                    || (a.acceptedSeq == b.acceptedSeq && Alphabetical(a.id, b.id))))))
  }

  lemma {:induction false} TextLessIsAlphabetical(a: string, b: string)
    ensures TextLess(a, b) <==> Alphabetical(a, b)
  {
    if b == [] {
    } else if a == [] {
      assert a[..0] == b[..0];
    } else if a[0] != b[0] {
      if a[0] < b[0] {
        assert a[..0] == b[..0];
      }
      forall k: nat | 0 < k <= |a| && k < |b|
        ensures a[..k] != b[..k]
      {
        assert a[..k][0] != b[..k][0];
      }
    } else {
      TextLessIsAlphabetical(a[1..], b[1..]);
      if Alphabetical(a[1..], b[1..]) {
        var k: nat :| k <= |a[1..]| && k < |b[1..]| && a[1..][..k] == b[1..][..k] && (k < |a[1..]| ==> a[1..][k] < b[1..][k]);
        assert a[..k + 1] == [a[0]] + a[1..][..k] && b[..k + 1] == [b[0]] + b[1..][..k];
      }
      if Alphabetical(a, b) {
        var k: nat :| k <= |a| && k < |b| && a[..k] == b[..k] && (k < |a| ==> a[k] < b[k]);
        assert k > 0;
        assert a[1..][..k - 1] == a[..k][1..] && b[1..][..k - 1] == b[..k][1..];
      }
    }
  }

  /** The engine's comparator is the listed order. */
  lemma RanksAboveIsAhead(a: EvidenceRecord, b: EvidenceRecord)
    ensures RanksAbove(a, b) <==> Ahead(a, b)
  {
    hide Alphabetical, TextLess;
    TextLessIsAlphabetical(a.id, b.id);
  }

  // ---- which records count ------------------------------------------------

  /** About this incarnation, stored as CURRENT in this epoch, its publisher attending, not expired. */
  predicate CurrentNow(input: DecisionInput, r: EvidenceRecord) {
    && r.flowId == input.flow.id && r.flowGeneration == input.flow.generation
    && r.state == EvidenceCurrent
    && r.acceptedEpoch == input.authority.epoch
    && (r.source in {DeclaredAuthenticated, CoordinatorCorrelated, TopologyCorrelated} ==>
          (r.publisher, r.publisherBoot) in input.authority.live)
    && (input.authority.tick == 0 || r.freshUntil == 0 || input.authority.tick <= r.freshUntil)
  }

  /** Current, and more than a guess. */
  predicate Counts(input: DecisionInput, r: EvidenceRecord) {
    CurrentNow(input, r) && r.source != Heuristic
  }

  /** Counts, and names a class. */
  predicate Qualifies(input: DecisionInput, r: EvidenceRecord) {
    Counts(input, r) && r.semantic != UnknownClass
  }

  lemma CountsIsAuthoritative(input: DecisionInput, r: EvidenceRecord)
    ensures Counts(input, r) <==> Authoritative(input, r)
    ensures Qualifies(input, r) <==> Decides(input, r)
  {
  }

  /** Of the records that qualify, the one ahead of every other. */
  ghost predicate Foremost(input: DecisionInput, all: seq<EvidenceRecord>, w: EvidenceRecord) {
    && w in all && Qualifies(input, w)
    && forall r | r in all && Qualifies(input, r) && r != w :: Ahead(w, r)
  }

  function Agreeing(input: DecisionInput, w: EvidenceRecord): EvidenceRecord -> bool {
    r => Counts(input, r) && r.semantic == w.semantic
  }

  function Opposing(input: DecisionInput, w: EvidenceRecord): EvidenceRecord -> bool {
    r => Qualifies(input, r) && r.semantic != w.semantic
  }

  // ---- what is reported ---------------------------------------------------

  ghost predicate Silent(d: Classification, state: ClassificationState) {
    && d.state == state && d.semantic == UnknownClass && d.confidence == 0
    && d.selectedEvidence == "" && d.selectedSource == UnknownSource
    && d.corroborationCount == 0 && d.contradictions == [] && d.appliedPenalty == 0
  }

  function Lesser(a: nat, b: nat): nat {
    if a < b then a else b
  }

  /** The lesser of what the record claims and its source can justify, less the penalty if it is opposed. */
  ghost function Earned(input: DecisionInput, all: seq<EvidenceRecord>, w: EvidenceRecord): int {
    Lesser(w.confidence, BasisPoints(w.source))
    - if exists r | r in all :: Opposing(input, w)(r) then input.policy.contradictionPenalty else 0
  }

  /** One contradiction for each record that opposes `w`, the foremost first. */
  ghost predicate Confronts(o: Oracles, input: DecisionInput, all: seq<EvidenceRecord>, w: EvidenceRecord,
                            contradictions: seq<Contradiction>)
  {
    exists rs: seq<EvidenceRecord> ::
      && multiset(rs) == multiset(Filter(Opposing(input, w), all))
      && (forall i, j | 0 <= i < j < |rs| :: Ahead(rs[i], rs[j]))
      && |contradictions| == |rs|
      && forall i | 0 <= i < |rs| ::
           contradictions[i] == Contradiction(w.id, rs[i].id, w.semantic, w.source, rs[i].semantic, rs[i].source,
                                              o.render(PrecedenceNote(Grade(w.source), Grade(rs[i].source))))
  }

  /** Current, a guess included if the policy admits guesses. */
  predicate StillCurrent(input: DecisionInput, r: EvidenceRecord) {
    CurrentNow(input, r) && (r.source == Heuristic ==> input.policy.allowHeuristicEvidence)
  }

  /** Once current, about another incarnation or overtaken by epoch, absence or time. */
  predicate NoLongerCurrent(input: DecisionInput, r: EvidenceRecord) {
    || r.flowId != input.flow.id || r.flowGeneration != input.flow.generation
    || r.state in {EvidenceStale, EvidenceSuperseded}
    || (&& r.state == EvidenceCurrent && !CurrentNow(input, r)
        && (r.acceptedEpoch != input.authority.epoch || r.source != Heuristic || input.policy.allowHeuristicEvidence))
  }

  /** The state reported when no record qualifies. */
  ghost function Absence(input: DecisionInput, all: seq<EvidenceRecord>): ClassificationState {
    if exists r | r in all :: StillCurrent(input, r) then Insufficient
    else if exists r | r in all :: NoLongerCurrent(input, r) then Stale
    else Insufficient
  }

  /** What is reported when `w` decides. */
  ghost predicate Reports(o: Oracles, input: DecisionInput, all: seq<EvidenceRecord>, w: EvidenceRecord, d: Classification) {
    var earned := Earned(input, all, w);
    if earned < input.policy.minimumPublishableConfidence && input.policy.minimumPublishableConfidence > 0 then
      Silent(d, Insufficient)
    else
      && d.semantic == w.semantic && d.selectedEvidence == w.id && d.selectedSource == w.source
      && d.confidence == (if earned < 0 then 0 else earned)
      && d.corroborationCount + 1 == |Filter(Agreeing(input, w), all)|
      && Confronts(o, input, all, w, d.contradictions)
      && d.state == (if d.contradictions != [] then Contradicted else if d.corroborationCount > 0 then Corroborated
                     else Current)
      && d.appliedPenalty == (if d.contradictions != [] then input.policy.contradictionPenalty else 0)
  }

  /** The question, policy and authority a decision is stamped with. */
  ghost predicate Stamped(o: Oracles, input: DecisionInput, d: Classification) {
    && d.flowId == input.flow.id && d.flowGeneration == input.flow.generation
    && d.policyGeneration == input.policy.generation && d.policyDigest == o.policyDigest(input.policy.(generation := 0))
    && d.coordinatorEpoch == input.authority.epoch && d.coordinatorBoot == input.authority.coordinatorBoot
    && d.decidedTick == input.authority.tick
  }

  ghost predicate Says(o: Oracles, input: DecisionInput, all: seq<EvidenceRecord>, d: Classification) {
    && Stamped(o, input, d)
    && if input.revoked then
         Silent(d, Revoked)
       else if forall r | r in all :: !Qualifies(input, r) then
         Silent(d, Absence(input, all))
       else
         exists w :: Foremost(input, all, w) && Reports(o, input, all, w, d)
  }

  // ---- the engine says it -------------------------------------------------

  /** Filtering an image, element by element, is the image of filtering. */
  lemma {:induction false} FilterThrough<T(!new), U(!new)>(p: U -> bool, q: T -> bool, f: T -> U, s: seq<T>, t: seq<U>)
    requires |t| == |s|
    requires forall i | 0 <= i < |s| :: (p(t[i]) <==> q(s[i])) && (q(s[i]) ==> t[i] == f(s[i]))
    ensures Filter(p, t) == Map(f, Filter(q, s))
  {
    if s != [] {
      FilterThrough(p, q, f, s[..|s| - 1], t[..|t| - 1]);
    }
  }

  /** The standing candidates of a kind are the records of that kind, ranked. */
  lemma StandingAre(o: Oracles, input: DecisionInput, p: Candidate -> bool, q: EvidenceRecord -> bool)
    requires DistinctIds(input.evidence)
    requires forall r :: q(r) ==> Counts(input, r)
    requires forall c :: p(c) ==> Standing(c)
    requires forall r :: q(r) <==> p(Fresh(r)) && Counts(input, r)
    ensures multiset(Filter(p, Ranked(o, input))) == multiset(Map(Fresh, Filter(q, Considered(o, input))))
    ensures |Filter(p, Ranked(o, input))| == |Filter(q, Considered(o, input))|
  {
    hide Ranked, Pool, Considered, Assess, Counts, Authoritative, Standing, Filter;
    var all, pool := Considered(o, input), Pool(o, input);
    PoolIsAssessed(o, input);
    forall i | 0 <= i < |all|
      ensures (p(pool[i]) <==> q(all[i])) && (q(all[i]) ==> pool[i] == Fresh(all[i]))
    {
      AssessSelects(o, input, all[i]);
      CountsIsAuthoritative(input, all[i]);
    }
    FilterThrough(p, q, Fresh, all, pool);
    RankedPermutes(o, input);
    FilterPermutation(p, Ranked(o, input), pool);
  }

  lemma RankedPermutes(o: Oracles, input: DecisionInput)
    ensures multiset(Ranked(o, input)) == multiset(Pool(o, input))
  {
  }

  lemma AgreeingAre(o: Oracles, input: DecisionInput, w: EvidenceRecord)
    requires DistinctIds(input.evidence)
    ensures |Filter(AgreesWith(w), Ranked(o, input))| == |Filter(Agreeing(input, w), Considered(o, input))|
  {
    hide Ranked, Considered, Filter;
    StandingAre(o, input, AgreesWith(w), Agreeing(input, w));
  }

  lemma OpponentsAre(o: Oracles, input: DecisionInput, w: EvidenceRecord) returns (rs: seq<EvidenceRecord>)
    requires DistinctIds(input.evidence)
    ensures multiset(rs) == multiset(Filter(Opposing(input, w), Considered(o, input)))
    ensures |Opponents(Ranked(o, input), w)| == |rs|
    ensures forall i | 0 <= i < |rs| :: Opponents(Ranked(o, input), w)[i].record == rs[i]
    ensures forall i, j | 0 <= i < j < |rs| :: Ahead(rs[i], rs[j])
  {
    hide Ranked, Considered, Filter, Sort, Ahead, RanksAbove, Counts;
    var cs, all := Ranked(o, input), Considered(o, input);
    assert forall r :: Opposing(input, w)(r) <==> DisagreesWith(w)(Fresh(r)) && Counts(input, r) by {
      forall r
        ensures Counts(input, r) ==> Standing(Fresh(r))
      {
        CountsStands(input, r);
      }
    }
    StandingAre(o, input, DisagreesWith(w), Opposing(input, w));
    var found := Filter(DisagreesWith(w), cs);
    var ops := Opponents(cs, w);
    rs := Map((c: Candidate) => c.record, ops);
    MapPermutation((c: Candidate) => c.record, ops, found);
    var kept := Filter(Opposing(input, w), all);
    MapPermutation((c: Candidate) => c.record, found, Map(Fresh, kept));
    assert Map((c: Candidate) => c.record, Map(Fresh, kept)) == kept;
    OpponentsDescend(o, input, w);
    forall i, j | 0 <= i < j < |rs|
      ensures Ahead(rs[i], rs[j])
    {
      RanksAboveIsAhead(rs[i], rs[j]);
    }
  }

  lemma CountsStands(input: DecisionInput, r: EvidenceRecord)
    ensures Counts(input, r) ==> Standing(Fresh(r))
  {
  }

  lemma OpponentsDescend(o: Oracles, input: DecisionInput, w: EvidenceRecord)
    requires DistinctIds(input.evidence)
    ensures var ops := Opponents(Ranked(o, input), w);
            forall i, j | 0 <= i < j < |ops| :: RanksAbove(ops[i].record, ops[j].record)
  {
    hide Ranked, RanksAbove, Filter, Sort, DistinctIds;
    var found := Filter(DisagreesWith(w), Ranked(o, input));
    FilteredDistinct(o, input, DisagreesWith(w));
    RankedTotal(found);
    SortAscending(CandidateRanksAbove, found);
  }

  lemma FilteredDistinct(o: Oracles, input: DecisionInput, p: Candidate -> bool)
    requires DistinctIds(input.evidence)
    ensures DistinctCandidates(Filter(p, Ranked(o, input)))
  {
    hide Pool, Filter, Sort;
    PoolDistinct(o, input);
    var ids := (c: Candidate) => c.record.id;
    var pool, cs := Pool(o, input), Ranked(o, input);
    MapPermutation(ids, cs, pool);
    assert NoRepeats(Map(ids, pool));
    NoRepeatsPermutation(Map(ids, pool), Map(ids, cs));
    assert DistinctCandidates(cs) by {
      forall i, j | 0 <= i < j < |cs|
        ensures cs[i].record.id != cs[j].record.id
      {
        assert Map(ids, cs)[i] != Map(ids, cs)[j];
      }
    }
    FilterApart(p, cs);
  }

  lemma {:induction false} FilterApart(p: Candidate -> bool, cs: seq<Candidate>)
    requires DistinctCandidates(cs)
    ensures DistinctCandidates(Filter(p, cs))
  {
    if cs != [] {
      FilterApart(p, cs[..|cs| - 1]);
      FilterMembers(p, cs[..|cs| - 1]);
      var rest := Filter(p, cs[..|cs| - 1]);
      forall i | 0 <= i < |rest|
        ensures rest[i].record.id != cs[|cs| - 1].record.id
      {
        assert rest[i] in cs[..|cs| - 1];
      }
    }
  }

  lemma RankedTotal(cs: seq<Candidate>)
    requires DistinctCandidates(cs)
    ensures StrictTotalOn(CandidateRanksAbove, cs)
  {
    hide RanksAbove;
    forall x
      ensures !CandidateRanksAbove(x, x)
    {
      RanksAboveIrreflexive(x.record);
    }
    forall x, y | CandidateRanksAbove(x, y)
      ensures !CandidateRanksAbove(y, x)
    {
      RanksAboveAsymmetric(x.record, y.record);
    }
    forall x, y, z | CandidateRanksAbove(x, y) && CandidateRanksAbove(y, z)
      ensures CandidateRanksAbove(x, z)
    {
      RanksAboveTransitive(x.record, y.record, z.record);
    }
    forall i, j | 0 <= i < j < |cs|
      ensures CandidateRanksAbove(cs[i], cs[j]) || CandidateRanksAbove(cs[j], cs[i])
    {
      RanksAboveTotal(cs[i].record, cs[j].record);
    }
  }

  lemma AssessedState(o: Oracles, input: DecisionInput, r: EvidenceRecord)
    ensures IsCurrentCandidate(Assess(o, input, Fresh(r))) <==> StillCurrent(input, r)
    ensures IsFormerCandidate(Assess(o, input, Fresh(r))) <==> NoLongerCurrent(input, r)
  {
  }

  lemma AbsenceIs(o: Oracles, input: DecisionInput)
    requires DistinctIds(input.evidence)
    ensures NoWinnerState(Ranked(o, input)) == Absence(input, Considered(o, input))
  {
    hide Ranked, Considered, Assess, StillCurrent, NoLongerCurrent, IsCurrentCandidate, IsFormerCandidate;
    var cs, all := Ranked(o, input), Considered(o, input);
    forall r | r in all
      ensures StillCurrent(input, r) ==> exists i | 0 <= i < |cs| :: IsCurrentCandidate(cs[i])
      ensures NoLongerCurrent(input, r) ==> exists i | 0 <= i < |cs| :: IsFormerCandidate(cs[i])
    {
      RankedTarget(o, input, r);
      AssessedState(o, input, r);
      var i :| 0 <= i < |cs| && cs[i] == Assess(o, input, Fresh(r));
    }
    forall i | 0 <= i < |cs|
      ensures IsCurrentCandidate(cs[i]) ==> exists r | r in all :: StillCurrent(input, r)
      ensures IsFormerCandidate(cs[i]) ==> exists r | r in all :: NoLongerCurrent(input, r)
    {
      var r := RankedSource(o, input, cs[i]);
      AssessedState(o, input, r);
    }
  }

  lemma TablesAgree(s: EvidenceSource)
    ensures SourceConfidence(s) == BasisPoints(s) && SourceRank(s) == Grade(s)
  {
  }

  lemma DecisionStamped(o: Oracles, input: DecisionInput)
    ensures Stamped(o, input, Decision(o, input))
  {
    hide Ranked, Capped, OrderedCitations, Judge, Guarded, DecisionContent;
  }

  lemma ForemostIs(o: Oracles, input: DecisionInput, w: EvidenceRecord)
    ensures UniqueMaximum(o, input, w) <==> Foremost(input, Considered(o, input), w)
  {
    hide Considered, Authoritative, Counts, RanksAbove, Ahead;
    forall r
      ensures Decides(input, r) <==> Qualifies(input, r)
      ensures RanksAbove(w, r) <==> Ahead(w, r)
    {
      CountsIsAuthoritative(input, r);
      RanksAboveIsAhead(w, r);
    }
  }

  lemma OpposedExactly(o: Oracles, input: DecisionInput, w: EvidenceRecord, rs: seq<EvidenceRecord>)
    requires multiset(rs) == multiset(Filter(Opposing(input, w), Considered(o, input)))
    ensures rs != [] <==> exists r | r in Considered(o, input) :: Opposing(input, w)(r)
  {
    hide Considered, Filter, Qualifies;
    var all := Considered(o, input);
    FilterMembers(Opposing(input, w), all);
    if rs != [] {
      assert rs[0] in multiset(rs);
      assert rs[0] in Filter(Opposing(input, w), all);
    }
    if r :| r in all && Opposing(input, w)(r) {
      assert r in multiset(Filter(Opposing(input, w), all));
    }
  }

  lemma ContradictionsConfront(o: Oracles, input: DecisionInput, w: EvidenceRecord)
    requires DistinctIds(input.evidence)
    ensures Confronts(o, input, Considered(o, input), w, Contradictions(o, Ranked(o, input), w))
    ensures Contradictions(o, Ranked(o, input), w) != []
            <==> exists r | r in Considered(o, input) :: Opposing(input, w)(r)
  {
    hide Ranked, Considered, Filter, Opponents, Qualifies, Ahead, SourceRank, Grade;
    var rs := OpponentsAre(o, input, w);
    OpposedExactly(o, input, w, rs);
    TablesAgree(w.source);
    forall i | 0 <= i < |rs|
      ensures SourceRank(rs[i].source) == Grade(rs[i].source)
    {
      TablesAgree(rs[i].source);
    }
  }

  lemma CorroborationCounts(o: Oracles, input: DecisionInput, w: EvidenceRecord)
    requires DistinctIds(input.evidence) && Qualifies(input, w) && w in Considered(o, input)
    ensures Corroboration(Ranked(o, input), w) + 1 == |Filter(Agreeing(input, w), Considered(o, input))|
  {
    hide Ranked, Considered, Filter, Counts;
    AgreeingAre(o, input, w);
    FilterMembers(Agreeing(input, w), Considered(o, input));
    assert w in Filter(Agreeing(input, w), Considered(o, input));
  }

  /** The verdict for a winner reports what it should, and misses the threshold when it should. */
  lemma WinnerReports(o: Oracles, input: DecisionInput, cs: seq<Candidate>, wi: nat, w: EvidenceRecord, d: Classification)
    requires DistinctIds(input.evidence) && cs == Ranked(o, input)
    requires !input.revoked && wi == FirstWinner(cs) < |cs| && w == cs[wi].record
    requires Qualifies(input, w) && w in Considered(o, input)
    requires VerdictOf(d) == Judge(o, input.policy, false, cs)
    ensures Reports(o, input, Considered(o, input), w, d)
  {
    hide Ranked, Considered, Filter, Contradictions, Confronts, FirstWinner, Qualifies, Corroboration,
         SourceConfidence, BasisPoints, Opposing, Agreeing;
    ContradictionsConfront(o, input, w);
    CorroborationCounts(o, input, w);
    TablesAgree(w.source);
  }

  /**
   * What a decision means.  A revoked generation is REVOKED.  If no considered record is
   * current, attended, unexpired, more than a guess and names a class, nothing is reported but
   * why.  Otherwise the foremost such record decides: its class, its identity and source, the
   * lesser of its own confidence and its source's, the penalty taken off exactly when another
   * such record names another class, the number of records that agree, and one contradiction
   * for each that opposes; below the threshold nothing is reported.
   */
  lemma DecisionMeans(o: Oracles, input: DecisionInput)
    requires DistinctIds(input.evidence)
    ensures Says(o, input, Considered(o, input), Decision(o, input))
  {
    hide Decision, Ranked, Considered, FirstWinner, WinnerVerdict, Reports, Qualifies, Authoritative, Foremost,
         UniqueMaximum, Stamped, NoWinnerState, FallsShort, Absence;
    var cs := Ranked(o, input);
    var d := Decision(o, input);
    DecisionStamped(o, input);
    GuardNeverFires(o, input);
    if !input.revoked {
      WinnerIsUniqueMaximum(o, input);
      forall r
        ensures Qualifies(input, r) <==> Decides(input, r)
      {
        CountsIsAuthoritative(input, r);
      }
      var wi := FirstWinner(cs);
      if wi == |cs| {
        AbsenceIs(o, input);
      } else {
        var w := cs[wi].record;
        ForemostIs(o, input, w);
        ForemostParts(input, Considered(o, input), w);
        WinnerReports(o, input, cs, wi, w, d);
      }
    }
  }

  lemma ForemostParts(input: DecisionInput, all: seq<EvidenceRecord>, w: EvidenceRecord)
    requires Foremost(input, all, w)
    ensures w in all && Qualifies(input, w)
  {
  }
}
