/**
 * The parts of a decision agree with each other: verdict, citations, contradictions and the
 * consideration cap.
 */
module DecisionCoherence {
  import opened Domain
  import opened Sorting
  import opened DecisionEngine
  import opened DecisionOrder
  import opened DecisionTheorems

  predicate IsSelected(c: EvidenceCitation) {
    c.disposition.Selected?
  }

  predicate IsContradicting(c: EvidenceCitation) {
    c.disposition.Contradicting?
  }

  predicate EscapesLimit(c: EvidenceCitation) {
    !c.disposition.ExcludedByLimit?
  }

  // ---- candidates and citations are in bijection --------------------------

  /** A citation without its disposition and detail: what it says about the record. */
  function Core(c: EvidenceCitation): EvidenceCitation {
    c.(disposition := Selected, detail := "")
  }

  function CandidateCore(c: Candidate): EvidenceCitation {
    Core(Cite(c, Selected))
  }

  lemma CappedCores(o: Oracles, cap: nat, cites: seq<EvidenceCitation>)
    ensures multiset(Map(Core, Capped(o, cap, cites))) == multiset(Map(Core, cites))
  {
    var decisive := Filter(IsDecisive, cites);
    var incidental := Filter(IsIncidental, cites);
    var k := Kept(cap, |decisive|, |incidental|);
    var tail := ExcludeAll(o, cap, incidental[k..]);
    var all := decisive + incidental[..k] + tail;
    FilterPartition(IsDecisive, IsIncidental, cites);
    assert multiset(decisive + incidental) == multiset(cites);
    MapPermutation(Core, decisive + incidental, cites);
    MapPermutation(Core, Sort(CitationBefore, all), all);
    assert Map(Core, all) == Map(Core, decisive + incidental) by {
      assert decisive + incidental == decisive + incidental[..k] + incidental[k..];
    }
  }

  /** The citations of a decision, and its verdict before the final guard. */
  lemma DecisionParts(o: Oracles, input: DecisionInput)
    ensures var cs := Ranked(o, input);
            var cites := Capped(o, input.policy.maxEvidenceConsidered, OrderedCitations(o, input.policy, input.revoked, cs));
            && Decision(o, input).citations == cites
            && VerdictOf(Decision(o, input)) == Guarded(Judge(o, input.policy, input.revoked, cs), cites)
  {
    hide Ranked, Capped, OrderedCitations, Judge, Guarded, DecisionContent;
  }

  lemma OrderedCores(o: Oracles, policy: ClassifierPolicy, revoked: bool, cs: seq<Candidate>)
    ensures multiset(Map(Core, OrderedCitations(o, policy, revoked, cs))) == multiset(Map(CandidateCore, cs))
  {
    hide WinnerIndex, CitedDisposition, FallsShort, Sort;
    var raw := AllCitations(cs, WinnerIndex(revoked, cs));
    MapPermutation(Core, Sort(CitationBefore, raw), raw);
    assert Map(Core, OrderedCitations(o, policy, revoked, cs)) == Map(Core, Sort(CitationBefore, raw));
    assert Map(Core, raw) == Map(CandidateCore, cs);
  }

  /**
   * Every candidate is cited exactly once, with its identity, publisher, source, state, class,
   * confidence, generation and ticks, and nothing else is cited.
   */
  lemma CitationsCoverCandidates(o: Oracles, input: DecisionInput)
    ensures multiset(Map(Core, Decision(o, input).citations)) == multiset(Map(CandidateCore, Pool(o, input)))
  {
    hide Decision, Pool, OrderedCitations, Capped, Map, Sort, Judge, Guarded, VerdictOf;
    var cs := Ranked(o, input);
    DecisionParts(o, input);
    CappedCores(o, input.policy.maxEvidenceConsidered, OrderedCitations(o, input.policy, input.revoked, cs));
    OrderedCores(o, input.policy, input.revoked, cs);
    MapPermutation(CandidateCore, cs, Pool(o, input));
  }

  // ---- the cap ------------------------------------------------------------

  /** The cap neither removes nor adds a decisive citation. */
  lemma CapKeepsDecisive(o: Oracles, cap: nat, cites: seq<EvidenceCitation>, p: EvidenceCitation -> bool)
    requires forall c :: p(c) ==> IsDecisive(c)
    ensures multiset(Filter(p, Capped(o, cap, cites))) == multiset(Filter(p, cites))
    ensures |Filter(p, Capped(o, cap, cites))| == |Filter(p, cites)|
  {
    var decisive := Filter(IsDecisive, cites);
    var incidental := Filter(IsIncidental, cites);
    var k := Kept(cap, |decisive|, |incidental|);
    var tail := ExcludeAll(o, cap, incidental[k..]);
    FilterPartition(IsDecisive, IsIncidental, cites);
    FilterMembers(IsIncidental, cites);
    FilterPermutation(p, decisive + incidental, cites);
    FilterPermutation(p, Sort(CitationBefore, decisive + incidental[..k] + tail), decisive + incidental[..k] + tail);
    FilterConcat(p, decisive, incidental);
    FilterConcat(p, decisive + incidental[..k], tail);
    FilterConcat(p, decisive, incidental[..k]);
    FilterNone(p, incidental);
    FilterNone(p, incidental[..k]);
    FilterNone(p, tail);
  }

  function Max(a: nat, b: nat): nat {
    if a < b then b else a
  }

  function Min(a: nat, b: nat): nat {
    if a < b then a else b
  }

  lemma CappedCount(o: Oracles, cap: nat, cites: seq<EvidenceCitation>)
    requires forall c | c in cites :: EscapesLimit(c)
    ensures |Capped(o, cap, cites)| == |cites|
    ensures |Filter(EscapesLimit, Capped(o, cap, cites))| == Max(|Filter(IsDecisive, cites)|, Min(|cites|, cap))
  {
    var decisive := Filter(IsDecisive, cites);
    var incidental := Filter(IsIncidental, cites);
    var k := Kept(cap, |decisive|, |incidental|);
    var tail := ExcludeAll(o, cap, incidental[k..]);
    FilterPartition(IsDecisive, IsIncidental, cites);
    FilterMembers(IsDecisive, cites);
    FilterMembers(IsIncidental, cites);
    FilterPermutation(EscapesLimit, Sort(CitationBefore, decisive + incidental[..k] + tail), decisive + incidental[..k] + tail);
    FilterConcat(EscapesLimit, decisive + incidental[..k], tail);
    FilterAll(EscapesLimit, decisive + incidental[..k]);
    FilterNone(EscapesLimit, tail);
  }

  lemma AssessDisposition(o: Oracles, input: DecisionInput, c: Candidate)
    requires c.disposition.Selected? || c.disposition.RejectedRecord?
    ensures var a := Assess(o, input, c);
            && (a.disposition.Selected? ==> Standing(a))
            && !a.disposition.ExcludedByLimit?
            && !a.disposition.Contradicting?
            && !a.disposition.Corroborating?
  {
  }

  lemma RankedDisposition(o: Oracles, input: DecisionInput, c: Candidate) returns (raw: Candidate)
    requires c in Ranked(o, input)
    ensures raw.disposition.Selected? || raw.disposition.RejectedRecord?
    ensures c == Assess(o, input, raw)
  {
    MultisetMembership(Ranked(o, input), Pool(o, input));
    var pool := Pool(o, input);
    var i :| 0 <= i < |pool| && pool[i] == c;
    raw := (EvidenceCandidates(o, input.evidence) + DerivedCandidates(o, input))[i];
  }

  ghost predicate WellDisposed(cs: seq<Candidate>) {
    forall i | 0 <= i < |cs| ::
      && (cs[i].disposition.Selected? ==> Standing(cs[i]))
      && !cs[i].disposition.ExcludedByLimit?
      && !cs[i].disposition.Contradicting?
      && !cs[i].disposition.Corroborating?
  }

  lemma RankedWellDisposed(o: Oracles, input: DecisionInput)
    ensures WellDisposed(Ranked(o, input))
  {
    var cs := Ranked(o, input);
    forall i | 0 <= i < |cs|
      ensures cs[i].disposition.Selected? ==> Standing(cs[i])
      ensures !cs[i].disposition.ExcludedByLimit? && !cs[i].disposition.Contradicting? && !cs[i].disposition.Corroborating?
    {
      var raw := RankedDisposition(o, input, cs[i]);
      AssessDisposition(o, input, raw);
    }
  }

  lemma OrderedEscapeLimit(o: Oracles, policy: ClassifierPolicy, revoked: bool, cs: seq<Candidate>)
    requires WellDisposed(cs)
    ensures forall c | c in OrderedCitations(o, policy, revoked, cs) :: EscapesLimit(c)
    ensures |OrderedCitations(o, policy, revoked, cs)| == |cs|
  {
    hide WinnerIndex, FallsShort, Sort;
    var raw := AllCitations(cs, WinnerIndex(revoked, cs));
    var sorted := Sort(CitationBefore, raw);
    MultisetMembership(sorted, raw);
    forall i | 0 <= i < |sorted|
      ensures EscapesLimit(sorted[i])
    {
      assert sorted[i] in raw;
    }
  }

  /**
   * The cap is exact: with `total` citations, `d` of them decisive, exactly
   * max(d, min(total, cap)) are not reported as excluded by the limit.
   */
  lemma CapIsExact(o: Oracles, input: DecisionInput)
    ensures var d := Decision(o, input);
            && |d.citations| == |Pool(o, input)|
            && |Filter(EscapesLimit, d.citations)|
               == Max(|Filter(IsDecisive, d.citations)|, Min(|d.citations|, input.policy.maxEvidenceConsidered))
  {
    hide Decision, Pool, OrderedCitations, Capped, Filter, Sort, Judge, Guarded, VerdictOf, WellDisposed;
    var cs := Ranked(o, input);
    var ordered := OrderedCitations(o, input.policy, input.revoked, cs);
    var cap := input.policy.maxEvidenceConsidered;
    DecisionParts(o, input);
    RankedWellDisposed(o, input);
    OrderedEscapeLimit(o, input.policy, input.revoked, cs);
    CappedCount(o, cap, ordered);
    CapKeepsDecisive(o, cap, ordered, IsDecisive);
  }

  // ---- the selected citation ----------------------------------------------

  lemma {:induction false} SelectedPrefix(cs: seq<Candidate>, wi: nat, n: nat)
    requires wi <= |cs| && n <= |cs| && WellDisposed(cs)
    ensures Filter(IsSelected, AllCitations(cs, wi)[..n]) == if wi < n then [Cite(cs[wi], Selected)] else []
  {
    if n > 0 {
      var cites := AllCitations(cs, wi);
      assert cites[..n][..n - 1] == cites[..n - 1];
      SelectedPrefix(cs, wi, n - 1);
    }
  }

  lemma SelectedCitations(cs: seq<Candidate>, wi: nat)
    requires wi <= |cs| && WellDisposed(cs)
    ensures Filter(IsSelected, AllCitations(cs, wi)) == if wi < |cs| then [Cite(cs[wi], Selected)] else []
  {
    SelectedPrefix(cs, wi, |cs|);
    assert AllCitations(cs, wi)[..|cs|] == AllCitations(cs, wi);
  }

  lemma SingletonPermutation<T(!new)>(s: seq<T>, x: T)
    requires multiset(s) == multiset([x])
    ensures s == [x]
  {
    assert |multiset(s)| == |multiset([x])|;
    assert s[0] in multiset(s);
  }

  /** A demoted winner leaves no selected citation. */
  lemma DemotedSelected(o: Oracles, cs: seq<Candidate>, wi: nat, cites: seq<EvidenceCitation>)
    requires wi < |cs| && WellDisposed(cs)
    requires multiset(cites) == multiset(AllCitations(cs, wi))
    ensures Filter(IsSelected, DemoteWinner(o, cs[wi].record.id, cites)) == []
  {
    SelectedCitations(cs, wi);
    FilterMembers(IsSelected, AllCitations(cs, wi));
    MultisetMembership(cites, AllCitations(cs, wi));
    var demoted := DemoteWinner(o, cs[wi].record.id, cites);
    forall c | c in demoted
      ensures !IsSelected(c)
    {
      var i :| 0 <= i < |demoted| && demoted[i] == c;
      assert cites[i] in AllCitations(cs, wi);
      if IsSelected(cites[i]) {
        assert cites[i] in [Cite(cs[wi], Selected)];
      }
    }
    FilterNone(IsSelected, demoted);
  }

  /** The winner is published: it exists, nothing revokes it and it reaches the threshold. */
  ghost predicate Published(o: Oracles, input: DecisionInput) {
    var cs := Ranked(o, input);
    var wi := WinnerIndex(input.revoked, cs);
    wi < |cs| && !FallsShort(o, input.policy, cs, wi)
  }

  lemma PublishedCitations(o: Oracles, input: DecisionInput, p: EvidenceCitation -> bool)
    requires forall c :: p(c) ==> IsDecisive(c)
    requires Published(o, input)
    ensures var cs := Ranked(o, input);
            multiset(Filter(p, Decision(o, input).citations))
            == multiset(Filter(p, AllCitations(cs, WinnerIndex(input.revoked, cs))))
  {
    hide Decision, Ranked, WinnerIndex, AllCitations, Capped, Filter, Sort, Judge, Guarded, VerdictOf, FallsShort;
    var cs := Ranked(o, input);
    var raw := AllCitations(cs, WinnerIndex(input.revoked, cs));
    var ordered := OrderedCitations(o, input.policy, input.revoked, cs);
    DecisionParts(o, input);
    CapKeepsDecisive(o, input.policy.maxEvidenceConsidered, ordered, p);
    FilterPermutation(p, ordered, raw);
  }

  /** A published winner has exactly one selected citation, its own; otherwise there is none. */
  lemma SelectedIsWinner(o: Oracles, input: DecisionInput)
    ensures var cs := Ranked(o, input);
            var wi := WinnerIndex(input.revoked, cs);
            Filter(IsSelected, Decision(o, input).citations)
            == if Published(o, input) then [Cite(cs[wi], Selected)] else []
  {
    hide Decision, Ranked, WinnerIndex, AllCitations, Capped, Filter, Sort, Judge, Guarded, VerdictOf, WinnerVerdict,
         WellDisposed, DemoteWinner, Cite;
    var cs := Ranked(o, input);
    var wi := WinnerIndex(input.revoked, cs);
    var raw := AllCitations(cs, wi);
    DecisionParts(o, input);
    RankedWellDisposed(o, input);
    SelectedCitations(cs, wi);
    if Published(o, input) {
      PublishedCitations(o, input, IsSelected);
      SingletonPermutation(Filter(IsSelected, Decision(o, input).citations), Cite(cs[wi], Selected));
    } else {
      var ordered := OrderedCitations(o, input.policy, input.revoked, cs);
      CapKeepsDecisive(o, input.policy.maxEvidenceConsidered, ordered, IsSelected);
      if FallsShort(o, input.policy, cs, wi) {
        DemotedSelected(o, cs, wi, Sort(CitationBefore, raw));
      } else {
        FilterPermutation(IsSelected, ordered, raw);
      }
    }
  }

  /** The final guard never fires: the decision reports the verdict that was reached. */
  lemma GuardNeverFires(o: Oracles, input: DecisionInput)
    ensures VerdictOf(Decision(o, input)) == Judge(o, input.policy, input.revoked, Ranked(o, input))
  {
    hide Decision, Ranked, Capped, OrderedCitations, Filter, VerdictOf, FallsShort, WinnerVerdict;
    var cs := Ranked(o, input);
    var wi := WinnerIndex(input.revoked, cs);
    var v := Judge(o, input.policy, input.revoked, cs);
    var cites := Capped(o, input.policy.maxEvidenceConsidered, OrderedCitations(o, input.policy, input.revoked, cs));
    DecisionParts(o, input);
    if Published(o, input) {
      SelectedIsWinner(o, input);
      RankedWellDisposed(o, input);
      FilterMembers(IsSelected, cites);
      assert Cite(cs[wi], Selected) in Filter(IsSelected, cites);
      var i :| 0 <= i < |cites| && cites[i] == Cite(cs[wi], Selected);
      WinnerVerdictNames(o, input.policy, cs, cs[wi].record);
      assert Justifies(v.semantic, cites[i]);
    }
  }

  lemma WinnerVerdictNames(o: Oracles, policy: ClassifierPolicy, cs: seq<Candidate>, w: EvidenceRecord)
    ensures WinnerVerdict(o, policy, cs, w).semantic == w.semantic
  {
    hide Corroboration, Contradictions;
  }

  /** Every field of a decision that reports no class says so. */
  ghost predicate ReportsNothing(d: Classification) {
    && d.semantic == UnknownClass
    && d.confidence == 0
    && d.selectedEvidence == ""
    && d.selectedSource == UnknownSource
    && d.corroborationCount == 0
    && d.contradictions == []
    && d.appliedPenalty == 0
    && d.state in {Revoked, Stale, Insufficient}
    && Filter(IsSelected, d.citations) == []
  }

  /** A reported class is carried by one selected, current citation within its source's bound. */
  ghost predicate ReportsClass(policy: ClassifierPolicy, d: Classification) {
    && d.semantic != UnknownClass
    && d.state in {Current, Corroborated, Contradicted}
    && policy.minimumPublishableConfidence <= d.confidence <= SourceConfidence(d.selectedSource)
    && (d.state == Contradicted <==> d.contradictions != [])
    && (d.state == Current ==> d.corroborationCount == 0)
    && d.appliedPenalty == (if d.contradictions == [] then 0 else policy.contradictionPenalty)
    && (exists e :: Filter(IsSelected, d.citations) == [e] && Supports(d, e))
  }

  ghost predicate Supports(d: Classification, e: EvidenceCitation) {
    && e.id == d.selectedEvidence
    && e.source == d.selectedSource
    && e.semantic == d.semantic
    && e.state == EvidenceCurrent
  }

  /** A decision either reports nothing at all, or a class it can support. */
  lemma DecisionIsCoherent(o: Oracles, input: DecisionInput)
    ensures var d := Decision(o, input);
            if Published(o, input) then ReportsClass(input.policy, d) else ReportsNothing(d)
  {
    hide Decision, Ranked, Filter, Corroboration, Opponents;
    var cs := Ranked(o, input);
    var wi := WinnerIndex(input.revoked, cs);
    GuardNeverFires(o, input);
    SelectedIsWinner(o, input);
    RankedWellDisposed(o, input);
    var d := Decision(o, input);
    var v := Judge(o, input.policy, input.revoked, cs);
    assert VerdictOf(d) == v;
    if Published(o, input) {
      var w := cs[wi].record;
      assert v == WinnerVerdict(o, input.policy, cs, w);
      assert Filter(IsSelected, d.citations) == [Cite(cs[wi], Selected)] && Supports(d, Cite(cs[wi], Selected));
    }
  }

  // ---- contradictions -----------------------------------------------------

  lemma {:induction false} ContradictingPrefix(cs: seq<Candidate>, wi: nat, n: nat)
    requires wi < |cs| && n <= |cs| && WellDisposed(cs)
    ensures Filter(IsContradicting, AllCitations(cs, wi)[..n])
            == Map(c => Cite(c, Contradicting), Filter(DisagreesWith(cs[wi].record), cs[..n]))
  {
    hide Cite, CitedDisposition, WellDisposed, IsContradicting, Disagrees;
    if n > 0 {
      var cites := AllCitations(cs, wi);
      assert cites[..n][..n - 1] == cites[..n - 1];
      assert cs[..n][..n - 1] == cs[..n - 1];
      ContradictingPrefix(cs, wi, n - 1);
      ContradictingOne(cs, wi, n - 1);
    }
  }

  lemma ContradictingOne(cs: seq<Candidate>, wi: nat, i: nat)
    requires wi < |cs| && i < |cs| && WellDisposed(cs)
    ensures var cite := Cite(cs[i], CitedDisposition(cs, wi, i));
            && (IsContradicting(cite) <==> Disagrees(cs[wi].record, cs[i]))
            && (IsContradicting(cite) ==> cite == Cite(cs[i], Contradicting))
  {
  }

  /** The contradicting citations are those of the opponents of the published winner. */
  lemma ContradictingAreOpponents(o: Oracles, input: DecisionInput)
    requires Published(o, input)
    ensures var cs := Ranked(o, input);
            var w := cs[WinnerIndex(input.revoked, cs)].record;
            multiset(Filter(IsContradicting, Decision(o, input).citations))
            == multiset(Map(c => Cite(c, Contradicting), Opponents(cs, w)))
  {
    hide Decision, Ranked, Filter, WinnerIndex, CitedDisposition, Cite, WellDisposed, Sort;
    var cs := Ranked(o, input);
    var wi := WinnerIndex(input.revoked, cs);
    var w := cs[wi].record;
    var cite := (c: Candidate) => Cite(c, Contradicting);
    RankedWellDisposed(o, input);
    PublishedCitations(o, input, IsContradicting);
    ContradictingPrefix(cs, wi, |cs|);
    assert AllCitations(cs, wi)[..|cs|] == AllCitations(cs, wi) && cs[..|cs|] == cs;
    MapPermutation(cite, Opponents(cs, w), Filter(DisagreesWith(w), cs));
    assert Map(cite, Filter(DisagreesWith(w), cs)) == Map(c => Cite(c, Contradicting), Filter(DisagreesWith(w), cs));
    assert Map(cite, Opponents(cs, w)) == Map(c => Cite(c, Contradicting), Opponents(cs, w));
  }

  /** Every reported contradiction pits the selected record against one it outranks. */
  lemma ContradictionsAreOutranked(o: Oracles, input: DecisionInput, k: nat)
    requires DistinctIds(input.evidence)
    requires k < |Decision(o, input).contradictions|
    ensures var c := Decision(o, input).contradictions[k];
            && c.leftId == Decision(o, input).selectedEvidence
            && c.leftClass == Decision(o, input).semantic
            && c.rightClass != c.leftClass
            && c.rightClass != UnknownClass
            && exists w, r | w in Considered(o, input) && r in Considered(o, input) ::
                 && (w.id, w.source) == (c.leftId, c.leftSource)
                 && (r.id, r.source, r.semantic) == (c.rightId, c.rightSource, c.rightClass)
                 && Authoritative(input, r)
                 && RanksAbove(w, r)
  {
    hide Decision, Ranked, Filter, Corroboration, NoWinnerState, Sort, Considered, RanksAbove, Assess;
    var cs := Ranked(o, input);
    var wi := WinnerIndex(input.revoked, cs);
    GuardNeverFires(o, input);
    DecisionIsCoherent(o, input);
    assert Decision(o, input).contradictions == Judge(o, input.policy, input.revoked, cs).contradictions;
    assert Published(o, input);
    var w := cs[wi].record;
    var opponents := Opponents(cs, w);
    assert Decision(o, input).contradictions[k] == ContradictionOf(o, w, opponents[k].record);
    MultisetMembership(opponents, Filter(DisagreesWith(w), cs));
    FilterMembers(DisagreesWith(w), cs);
    assert opponents[k] in opponents;
    WinnerIsUniqueMaximum(o, input);
    var r := RankedSource(o, input, opponents[k]);
    AssessSelects(o, input, r);
    assert r == opponents[k].record;
    assert w in Considered(o, input) && Decides(input, r) && RanksAbove(w, r);
  }

  // ---- the two statements about whole decisions ---------------------------

  /** Records without authority cannot move the verdict of a decision. */
  lemma DecisionNonInterference(o: Oracles, input: DecisionInput, x: EvidenceRecord)
    requires DistinctIds(input.evidence) && UnusedId(o, input, x.id)
    requires !Authoritative(input, x)
    ensures SameVerdict(VerdictOf(Decision(o, input)), VerdictOf(Decision(o, WithRecord(input, x))),
                        input.revoked || exists r | r in Considered(o, input) :: Decides(input, r))
  {
    GuardNeverFires(o, input);
    GuardNeverFires(o, WithRecord(input, x));
    NonInterference(o, input, x);
  }
}
