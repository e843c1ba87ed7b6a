/** What each citation of a decision says about the record it cites, spelled out. */
module CitationMeaning {
  import opened Domain
  import opened Sorting
  import opened DecisionEngine
  import opened DecisionOrder
  import opened DecisionTheorems
  import opened DecisionCoherence
  import opened DecisionMeaning

  /** The record that decides, if one does. */
  ghost predicate DecidedBy(input: DecisionInput, all: seq<EvidenceRecord>, w: Option<EvidenceRecord>) {
    match w
    case None => input.revoked || forall r | r in all :: !Qualifies(input, r)
    case Some(x) => !input.revoked && Foremost(input, all, x)
  }

  /** The state a record is cited in. */
  function StateNow(input: DecisionInput, r: EvidenceRecord): EvidenceState {
    if r.flowId != input.flow.id || r.flowGeneration != input.flow.generation then EvidenceStale
    else if r.state != EvidenceCurrent then r.state
    else if r.acceptedEpoch != input.authority.epoch then EvidenceStale
    else if r.source == Heuristic && !input.policy.allowHeuristicEvidence then EvidenceRejected
    else if CurrentNow(input, r) then EvidenceCurrent
    else EvidenceStale
  }

  /** What the record did for the decision, before any limit on how many are shown. */
  function Part(input: DecisionInput, w: Option<EvidenceRecord>, published: bool, r: EvidenceRecord): Disposition {
    if w == Some(r) then (if published then Selected else BelowThreshold)
    else match StateNow(input, r)
         case EvidenceCurrent =>
           if r.source == Heuristic || w.None? || r.semantic == UnknownClass then Subordinate
           else if r.semantic == w.value.semantic then Corroborating
           else Contradicting
         case EvidenceStale => StaleRecord
         case EvidenceSuperseded => Withdrawn
         case EvidenceRevoked => RevokedRecord
         case EvidenceInsufficient => BelowThreshold
         case EvidenceRejected => RejectedRecord
         case EvidenceNone => RejectedRecord
  }

  predicate Decisive(d: Disposition) {
    d in {Selected, Corroborating, Contradicting}
  }

  /** The citation is of this record and says what it did, or that it was left out by the limit. */
  ghost predicate Tells(input: DecisionInput, w: Option<EvidenceRecord>, published: bool, r: EvidenceRecord,
                        c: EvidenceCitation)
  {
    && c.id == r.id && c.publisher == r.publisher && c.source == r.source && c.semantic == r.semantic
    && c.confidence == r.confidence && c.generation == r.generation && c.acceptedSeq == r.acceptedSeq
    && c.acceptedTick == r.acceptedTick && c.freshUntil == r.freshUntil
    && c.state == StateNow(input, r)
    && (|| c.disposition == Part(input, w, published, r)
        || (c.disposition == ExcludedByLimit && !Decisive(Part(input, w, published, r))))
  }

  // ---- proof --------------------------------------------------------------

  lemma AssessedCited(o: Oracles, input: DecisionInput, w: Option<EvidenceRecord>, r: EvidenceRecord)
    requires w.Some? ==> Qualifies(input, w.value)
    ensures var a := Assess(o, input, Fresh(r));
            && a.record.state == StateNow(input, r)
            && a.record == r.(state := a.record.state, stateReason := a.record.stateReason)
            && (a.record.state != EvidenceCurrent ==> w != Some(r) && a.disposition == Part(input, w, true, r))
  {
  }

  lemma RawCited(o: Oracles, input: DecisionInput, cs: seq<Candidate>, wi: nat, w: Option<EvidenceRecord>, i: nat,
                 r: EvidenceRecord)
    requires wi <= |cs| && i < |cs| && cs[i] == Assess(o, input, Fresh(r))
    requires wi < |cs| ==> w == Some(cs[wi].record) && Qualifies(input, cs[wi].record)
    requires wi == |cs| ==> w == None
    requires i == wi ==> w == Some(r)
    requires i != wi ==> w != Some(r)
    ensures Tells(input, w, true, r, Cite(cs[i], CitedDisposition(cs, wi, i)))
    ensures CitedDisposition(cs, wi, i) == Part(input, w, true, r)
  {
    hide Assess;
    AssessedCited(o, input, w, r);
  }

  lemma CappedFrom(o: Oracles, cap: nat, cites: seq<EvidenceCitation>, c: EvidenceCitation) returns (x: EvidenceCitation)
    requires c in Capped(o, cap, cites)
    ensures x in cites && (c == x || (c == Excluded(o, cap, x) && !IsDecisive(x)))
  {
    hide Filter, Kept, Sort, IsDecisive;
    var decisive, incidental := Filter(IsDecisive, cites), Filter(IsIncidental, cites);
    var k := Kept(cap, |decisive|, |incidental|);
    var all := decisive + incidental[..k] + ExcludeAll(o, cap, incidental[k..]);
    FilterMembers(IsDecisive, cites);
    FilterMembers(IsIncidental, cites);
    MultisetMembership(Sort(CitationBefore, all), all);
    assert c in all;
    var i :| 0 <= i < |all| && all[i] == c;
    if i < |decisive| {
      x := decisive[i];
      assert x in decisive;
    } else {
      x := incidental[i - |decisive|];
      assert x in incidental;
    }
  }

  lemma OrderedFrom(o: Oracles, policy: ClassifierPolicy, revoked: bool, cs: seq<Candidate>, x: EvidenceCitation)
    returns (i: nat)
    requires x in OrderedCitations(o, policy, revoked, cs)
    ensures var wi := WinnerIndex(revoked, cs);
            && i < |cs|
            && var raw := Cite(cs[i], CitedDisposition(cs, wi, i));
               x == if FallsShort(o, policy, cs, wi) then Demoted(o, cs[wi].record.id, raw) else raw
  {
    hide Sort, FallsShort, CitedDisposition, WinnerIndex, Cite, Demoted;
    var wi := WinnerIndex(revoked, cs);
    var raws := AllCitations(cs, wi);
    var sorted := Sort(CitationBefore, raws);
    MultisetMembership(sorted, raws);
    var ordered := OrderedCitations(o, policy, revoked, cs);
    var j :| 0 <= j < |ordered| && ordered[j] == x;
    assert sorted[j] in raws;
    i :| 0 <= i < |raws| && raws[i] == sorted[j];
  }

  lemma OneForemost(input: DecisionInput, all: seq<EvidenceRecord>, x: EvidenceRecord, y: EvidenceRecord)
    requires Foremost(input, all, x) && Foremost(input, all, y)
    ensures x == y
  {
    hide Qualifies, Ahead, RanksAbove;
    if x != y {
      RanksAboveIsAhead(x, y);
      RanksAboveIsAhead(y, x);
      RanksAboveAsymmetric(x, y);
    }
  }

  /** The candidate that wins, in terms of the record that decides. */
  lemma WinnerIsDecider(o: Oracles, input: DecisionInput, w: Option<EvidenceRecord>)
    requires DistinctIds(input.evidence) && DecidedBy(input, Considered(o, input), w)
    ensures var cs := Ranked(o, input);
            var wi := WinnerIndex(input.revoked, cs);
            if wi < |cs| then w == Some(cs[wi].record) && Qualifies(input, cs[wi].record) else w == None
  {
    hide Ranked, Considered, FirstWinner, Qualifies, Authoritative, Foremost, UniqueMaximum;
    var cs := Ranked(o, input);
    if !input.revoked {
      WinnerIsUniqueMaximum(o, input);
      forall r
        ensures Qualifies(input, r) <==> Decides(input, r)
      {
        CountsIsAuthoritative(input, r);
      }
      var wi := FirstWinner(cs);
      if wi < |cs| {
        ForemostIs(o, input, cs[wi].record);
        ForemostParts(input, Considered(o, input), cs[wi].record);
      }
      if w.Some? {
        ForemostParts(input, Considered(o, input), w.value);
        OneForemost(input, Considered(o, input), cs[wi].record, w.value);
      }
    }
  }

  lemma RankedApart(o: Oracles, input: DecisionInput)
    requires DistinctIds(input.evidence)
    ensures DistinctCandidates(Ranked(o, input))
  {
    hide Ranked, Filter;
    FilteredDistinct(o, input, c => true);
    FilterAll(c => true, Ranked(o, input));
  }

  lemma DemotedTells(o: Oracles, input: DecisionInput, w: EvidenceRecord, r: EvidenceRecord, raw: EvidenceCitation)
    requires Tells(input, Some(w), true, r, raw) && raw.disposition == Part(input, Some(w), true, r)
    requires r != w ==> r.id != w.id
    ensures var x := Demoted(o, w.id, raw);
            Tells(input, Some(w), false, r, x) && x.disposition == Part(input, Some(w), false, r)
  {
    hide CurrentNow;
  }

  lemma ExcludedTells(o: Oracles, cap: nat, input: DecisionInput, w: Option<EvidenceRecord>, published: bool, r: EvidenceRecord,
                      x: EvidenceCitation)
    requires Tells(input, w, published, r, x) && x.disposition == Part(input, w, published, r) && !IsDecisive(x)
    ensures Tells(input, w, published, r, Excluded(o, cap, x))
  {
    hide Part, StateNow;
  }

  lemma PartUnpublished(input: DecisionInput, r: EvidenceRecord)
    ensures Part(input, None, true, r) == Part(input, None, false, r)
  {
  }

  /** Every citation of a decision is of a considered record, and says what that record did. */
  lemma CitationsMean(o: Oracles, input: DecisionInput, w: Option<EvidenceRecord>, c: EvidenceCitation)
    returns (r: EvidenceRecord)
    requires DistinctIds(input.evidence) && DecidedBy(input, Considered(o, input), w)
    requires c in Decision(o, input).citations
    ensures r in Considered(o, input)
    ensures Tells(input, w, Decision(o, input).semantic != UnknownClass, r, c)
  {
    hide Decision, Ranked, Considered, WinnerIndex, FallsShort, CitedDisposition, Cite, Demoted, Excluded, Tells, Part,
         Capped, OrderedCitations, Assess, Qualifies, IsDecisive, DecidedBy;
    var cs := Ranked(o, input);
    var wi := WinnerIndex(input.revoked, cs);
    DecisionParts(o, input);
    WinnerIsDecider(o, input, w);
    RankedApart(o, input);
    var ordered := OrderedCitations(o, input.policy, input.revoked, cs);
    var x := CappedFrom(o, input.policy.maxEvidenceConsidered, ordered, c);
    var i := OrderedFrom(o, input.policy, input.revoked, cs, x);
    r := RankedSource(o, input, cs[i]);
    AssessKeepsId(o, input, Fresh(r));
    if wi < |cs| {
      var v := RankedSource(o, input, cs[wi]);
      AssessKeepsId(o, input, Fresh(v));
    }
    WinnerIsRecord(o, input, cs, wi, i, r);
    RawCited(o, input, cs, wi, w, i, r);
    var raw := Cite(cs[i], CitedDisposition(cs, wi, i));
    PublishedNames(o, input);
    ShortNeedsWinner(o, input.policy, cs, wi);
    CiteDisposes(cs[i], CitedDisposition(cs, wi, i));
    if w.Some? && !Published(o, input) {
      DemotedTells(o, input, w.value, r, raw);
    }
    PartUnpublished(input, r);
    TellsUnpublished(input, r, raw);
    if c != x {
      ExcludedTells(o, input.policy.maxEvidenceConsidered, input, w, Decision(o, input).semantic != UnknownClass, r, x);
    }
  }

  lemma ShortNeedsWinner(o: Oracles, policy: ClassifierPolicy, cs: seq<Candidate>, wi: nat)
    ensures FallsShort(o, policy, cs, wi) ==> wi < |cs|
  {
  }

  lemma CiteDisposes(c: Candidate, d: Disposition)
    ensures Cite(c, d).disposition == d
  {
  }

  lemma TellsUnpublished(input: DecisionInput, r: EvidenceRecord, c: EvidenceCitation)
    ensures Tells(input, None, true, r, c) <==> Tells(input, None, false, r, c)
  {
  }

  lemma PublishedNames(o: Oracles, input: DecisionInput)
    ensures Published(o, input) <==> Decision(o, input).semantic != UnknownClass
  {
    hide Decision, Published;
    DecisionIsCoherent(o, input);
  }

  lemma WinnerIsRecord(o: Oracles, input: DecisionInput, cs: seq<Candidate>, wi: nat, i: nat, r: EvidenceRecord)
    requires i < |cs| && DistinctCandidates(cs) && cs[i] == Assess(o, input, Fresh(r))
    requires wi < |cs| ==> Qualifies(input, cs[wi].record)
    ensures i == wi ==> cs[i].record == r
    ensures wi < |cs| && i != wi ==> cs[wi].record.id != r.id
  {
    AssessedCited(o, input, None, r);
  }
}
