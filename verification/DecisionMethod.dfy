/**
 * The engine as it runs: a candidate list that is filled, assessed in place, sorted and
 * walked.  Each method computes the corresponding value of DecisionEngine.dfy.
 */
module DecisionMethod {
  import opened Domain
  import opened Sorting
  import opened DecisionEngine
  import opened DecisionCoherence

  // ---- 1. the candidate pool ----------------------------------------------

  method CollectEvidence(o: Oracles, records: seq<EvidenceRecord>) returns (candidates: seq<Candidate>, seen: set<string>)
    ensures candidates == EvidenceCandidates(o, records)
    ensures forall id :: id in seen <==> IdIn(records, id)
  {
    candidates, seen := [], {};
    for i := 0 to |records|
      invariant |candidates| == i
      invariant forall k | 0 <= k < i :: candidates[k] == EvidenceCandidate(o, records, k)
      invariant forall id :: id in seen <==> exists j | 0 <= j < i :: records[j].id == id
    {
      if records[i].id in seen {
        candidates := candidates + [Candidate(records[i], RejectedRecord, o.render(DuplicateIdentityPhrase))];
      } else {
        seen := seen + {records[i].id};
        candidates := candidates + [Candidate(records[i], Selected, "")];
      }
    }
  }

  method FindWorkload(workloads: seq<WorkloadRecord>, id: string) returns (generation: Option<nat>)
    ensures generation == WorkloadGeneration(workloads, id)
  {
    generation := None;
    var i := 0;
    while i < |workloads|
      invariant 0 <= i <= |workloads|
      invariant WorkloadGeneration(workloads, id) == WorkloadGeneration(workloads[i..], id)
    {
      if workloads[i].id == id {
        generation := Some(workloads[i].generation);
        return;
      }
      assert workloads[i..][1..] == workloads[i + 1..];
      i := i + 1;
    }
  }

  method CollectDerived(o: Oracles, input: DecisionInput, evidenceIds: set<string>) returns (derived: seq<Candidate>)
    requires forall id :: id in evidenceIds <==> IdIn(input.evidence, id)
    ensures derived == DerivedCandidates(o, input)
  {
    hide ContractCovers, DerivedId;
    var seen := evidenceIds;
    derived := [];
    for i := 0 to |input.contracts|
      invariant |derived| == |DerivedRecords(o, input, i)|
      invariant forall k | 0 <= k < |derived| :: derived[k] == Fresh(DerivedRecords(o, input, i)[k])
      invariant forall id :: id in seen <==> IdIn(input.evidence, id) || IdIn(DerivedRecords(o, input, i), id)
    {
      var c := input.contracts[i];
      ghost var before := DerivedRecords(o, input, i);
      if c.state == ContractActive && ContractCovers(c, input.flow.key) {
        var current := FindWorkload(input.workloads, c.workload);
        if current == Some(c.workloadGeneration) {
          var record := DerivedRecord(o, input, c);
          if record.id !in seen {
            seen := seen + {record.id};
            derived := derived + [Fresh(record)];
            assert DerivedRecords(o, input, i + 1) == before + [record];
            assert forall id :: IdIn(before + [record], id) <==> IdIn(before, id) || id == record.id by {
              assert (before + [record])[|before|] == record;
              assert forall j | 0 <= j < |before| :: (before + [record])[j] == before[j];
            }
          }
        }
      }
    }
  }

  // ---- 2. currentness -----------------------------------------------------

  method AssessCandidate(o: Oracles, input: DecisionInput, c: Candidate) returns (a: Candidate)
    ensures a == Assess(o, input, c)
  {
    a := c;
    if c.disposition == RejectedRecord {
      return;
    }
    var r := c.record;
    if r.flowId != input.flow.id || r.flowGeneration != input.flow.generation {
      return Candidate(r.(state := EvidenceStale, stateReason := o.render(OtherGenerationReason)), StaleRecord,
                       o.render(OtherGenerationDetail(r.flowGeneration, input.flow.generation)));
    }
    if r.state == EvidenceCurrent {
      if r.acceptedEpoch != input.authority.epoch {
        r := r.(state := EvidenceStale, stateReason := o.render(OtherEpoch(r.acceptedEpoch, input.authority.epoch)));
      } else if r.source == Heuristic && !input.policy.allowHeuristicEvidence {
        r := r.(state := EvidenceRejected, stateReason := o.render(HeuristicsNotPermitted));
      } else if RequiresLiveSession(r.source) && (r.publisher, r.publisherBoot) !in input.authority.live {
        var reason := if r.publisher in input.authority.known then PublisherNotLive(r.publisher, r.publisherBoot)
                      else PublisherNotRegistered(r.publisher);
        r := r.(state := EvidenceStale, stateReason := o.render(reason));
      } else if input.authority.tick != 0 && r.freshUntil != 0 && input.authority.tick > r.freshUntil {
        r := r.(state := EvidenceStale, stateReason := o.render(FreshnessExpired(r.freshUntil)));
      }
    }
    a := a.(record := r);
    if r.state != EvidenceCurrent {
      if a.disposition == Selected {
        a := a.(disposition := DispositionForState(r.state));
      }
      if a.detail == "" {
        a := a.(detail := r.stateReason);
      }
    } else if r.source == Heuristic {
      a := Candidate(r, Subordinate, o.render(HeuristicNote));
    }
  }

  method RankCandidates(o: Oracles, input: DecisionInput) returns (candidates: seq<Candidate>)
    ensures candidates == Ranked(o, input)
  {
    var stored, seen := CollectEvidence(o, input.evidence);
    var derived := CollectDerived(o, input, seen);
    candidates := stored + derived;
    ghost var raw := candidates;
    for i := 0 to |candidates|
      invariant |candidates| == |raw|
      invariant forall k | 0 <= k < i :: candidates[k] == Assess(o, input, raw[k])
      invariant forall k | i <= k < |raw| :: candidates[k] == raw[k]
    {
      var assessed := AssessCandidate(o, input, candidates[i]);
      candidates := candidates[i := assessed];
    }
    assert candidates == Pool(o, input);
    candidates := Sort(CandidateBefore, candidates);
  }

  // ---- 3. the winner ------------------------------------------------------

  method FindWinner(revoked: bool, cs: seq<Candidate>) returns (wi: nat)
    ensures wi == WinnerIndex(revoked, cs)
  {
    if revoked {
      return |cs|;
    }
    wi := 0;
    while wi < |cs| && (cs[wi].disposition != Selected || cs[wi].record.semantic == UnknownClass)
      invariant wi <= |cs|
      invariant forall j | 0 <= j < wi :: !CanWin(cs[j])
    {
      wi := wi + 1;
    }
    FirstWinnerIs(cs, wi);
  }

  lemma FirstWinnerIs(cs: seq<Candidate>, wi: nat)
    requires wi <= |cs|
    requires wi < |cs| ==> CanWin(cs[wi])
    requires forall j | 0 <= j < wi :: !CanWin(cs[j])
    ensures FirstWinner(cs) == wi
  {
  }

  // ---- 4. citations and contradictions ------------------------------------

  /** The disposition of one candidate beside the winner, and whether it corroborates. */
  method Dispose(cs: seq<Candidate>, wi: nat, i: nat) returns (disposition: Disposition, corroborates: bool)
    requires wi <= |cs| && i < |cs|
    ensures disposition == CitedDisposition(cs, wi, i)
    ensures corroborates <==> wi < |cs| && i != wi && Agrees(cs[wi].record, cs[i])
  {
    disposition, corroborates := cs[i].disposition, false;
    if i == wi {
      disposition := Selected;
    } else if cs[i].record.state == EvidenceCurrent {
      if cs[i].record.source == Heuristic {
        disposition := Subordinate;
      } else if wi == |cs| {
        disposition := Subordinate;
      } else if cs[i].record.semantic == cs[wi].record.semantic {
        disposition, corroborates := Corroborating, true;
      } else if cs[i].record.semantic == UnknownClass {
        disposition := Subordinate;
      } else {
        disposition := Contradicting;
      }
    }
  }

  method CiteCandidates(cs: seq<Candidate>, wi: nat) returns (cites: seq<EvidenceCitation>, corroboration: nat)
    requires wi <= |cs|
    requires wi < |cs| ==> Standing(cs[wi])
    ensures cites == AllCitations(cs, wi)
    ensures wi < |cs| ==> corroboration == Corroboration(cs, cs[wi].record)
  {
    hide Cite, CitedDisposition;
    cites, corroboration := [], 0;
    for i := 0 to |cs|
      invariant |cites| == i
      invariant forall k | 0 <= k < i :: cites[k] == Cite(cs[k], CitedDisposition(cs, wi, k))
      invariant wi < |cs| ==>
                  corroboration + (if wi < i then 1 else 0) == |Filter(AgreesWith(cs[wi].record), cs[..i])|
    {
      var disposition, corroborates := Dispose(cs, wi, i);
      if corroborates {
        corroboration := corroboration + 1;
      }
      cites := cites + [Cite(cs[i], disposition)];
      assert cs[..i + 1][..i] == cs[..i];
    }
    assert cs[..|cs|] == cs;
  }

  method CollectContradictions(o: Oracles, cs: seq<Candidate>, w: EvidenceRecord) returns (contradictions: seq<Contradiction>)
    ensures contradictions == Contradictions(o, cs, w)
  {
    hide ContradictionOf, Sort, CandidateRanksAbove;
    var contradicting: seq<Candidate> := [];
    for i := 0 to |cs|
      invariant contradicting == Filter(DisagreesWith(w), cs[..i])
    {
      if && cs[i].record.state == EvidenceCurrent
         && cs[i].record.source != Heuristic
         && cs[i].record.semantic != w.semantic
         && cs[i].record.semantic != UnknownClass
      {
        contradicting := contradicting + [cs[i]];
      }
      assert cs[..i + 1][..i] == cs[..i];
    }
    assert cs[..|cs|] == cs;
    contradicting := Sort(CandidateRanksAbove, contradicting);
    contradictions := [];
    for i := 0 to |contradicting|
      invariant |contradictions| == i
      invariant forall k | 0 <= k < i :: contradictions[k] == ContradictionOf(o, w, contradicting[k].record)
    {
      contradictions := contradictions + [ContradictionOf(o, w, contradicting[i].record)];
    }
  }

  method WeighWinner(o: Oracles, policy: ClassifierPolicy, cs: seq<Candidate>, w: EvidenceRecord, corroboration: nat)
    returns (v: Verdict)
    requires corroboration == Corroboration(cs, w)
    ensures v == WinnerVerdict(o, policy, cs, w)
  {
    var confidence := WeakerConfidence(w.confidence, SourceConfidence(w.source));
    var contradictions := CollectContradictions(o, cs, w);
    if contradictions != [] {
      v := Verdict(w.semantic, Contradicted, ReducedBy(confidence, policy.contradictionPenalty), w.id, w.source,
                   corroboration, contradictions, policy.contradictionPenalty);
    } else if corroboration > 0 {
      v := Verdict(w.semantic, Corroborated, confidence, w.id, w.source, corroboration, [], 0);
    } else {
      v := Verdict(w.semantic, Current, confidence, w.id, w.source, 0, [], 0);
    }
  }

  method DescribeAbsence(cs: seq<Candidate>) returns (state: ClassificationState)
    ensures state == NoWinnerState(cs)
  {
    var anyCurrent, anyStale := false, false;
    for i := 0 to |cs|
      invariant anyCurrent <==> exists k | 0 <= k < i :: IsCurrentCandidate(cs[k])
      invariant anyStale <==> exists k | 0 <= k < i :: IsFormerCandidate(cs[k])
    {
      if cs[i].record.state == EvidenceCurrent {
        anyCurrent := true;
      }
      if cs[i].record.state == EvidenceStale || cs[i].record.state == EvidenceSuperseded {
        anyStale := true;
      }
    }
    state := if anyCurrent then Insufficient else if anyStale then Stale else Insufficient;
  }

  method Demote(o: Oracles, id: string, cites: seq<EvidenceCitation>) returns (r: seq<EvidenceCitation>)
    ensures r == DemoteWinner(o, id, cites)
  {
    r := cites;
    for i := 0 to |cites|
      invariant |r| == |cites|
      invariant forall k | 0 <= k < i :: r[k] == Demoted(o, id, cites[k])
      invariant forall k | i <= k < |cites| :: r[k] == cites[k]
    {
      if r[i].id == id {
        r := r[i := r[i].(disposition := BelowThreshold, detail := o.render(BelowThresholdNote))];
      }
    }
  }

  // ---- 5. the consideration cap -------------------------------------------

  method SplitCitations(cites: seq<EvidenceCitation>) returns (kept: seq<EvidenceCitation>, dropped: seq<EvidenceCitation>)
    ensures kept == Filter(IsDecisive, cites)
    ensures dropped == Filter(IsIncidental, cites)
  {
    kept, dropped := [], [];
    for i := 0 to |cites|
      invariant kept == Filter(IsDecisive, cites[..i])
      invariant dropped == Filter(IsIncidental, cites[..i])
    {
      if IsDecisive(cites[i]) {
        kept := kept + [cites[i]];
      } else {
        dropped := dropped + [cites[i]];
      }
      assert cites[..i + 1][..i] == cites[..i];
    }
    assert cites[..|cites|] == cites;
  }

  /** Moves the first `n` dropped citations back and marks the rest as excluded. */
  method Readmit(o: Oracles, cap: nat, decisive: seq<EvidenceCitation>, dropped: seq<EvidenceCitation>, n: nat)
    returns (kept: seq<EvidenceCitation>)
    requires n <= |dropped|
    ensures kept == decisive + dropped[..n] + ExcludeAll(o, cap, dropped[n..])
  {
    kept := decisive;
    for i := 0 to n
      invariant kept == decisive + dropped[..i]
    {
      kept := kept + [dropped[i]];
    }
    for i := n to |dropped|
      invariant |kept| == |decisive| + i
      invariant kept[..|decisive| + n] == decisive + dropped[..n]
      invariant forall k | n <= k < i :: kept[|decisive| + k] == Excluded(o, cap, dropped[k])
    {
      kept := kept + [Excluded(o, cap, dropped[i])];
    }
    assert kept[|decisive| + n..] == ExcludeAll(o, cap, dropped[n..]);
  }

  method ApplyCap(o: Oracles, cap: nat, cites: seq<EvidenceCitation>) returns (r: seq<EvidenceCitation>)
    ensures r == Capped(o, cap, cites)
  {
    var kept, dropped := SplitCitations(cites);
    FilterPartition(IsDecisive, IsIncidental, cites);
    var budget := if |cites| > cap then if cap > |kept| then cap - |kept| else 0 else |dropped|;
    var keepDropped := if |dropped| < budget then |dropped| else budget;
    kept := Readmit(o, cap, kept, dropped, keepDropped);
    r := Sort(CitationBefore, kept);
  }

  // ---- 6. the final guard -------------------------------------------------

  method Guard(v: Verdict, cites: seq<EvidenceCitation>) returns (r: Verdict)
    ensures r == Guarded(v, cites)
  {
    r := v;
    if v.semantic != UnknownClass && v.state != Revoked {
      var justified := false;
      for i := 0 to |cites|
        invariant justified <==> exists k | 0 <= k < i :: Justifies(v.semantic, cites[k])
      {
        if Justifies(v.semantic, cites[i]) {
          justified := true;
        }
      }
      if !justified {
        r := v.(semantic := UnknownClass, state := Insufficient, confidence := 0, selectedEvidence := "",
                selectedSource := UnknownSource);
      }
    }
  }

  // ---- the engine ---------------------------------------------------------

  /** The verdict on the ranked candidates and their citations before the cap. */
  method Weigh(o: Oracles, policy: ClassifierPolicy, revoked: bool, cs: seq<Candidate>)
    returns (v: Verdict, cites: seq<EvidenceCitation>)
    requires WellDisposed(cs)
    ensures v == Judge(o, policy, revoked, cs)
    ensures cites == OrderedCitations(o, policy, revoked, cs)
  {
    var wi := FindWinner(revoked, cs);
    var unordered, corroboration := CiteCandidates(cs, wi);
    cites := Sort(CitationBefore, unordered);
    if wi < |cs| {
      v := WeighWinner(o, policy, cs, cs[wi].record, corroboration);
      if v.confidence < policy.minimumPublishableConfidence {
        cites := Demote(o, cs[wi].record.id, cites);
        v := NothingDecided(Insufficient);
      }
    } else if revoked {
      v := NothingDecided(Revoked);
    } else {
      var state := DescribeAbsence(cs);
      v := NothingDecided(state);
    }
  }

  method Decide(o: Oracles, input: DecisionInput) returns (result: Classification)
    ensures result == Decision(o, input)
  {
    var candidates := RankCandidates(o, input);
    RankedWellDisposed(o, input);
    var verdict, ordered := Weigh(o, input.policy, input.revoked, candidates);
    var cites := ApplyCap(o, input.policy.maxEvidenceConsidered, ordered);
    verdict := Guard(verdict, cites);
    result := Assemble(o, input, verdict, cites);
  }
}
