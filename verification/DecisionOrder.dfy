/** Precedence is a strict total order, and the candidates of one decision are told apart by it. */
module DecisionOrder {
  import opened Domain
  import opened Sorting
  import opened DecisionEngine

  ghost predicate DistinctIds(records: seq<EvidenceRecord>) {
    forall i, j | 0 <= i < j < |records| :: records[i].id != records[j].id
  }

  ghost predicate DistinctCandidates(cs: seq<Candidate>) {
    forall i, j | 0 <= i < j < |cs| :: cs[i].record.id != cs[j].record.id
  }

  lemma RanksAboveIrreflexive(r: EvidenceRecord)
    ensures !RanksAbove(r, r)
  {
    TextLessIrreflexive(r.id);
  }

  lemma RanksAboveAsymmetric(a: EvidenceRecord, b: EvidenceRecord)
    requires RanksAbove(a, b)
    ensures !RanksAbove(b, a)
  {
    if TextLess(a.id, b.id) {
      TextLessAsymmetric(a.id, b.id);
    }
  }

  lemma RanksAboveTransitive(a: EvidenceRecord, b: EvidenceRecord, c: EvidenceRecord)
    requires RanksAbove(a, b) && RanksAbove(b, c)
    ensures RanksAbove(a, c)
  {
    if TextLess(a.id, b.id) && TextLess(b.id, c.id) {
      TextLessTransitive(a.id, b.id, c.id);
    }
  }

  lemma RanksAboveTotal(a: EvidenceRecord, b: EvidenceRecord)
    requires a.id != b.id
    ensures RanksAbove(a, b) || RanksAbove(b, a)
  {
    TextLessTotal(a.id, b.id);
  }

  lemma CandidateOrder(cs: seq<Candidate>)
    requires DistinctCandidates(cs)
    ensures StrictTotalOn(CandidateBefore, cs)
  {
    forall x | x in cs
      ensures !CandidateBefore(x, x)
    {
      RanksAboveIrreflexive(x.record);
    }
    forall x, y | x in cs && y in cs && CandidateBefore(x, y)
      ensures !CandidateBefore(y, x)
    {
      if RanksAbove(x.record, y.record) {
        RanksAboveAsymmetric(x.record, y.record);
      }
    }
    forall x, y, z | x in cs && y in cs && z in cs && CandidateBefore(x, y) && CandidateBefore(y, z)
      ensures CandidateBefore(x, z)
    {
      if RanksAbove(x.record, y.record) && RanksAbove(y.record, z.record) {
        RanksAboveTransitive(x.record, y.record, z.record);
      }
    }
    forall i, j | 0 <= i < j < |cs|
      ensures CandidateBefore(cs[i], cs[j]) || CandidateBefore(cs[j], cs[i])
    {
      RanksAboveTotal(cs[i].record, cs[j].record);
    }
  }

  // ---- what the pool holds ------------------------------------------------

  lemma DerivedRecordId(o: Oracles, input: DecisionInput, c: WorkloadContract)
    ensures DerivedRecord(o, input, c).id == DerivedId(o, c, input.flow)
  {
  }

  lemma {:induction false} DerivedDistinct(o: Oracles, input: DecisionInput, n: nat)
    requires n <= |input.contracts|
    ensures DistinctIds(DerivedRecords(o, input, n))
    ensures forall i | 0 <= i < |DerivedRecords(o, input, n)| :: !IdIn(input.evidence, DerivedRecords(o, input, n)[i].id)
  {
    if n > 0 {
      DerivedDistinct(o, input, n - 1);
      DerivedRecordId(o, input, input.contracts[n - 1]);
    }
  }

  lemma AssessKeepsId(o: Oracles, input: DecisionInput, c: Candidate)
    ensures Assess(o, input, c).record.id == c.record.id
  {
  }

  lemma PoolDistinct(o: Oracles, input: DecisionInput)
    requires DistinctIds(input.evidence)
    ensures DistinctCandidates(Pool(o, input))
  {
    var n := |input.evidence|;
    var derived := DerivedRecords(o, input, |input.contracts|);
    DerivedDistinct(o, input, |input.contracts|);
    var raw := EvidenceCandidates(o, input.evidence) + DerivedCandidates(o, input);
    forall i, j | 0 <= i < j < |raw|
      ensures Pool(o, input)[i].record.id != Pool(o, input)[j].record.id
    {
      AssessKeepsId(o, input, raw[i]);
      AssessKeepsId(o, input, raw[j]);
      if j >= n {
        assert raw[j] == Fresh(derived[j - n]);
        if i >= n {
          assert raw[i] == Fresh(derived[i - n]);
        } else {
          assert !IdIn(input.evidence, derived[j - n].id);
        }
      }
    }
  }

  /** The ranked candidates are the pool in strictly descending precedence. */
  lemma RankedProperties(o: Oracles, input: DecisionInput)
    requires DistinctIds(input.evidence)
    ensures Ascending(CandidateBefore, Ranked(o, input))
    ensures SameElements(Pool(o, input), Ranked(o, input))
    ensures |Ranked(o, input)| == |Pool(o, input)|
    ensures StrictTotalOn(CandidateBefore, Pool(o, input))
    ensures NoRepeats(Pool(o, input))
  {
    PoolDistinct(o, input);
    CandidateOrder(Pool(o, input));
    SortAscending(CandidateBefore, Pool(o, input));
    MultisetMembership(Pool(o, input), Ranked(o, input));
  }

}
