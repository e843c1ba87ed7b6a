/**
 * What every decision satisfies: it does not depend on the order of its inputs, its winner
 * is the unique maximum of precedence over the records that are current now, and records
 * without authority cannot move it.
 */
module DecisionTheorems {
  import opened Domain
  import opened Sorting
  import opened DecisionEngine
  import opened DecisionOrder

  // ---- an independent reading of "current" --------------------------------

  /** The record may decide this question now: right incarnation, epoch, liveness and freshness. */
  predicate Authoritative(input: DecisionInput, r: EvidenceRecord) {
    && MatchesFlow(r, input.flow)
    && r.state == EvidenceCurrent
    && r.acceptedEpoch == input.authority.epoch
    && !r.source.Heuristic?
    && (RequiresLiveSession(r.source) ==> IsLive(input.authority, r))
    && !Expired(input.authority, r)
  }

  predicate Decides(input: DecisionInput, r: EvidenceRecord) {
    Authoritative(input, r) && r.semantic != UnknownClass
  }

  /** Every record the engine looks at: the stored ones and the contract-derived ones. */
  function Considered(o: Oracles, input: DecisionInput): seq<EvidenceRecord> {
    input.evidence + DerivedRecords(o, input, |input.contracts|)
  }

  lemma AssessSelects(o: Oracles, input: DecisionInput, r: EvidenceRecord)
    ensures Assess(o, input, Fresh(r)).disposition.Selected? <==> Authoritative(input, r)
    ensures Standing(Assess(o, input, Fresh(r))) <==> Authoritative(input, r)
    ensures Authoritative(input, r) ==> Assess(o, input, Fresh(r)) == Fresh(r)
  {
  }

  lemma PoolIsAssessed(o: Oracles, input: DecisionInput)
    requires DistinctIds(input.evidence)
    ensures |Pool(o, input)| == |Considered(o, input)|
    ensures forall i | 0 <= i < |Considered(o, input)| ::
              Pool(o, input)[i] == Assess(o, input, Fresh(Considered(o, input)[i]))
  {
    var raw := EvidenceCandidates(o, input.evidence) + DerivedCandidates(o, input);
    forall i | 0 <= i < |raw|
      ensures raw[i] == Fresh(Considered(o, input)[i])
    {
      if i < |input.evidence| {
        assert !SeenBefore(input.evidence, i);
      }
    }
  }

  /** Every ranked candidate is the assessment of a considered record. */
  lemma RankedSource(o: Oracles, input: DecisionInput, c: Candidate) returns (r: EvidenceRecord)
    requires DistinctIds(input.evidence)
    requires c in Ranked(o, input)
    ensures r in Considered(o, input) && c == Assess(o, input, Fresh(r))
  {
    RankedProperties(o, input);
    PoolIsAssessed(o, input);
    var pool := Pool(o, input);
    assert c in pool;
    var i :| 0 <= i < |pool| && pool[i] == c;
    r := Considered(o, input)[i];
  }

  /** The assessment of every considered record is ranked. */
  lemma RankedTarget(o: Oracles, input: DecisionInput, r: EvidenceRecord)
    requires DistinctIds(input.evidence)
    requires r in Considered(o, input)
    ensures Assess(o, input, Fresh(r)) in Ranked(o, input)
  {
    RankedProperties(o, input);
    PoolIsAssessed(o, input);
    var all := Considered(o, input);
    var i :| 0 <= i < |all| && all[i] == r;
    assert Pool(o, input)[i] in Pool(o, input);
  }

  // ---- order of the inputs ------------------------------------------------

  ghost predicate DistinctWorkloads(ws: seq<WorkloadRecord>) {
    forall i, j | 0 <= i < j < |ws| :: ws[i].id != ws[j].id
  }

  /** Contract identities are distinct and short enough to enter the derived identity. */
  ghost predicate DistinctContracts(cs: seq<WorkloadContract>) {
    && (forall i, j | 0 <= i < j < |cs| :: cs[i].id != cs[j].id)
    && (forall i | 0 <= i < |cs| :: |cs[i].id| <= MAX_HASHED_CONTRACT_ID)
  }

  lemma {:induction false} WorkloadLookup(ws: seq<WorkloadRecord>, id: string, g: nat)
    requires DistinctWorkloads(ws)
    ensures WorkloadGeneration(ws, id) == Some(g) <==> exists w | w in ws :: w.id == id && w.generation == g
  {
    if ws != [] {
      assert ws == [ws[0]] + ws[1..];
      WorkloadLookup(ws[1..], id, g);
      if ws[0].id == id {
        forall w | w in ws && w.id == id
          ensures w == ws[0]
        {
          var k :| 0 <= k < |ws| && ws[k] == w;
        }
      } else {
        assert forall w | w in ws && w.id == id :: w in ws[1..];
        assert forall w | w in ws[1..] :: w in ws;
      }
    }
  }

  lemma DerivedIdsDiffer(o: Oracles, flow: FlowRecord, a: WorkloadContract, b: WorkloadContract)
    requires DistinctDerivedIds(o)
    requires a.id != b.id
    requires |a.id| <= MAX_HASHED_CONTRACT_ID && |b.id| <= MAX_HASHED_CONTRACT_ID
    ensures DerivedId(o, a, flow) != DerivedId(o, b, flow)
  {
    var ka := ContractIdentity(a.id, a.workloadGeneration, flow.id, flow.generation, a.definitionDigest);
    var kb := ContractIdentity(b.id, b.workloadGeneration, flow.id, flow.generation, b.definitionDigest);
    assert ka != kb;
    assert o.contractEvidenceId(ka) != o.contractEvidenceId(kb);
  }

  /** Which contracts yield a derived record when identities do not clash. */
  ghost predicate Yields(o: Oracles, input: DecisionInput, c: WorkloadContract) {
    ContractApplies(input, c) && !IdIn(input.evidence, DerivedId(o, c, input.flow))
  }

  /** `r` is derived from one of the first `n` contracts. */
  ghost predicate DerivedFrom(o: Oracles, input: DecisionInput, n: nat, r: EvidenceRecord)
    requires n <= |input.contracts|
  {
    exists k | 0 <= k < n :: Yields(o, input, input.contracts[k]) && r == DerivedRecord(o, input, input.contracts[k])
  }

  /** No earlier contract has derived the identity of a later one. */
  lemma DerivedIdUnused(o: Oracles, input: DecisionInput, n: nat)
    requires n < |input.contracts|
    requires DistinctDerivedIds(o) && DistinctContracts(input.contracts)
    requires forall r | r in DerivedRecords(o, input, n) :: DerivedFrom(o, input, n, r)
    ensures !IdIn(DerivedRecords(o, input, n), DerivedId(o, input.contracts[n], input.flow))
  {
    hide DistinctDerivedIds, DerivedRecords, DerivedRecord, DerivedId, Yields;
    var before, id := DerivedRecords(o, input, n), DerivedId(o, input.contracts[n], input.flow);
    forall j | 0 <= j < |before|
      ensures before[j].id != id
    {
      assert DerivedFrom(o, input, n, before[j]);
      var k :| 0 <= k < n && before[j] == DerivedRecord(o, input, input.contracts[k]);
      DerivedRecordId(o, input, input.contracts[k]);
      DerivedIdsDiffer(o, input.flow, input.contracts[k], input.contracts[n]);
    }
  }

  lemma DerivedRecordsStep(o: Oracles, input: DecisionInput, n: nat)
    requires n < |input.contracts|
    requires !IdIn(DerivedRecords(o, input, n), DerivedId(o, input.contracts[n], input.flow))
    ensures DerivedRecords(o, input, n + 1)
         == DerivedRecords(o, input, n)
            + if Yields(o, input, input.contracts[n]) then [DerivedRecord(o, input, input.contracts[n])] else []
  {
    hide IdIn, ContractApplies, DerivedId, DerivedRecord;
  }

  lemma {:induction false} DerivedMembership(o: Oracles, input: DecisionInput, n: nat, r: EvidenceRecord)
    requires n <= |input.contracts|
    requires DistinctDerivedIds(o) && DistinctContracts(input.contracts)
    ensures r in DerivedRecords(o, input, n) <==> DerivedFrom(o, input, n, r)
  {
    hide DistinctDerivedIds, DistinctContracts, IdIn, DerivedRecord, DerivedId, Yields;
    if n > 0 {
      var m := n - 1;
      DerivedMembership(o, input, m, r);
      forall x | x in DerivedRecords(o, input, m)
        ensures DerivedFrom(o, input, m, x)
      {
        DerivedMembership(o, input, m, x);
      }
      DerivedIdUnused(o, input, m);
      DerivedRecordsStep(o, input, m);
    }
  }

  /** The two inputs ask about the same incarnation under the same policy and authority. */
  ghost predicate SameQuestion(a: DecisionInput, b: DecisionInput) {
    && (a.flow.id, a.flow.key, a.flow.generation) == (b.flow.id, b.flow.key, b.flow.generation)
    && a.authority == b.authority
    && a.policy == b.policy
    && a.revoked == b.revoked
  }

  ghost predicate Permuted(a: DecisionInput, b: DecisionInput) {
    && SameQuestion(a, b)
    && multiset(a.evidence) == multiset(b.evidence)
    && multiset(a.contracts) == multiset(b.contracts)
    && multiset(a.workloads) == multiset(b.workloads)
  }

  /** Identities that hold apart what the input lists. */
  ghost predicate WellIdentified(input: DecisionInput) {
    && DistinctIds(input.evidence)
    && DistinctContracts(input.contracts)
    && DistinctWorkloads(input.workloads)
  }

  lemma PermutedEvidence(a: seq<EvidenceRecord>, b: seq<EvidenceRecord>)
    requires DistinctIds(a) && multiset(a) == multiset(b)
    ensures DistinctIds(b)
  {
    NoRepeatsPermutation(a, b);
    MultisetMembership(a, b);
    forall i, j | 0 <= i < j < |b|
      ensures b[i].id != b[j].id
    {
      assert b[i] in a && b[j] in a && b[i] != b[j];
    }
  }

  lemma PermutedContracts(a: seq<WorkloadContract>, b: seq<WorkloadContract>)
    requires DistinctContracts(a) && multiset(a) == multiset(b)
    ensures DistinctContracts(b)
  {
    NoRepeatsPermutation(a, b);
    MultisetMembership(a, b);
    assert forall i | 0 <= i < |b| :: b[i] in a;
  }

  lemma PermutedWorkloads(a: seq<WorkloadRecord>, b: seq<WorkloadRecord>)
    requires DistinctWorkloads(a) && multiset(a) == multiset(b)
    ensures DistinctWorkloads(b)
  {
    NoRepeatsPermutation(a, b);
    MultisetMembership(a, b);
    assert forall i | 0 <= i < |b| :: b[i] in a;
  }

  lemma PermutedYields(o: Oracles, a: DecisionInput, b: DecisionInput, c: WorkloadContract)
    requires WellIdentified(a) && Permuted(a, b)
    ensures Yields(o, a, c) ==> Yields(o, b, c)
  {
    PermutedWorkloads(a.workloads, b.workloads);
    WorkloadLookup(a.workloads, c.workload, c.workloadGeneration);
    WorkloadLookup(b.workloads, c.workload, c.workloadGeneration);
    MultisetMembership(a.workloads, b.workloads);
    MultisetMembership(a.evidence, b.evidence);
    var id := DerivedId(o, c, a.flow);
    if IdIn(b.evidence, id) {
      var j :| 0 <= j < |b.evidence| && b.evidence[j].id == id;
      assert b.evidence[j] in a.evidence;
    }
  }

  lemma DerivedSameQuestion(o: Oracles, a: DecisionInput, b: DecisionInput, c: WorkloadContract)
    requires SameQuestion(a, b)
    ensures DerivedRecord(o, a, c) == DerivedRecord(o, b, c)
  {
  }

  lemma PermutedDerived(o: Oracles, a: DecisionInput, b: DecisionInput, r: EvidenceRecord)
    requires DistinctDerivedIds(o) && WellIdentified(a) && WellIdentified(b) && Permuted(a, b)
    requires r in DerivedRecords(o, a, |a.contracts|)
    ensures r in DerivedRecords(o, b, |b.contracts|)
  {
    hide DerivedRecords, DerivedRecord, Yields, DistinctDerivedIds;
    DerivedMembership(o, a, |a.contracts|, r);
    var k :| 0 <= k < |a.contracts| && Yields(o, a, a.contracts[k]) && r == DerivedRecord(o, a, a.contracts[k]);
    var c := a.contracts[k];
    MultisetMembership(a.contracts, b.contracts);
    assert c in b.contracts;
    var m :| 0 <= m < |b.contracts| && b.contracts[m] == c;
    PermutedYields(o, a, b, c);
    DerivedSameQuestion(o, a, b, c);
    DerivedMembership(o, b, |b.contracts|, r);
  }

  lemma PermutedConsidered(o: Oracles, a: DecisionInput, b: DecisionInput, r: EvidenceRecord)
    requires DistinctDerivedIds(o) && WellIdentified(a) && WellIdentified(b) && Permuted(a, b)
    requires r in Considered(o, a)
    ensures r in Considered(o, b)
  {
    if r in a.evidence {
      MultisetMembership(a.evidence, b.evidence);
    } else {
      PermutedDerived(o, a, b, r);
    }
  }

  /** Assessment looks at the question and the record, not at the other inputs. */
  lemma AssessSameQuestion(o: Oracles, a: DecisionInput, b: DecisionInput, c: Candidate)
    requires SameQuestion(a, b)
    ensures Assess(o, a, c) == Assess(o, b, c)
  {
    assert AssessedRecord(o, a, c.record) == AssessedRecord(o, b, c.record);
  }

  lemma PermutedRanked(o: Oracles, a: DecisionInput, b: DecisionInput, c: Candidate)
    requires DistinctDerivedIds(o) && WellIdentified(a) && WellIdentified(b) && Permuted(a, b)
    requires c in Ranked(o, a)
    ensures c in Ranked(o, b)
  {
    var r := RankedSource(o, a, c);
    PermutedConsidered(o, a, b, r);
    AssessSameQuestion(o, a, b, Fresh(r));
    RankedTarget(o, b, r);
  }

  /**
   * A decision does not depend on the order in which records, contracts and workloads are
   * handed over, in any of its fields.
   */
  lemma DecisionIgnoresOrder(o: Oracles, a: DecisionInput, b: DecisionInput)
    requires DistinctDerivedIds(o) && WellIdentified(a) && Permuted(a, b)
    ensures Decision(o, a) == Decision(o, b)
  {
    PermutedEvidence(a.evidence, b.evidence);
    PermutedContracts(a.contracts, b.contracts);
    PermutedWorkloads(a.workloads, b.workloads);
    assert Permuted(b, a);
    RankedProperties(o, a);
    RankedProperties(o, b);
    forall c
      ensures c in Ranked(o, a) <==> c in Ranked(o, b)
    {
      if c in Ranked(o, a) {
        PermutedRanked(o, a, b, c);
      }
      if c in Ranked(o, b) {
        PermutedRanked(o, b, a, c);
      }
    }
    AscendingUnique(CandidateBefore, Ranked(o, a), Ranked(o, b));
  }

  // ---- the winner ---------------------------------------------------------

  /** `w` decides the question and outranks every other record that does. */
  ghost predicate UniqueMaximum(o: Oracles, input: DecisionInput, w: EvidenceRecord) {
    && w in Considered(o, input)
    && Decides(input, w)
    && forall r | r in Considered(o, input) && Decides(input, r) && r != w :: RanksAbove(w, r)
  }

  /** A record that decides the question is the first that can win, or ranks below it. */
  lemma DeciderIsRanked(o: Oracles, input: DecisionInput, r: EvidenceRecord)
    requires DistinctIds(input.evidence) && r in Considered(o, input) && Decides(input, r)
    ensures var cs := Ranked(o, input);
            var wi := FirstWinner(cs);
            wi < |cs| && (Fresh(r) == cs[wi] || RanksAbove(cs[wi].record, r))
  {
    hide Ranked, Considered, Pool, Authoritative, RanksAbove, Assess, FirstWinner, StrictTotalOn, SameElements,
         NoRepeats, DistinctIds;
    var cs := Ranked(o, input);
    var wi := FirstWinner(cs);
    RankedProperties(o, input);
    AssessSelects(o, input, r);
    RankedTarget(o, input, r);
    var j :| 0 <= j < |cs| && cs[j] == Fresh(r);
    assert CanWin(cs[j]) && wi <= j;
    assert wi < j ==> CandidateBefore(cs[wi], cs[j]);
  }

  /**
   * Before the threshold, the candidate that wins is the unique maximum of precedence over
   * the records that are current, authoritative and name a class; there is no winner exactly
   * when no such record exists.
   */
  lemma WinnerIsUniqueMaximum(o: Oracles, input: DecisionInput)
    requires DistinctIds(input.evidence)
    ensures var cs := Ranked(o, input);
            var wi := FirstWinner(cs);
            if wi == |cs| then
              forall r | r in Considered(o, input) :: !Decides(input, r)
            else
              cs[wi] == Fresh(cs[wi].record) && UniqueMaximum(o, input, cs[wi].record)
  {
    hide Ranked, Considered, Authoritative, RanksAbove, Assess, FirstWinner;
    var cs := Ranked(o, input);
    var wi := FirstWinner(cs);
    forall r | r in Considered(o, input) && Decides(input, r)
      ensures wi < |cs| && (Fresh(r) == cs[wi] || RanksAbove(cs[wi].record, r))
    {
      DeciderIsRanked(o, input, r);
    }
    if wi < |cs| {
      var r := RankedSource(o, input, cs[wi]);
      AssessSelects(o, input, r);
    }
  }

  // ---- records without authority ------------------------------------------

  function WithRecord(input: DecisionInput, x: EvidenceRecord): DecisionInput {
    input.(evidence := input.evidence + [x])
  }

  /** No stored record and no applicable contract uses the identity. */
  ghost predicate UnusedId(o: Oracles, input: DecisionInput, id: string) {
    && !IdIn(input.evidence, id)
    && forall i | 0 <= i < |input.contracts| && ContractApplies(input, input.contracts[i]) ::
         DerivedId(o, input.contracts[i], input.flow) != id
  }

  lemma {:induction false} DerivedUnaffected(o: Oracles, input: DecisionInput, x: EvidenceRecord, n: nat)
    requires n <= |input.contracts|
    requires UnusedId(o, input, x.id)
    ensures DerivedRecords(o, WithRecord(input, x), n) == DerivedRecords(o, input, n)
  {
    hide DerivedId, ContractCovers, WorkloadGeneration, IdIn;
    if n > 0 {
      DerivedUnaffected(o, input, x, n - 1);
      var c := input.contracts[n - 1];
      var id := DerivedId(o, c, input.flow);
      if ContractApplies(input, c) {
        assert id != x.id;
        IdInWith(input, x, id);
      }
    }
  }

  lemma IdInWith(input: DecisionInput, x: EvidenceRecord, id: string)
    requires id != x.id
    ensures IdIn(WithRecord(input, x).evidence, id) <==> IdIn(input.evidence, id)
  {
    var more := WithRecord(input, x).evidence;
    if IdIn(input.evidence, id) {
      var j :| 0 <= j < |input.evidence| && input.evidence[j].id == id;
      assert more[j].id == id;
    }
    if IdIn(more, id) {
      var j :| 0 <= j < |more| && more[j].id == id;
      assert input.evidence[j].id == id;
    }
  }

  lemma ConsideredWith(o: Oracles, input: DecisionInput, x: EvidenceRecord, r: EvidenceRecord)
    requires UnusedId(o, input, x.id)
    ensures r in Considered(o, WithRecord(input, x)) <==> r == x || r in Considered(o, input)
  {
    DerivedUnaffected(o, input, x, |input.contracts|);
  }

  lemma WithRecordDistinct(input: DecisionInput, x: EvidenceRecord)
    requires DistinctIds(input.evidence) && !IdIn(input.evidence, x.id)
    ensures DistinctIds(WithRecord(input, x).evidence)
  {
  }

  lemma RankedWith(o: Oracles, input: DecisionInput, x: EvidenceRecord, c: Candidate)
    requires DistinctIds(input.evidence) && UnusedId(o, input, x.id)
    ensures c in Ranked(o, input) ==> c in Ranked(o, WithRecord(input, x))
    ensures c in Ranked(o, WithRecord(input, x)) ==> c in Ranked(o, input) || c == Assess(o, input, Fresh(x))
  {
    var more := WithRecord(input, x);
    WithRecordDistinct(input, x);
    if c in Ranked(o, input) {
      var r := RankedSource(o, input, c);
      ConsideredWith(o, input, x, r);
      AssessSameQuestion(o, input, more, Fresh(r));
      RankedTarget(o, more, r);
    }
    if c in Ranked(o, more) {
      var r := RankedSource(o, more, c);
      ConsideredWith(o, input, x, r);
      AssessSameQuestion(o, input, more, Fresh(r));
      if r in Considered(o, input) {
        RankedTarget(o, input, r);
      }
    }
  }

  /** A selection that never picks the extra record picks the same candidates, in the same order. */
  lemma SelectionUnaffected(o: Oracles, input: DecisionInput, x: EvidenceRecord, p: Candidate -> bool)
    requires DistinctIds(input.evidence) && UnusedId(o, input, x.id)
    requires !p(Assess(o, input, Fresh(x)))
    ensures Filter(p, Ranked(o, input)) == Filter(p, Ranked(o, WithRecord(input, x)))
  {
    var more := WithRecord(input, x);
    WithRecordDistinct(input, x);
    RankedProperties(o, input);
    RankedProperties(o, more);
    forall c
      ensures c in Ranked(o, input) && p(c) <==> c in Ranked(o, more) && p(c)
    {
      RankedWith(o, input, x, c);
    }
    FilterDeterminedByElements(CandidateBefore, p, Ranked(o, input), Ranked(o, more));
  }

  lemma {:induction false} FirstWinnerByFilter(cs: seq<Candidate>)
    ensures FirstWinner(cs) < |cs| <==> Filter(CanWin, cs) != []
    ensures FirstWinner(cs) < |cs| ==> Filter(CanWin, cs)[0] == cs[FirstWinner(cs)]
  {
    if cs != [] {
      var init := cs[..|cs| - 1];
      FirstWinnerByFilter(init);
      var i, k := FirstWinner(cs), FirstWinner(init);
      if k < |init| {
        assert CanWin(cs[k]) && i <= k;
        assert CanWin(init[i]);
      } else {
        assert forall j | 0 <= j < |init| :: !CanWin(cs[j]);
      }
    }
  }

  /** The two verdicts differ at most in how the absence of a winner is described. */
  ghost predicate SameVerdict(v: Verdict, u: Verdict, winner: bool) {
    && u == v.(state := u.state)
    && (u.state != v.state ==> !winner && {u.state, v.state} == {Stale, Insufficient})
  }

  lemma SameWinnerSameVerdict(o: Oracles, input: DecisionInput, cs: seq<Candidate>, ds: seq<Candidate>)
    requires FirstWinner(cs) < |cs| <==> FirstWinner(ds) < |ds|
    requires FirstWinner(cs) < |cs| ==>
               var w := cs[FirstWinner(cs)].record;
               && w == ds[FirstWinner(ds)].record
               && Filter(AgreesWith(w), cs) == Filter(AgreesWith(w), ds)
               && Filter(DisagreesWith(w), cs) == Filter(DisagreesWith(w), ds)
    ensures SameVerdict(Judge(o, input.policy, input.revoked, cs), Judge(o, input.policy, input.revoked, ds),
                        input.revoked || FirstWinner(cs) < |cs|)
  {
    hide WinnerVerdict, Filter, FirstWinner;
    if !input.revoked && FirstWinner(cs) < |cs| {
      SameSidesSameVerdict(o, input.policy, cs, ds, cs[FirstWinner(cs)].record);
    }
  }

  lemma SameSidesSameVerdict(o: Oracles, policy: ClassifierPolicy, cs: seq<Candidate>, ds: seq<Candidate>, w: EvidenceRecord)
    requires Filter(AgreesWith(w), cs) == Filter(AgreesWith(w), ds)
    requires Filter(DisagreesWith(w), cs) == Filter(DisagreesWith(w), ds)
    ensures WinnerVerdict(o, policy, cs, w) == WinnerVerdict(o, policy, ds, w)
  {
    hide Filter, AgreesWith, DisagreesWith;
  }

  /**
   * Adding a record that is heuristic, not current or about another incarnation never changes
   * class, confidence, selected evidence, corroboration, contradictions or penalty.  The state
   * may move between STALE and INSUFFICIENT, and only when there is no winner.
   */
  lemma NonInterference(o: Oracles, input: DecisionInput, x: EvidenceRecord)
    requires DistinctIds(input.evidence) && UnusedId(o, input, x.id)
    requires !Authoritative(input, x)
    ensures var more := WithRecord(input, x);
            SameVerdict(Judge(o, input.policy, input.revoked, Ranked(o, input)),
                        Judge(o, input.policy, input.revoked, Ranked(o, more)),
                        input.revoked || exists r | r in Considered(o, input) :: Decides(input, r))
  {
    var more := WithRecord(input, x);
    var cs, ds := Ranked(o, input), Ranked(o, more);
    AssessSelects(o, input, x);
    SelectionUnaffected(o, input, x, CanWin);
    FirstWinnerByFilter(cs);
    FirstWinnerByFilter(ds);
    if FirstWinner(cs) < |cs| {
      var w := cs[FirstWinner(cs)].record;
      SelectionUnaffected(o, input, x, AgreesWith(w));
      SelectionUnaffected(o, input, x, DisagreesWith(w));
    }
    WinnerIsUniqueMaximum(o, input);
    SameWinnerSameVerdict(o, input, cs, ds);
  }
}
