/**
 * When the evidence-set digest tells questions apart: exactly when the set fits its encoder
 * and every digest in it was hashed.
 */
module DigestExactness {
  import opened Domain
  import opened Sorting
  import opened DecisionEngine
  import opened DecisionOrder
  import opened DecisionTheorems
  import opened DecisionCoherence
  import opened DecisionDigest
  import Policy

  /** `b` could be the question behind a memo entry under the key of `q`. */
  ghost predicate Indistinct(o: Oracles, q: DecisionInput, b: DecisionInput) {
    && Sealed(o, b) && Consistent(q, b)
    && b.flow.id == q.flow.id && b.flow.generation == q.flow.generation
    && EvidenceSetDigest(o, b) == EvidenceSetDigest(o, q)
  }

  /** Identities as the program mints them: canonical, and apart for contracts and records. */
  ghost predicate Named(o: Oracles, q: DecisionInput) {
    && DistinctContracts(q.contracts)
    && (forall i | 0 <= i < |q.evidence| :: Policy.IsCanonicalIdentity(q.evidence[i].id))
    && (forall i | 0 <= i < |q.contracts| :: !IdIn(q.evidence, DerivedId(o, q.contracts[i], q.flow)))
  }

  // ---- equal decisions are about the same records -------------------------

  lemma AssessKeepsClaim(o: Oracles, input: DecisionInput, c: Candidate)
    ensures Assess(o, input, c).record.id == c.record.id && Assess(o, input, c).record.semantic == c.record.semantic
  {
  }

  lemma SharedCore(a: seq<Candidate>, b: seq<Candidate>, i: nat) returns (j: nat)
    requires multiset(Map(CandidateCore, a)) == multiset(Map(CandidateCore, b)) && i < |a|
    ensures j < |b| && CandidateCore(b[j]) == CandidateCore(a[i])
  {
    MultisetMembership(Map(CandidateCore, a), Map(CandidateCore, b));
    assert Map(CandidateCore, a)[i] in Map(CandidateCore, b);
    j :| 0 <= j < |b| && Map(CandidateCore, b)[j] == Map(CandidateCore, a)[i];
  }

  /** Every record that one of two equal decisions considered has its like in the other. */
  lemma EqualDecisionsShareRecords(o: Oracles, a: DecisionInput, b: DecisionInput, x: EvidenceRecord)
    returns (y: EvidenceRecord)
    requires DistinctIds(a.evidence) && DistinctIds(b.evidence)
    requires Decision(o, a) == Decision(o, b) && x in Considered(o, a)
    ensures y in Considered(o, b) && y.id == x.id && y.semantic == x.semantic
  {
    hide Decision, Considered, Pool, Assess, DistinctIds, Map;
    CitationsCoverCandidates(o, a);
    CitationsCoverCandidates(o, b);
    PoolIsAssessed(o, a);
    PoolIsAssessed(o, b);
    var i :| 0 <= i < |Considered(o, a)| && Considered(o, a)[i] == x;
    var j := SharedCore(Pool(o, a), Pool(o, b), i);
    y := Considered(o, b)[j];
    AssessKeepsClaim(o, a, Fresh(x));
    AssessKeepsClaim(o, b, Fresh(y));
  }

  // ---- a contract that exhausted its encoder ------------------------------

  function OtherClass(c: SemanticClass): (d: SemanticClass)
    ensures d != c && d != UnknownClass
  {
    if c == Collective then Checkpoint else Collective
  }

  /** A contract of the same size that covers the flow and declares another class. */
  function Impostor(c: WorkloadContract, key: FlowKey): (d: WorkloadContract)
    ensures DefinitionWidth(d) == DefinitionWidth(c) && ContractCovers(d, key)
    ensures d.declaredClass != c.declaredClass && d.id == c.id && d.workload == c.workload
    ensures d.workloadGeneration == c.workloadGeneration && d.state == c.state && d.definitionDigest == c.definitionDigest
  {
    c.(declaredClass := OtherClass(c.declaredClass), matchAnyRemoteAddress := true, remotePort := 0,
       transport := UnknownTransport,
       localPortScope := if c.localPortScope == [] then [] else [key.localPort] + c.localPortScope[1..])
  }

  function Swapped(q: DecisionInput, k: nat): DecisionInput
    requires k < |q.contracts|
  {
    q.(contracts := q.contracts[k := Impostor(q.contracts[k], q.flow.key)])
  }

  lemma {:induction false} SameFieldsContracts(a: seq<WorkloadContract>, b: seq<WorkloadContract>)
    requires |a| == |b| && forall i | 0 <= i < |a| :: ContractFields(a[i]) == ContractFields(b[i])
    ensures AllContractFields(a) == AllContractFields(b)
  {
    if a != [] {
      SameFieldsContracts(a[..|a| - 1], b[..|b| - 1]);
    }
  }

  lemma SwappedSorted(q: DecisionInput, k: nat)
    requires k < |q.contracts| && DistinctContracts(q.contracts) && SortedContracts(q) == q.contracts
    ensures SortedContracts(Swapped(q, k)) == Swapped(q, k).contracts
  {
    hide Sort, Impostor;
    var cs, ds := q.contracts, Swapped(q, k).contracts;
    ContractOrder();
    SortWeaklySorted(ContractIdLess, cs);
    forall i, j | 0 <= i < j < |ds|
      ensures ContractIdLess(ds[i], ds[j])
    {
      assert !ContractIdLess(cs[j], cs[i]);
      TextLessTotal(cs[i].id, cs[j].id);
    }
    SortOfAscending(ContractIdLess, ds);
  }

  lemma SwappedSealed(o: Oracles, q: DecisionInput, k: nat)
    requires Sealed(o, q) && DistinctContracts(q.contracts) && k < |q.contracts| && !DefinitionFits(q.contracts[k])
    ensures Sealed(o, Swapped(q, k)) && DistinctContracts(Swapped(q, k).contracts)
    ensures EvidenceSetDigest(o, Swapped(q, k)) == EvidenceSetDigest(o, q)
  {
    hide Impostor, AllRecordFields, AllContractFields, TotalWidth, Sort, DefinitionWidth, EvidenceDigest;
    SwappedSorted(q, k);
    SameFieldsContracts(q.contracts, Swapped(q, k).contracts);
    SameInputFields(q, Swapped(q, k));
  }

  lemma SameInputFields(a: DecisionInput, b: DecisionInput)
    requires HeaderFields(a) == HeaderFields(b) && a.revoked == b.revoked
    requires |a.evidence| == |b.evidence| && AllRecordFields(SortedEvidence(a)) == AllRecordFields(SortedEvidence(b))
    requires |a.contracts| == |b.contracts| && AllContractFields(SortedContracts(a)) == AllContractFields(SortedContracts(b))
    ensures InputFields(a) == InputFields(b)
  {
    hide HeaderFields, AllRecordFields, AllContractFields, SortedEvidence, SortedContracts;
  }

  lemma SelfConsistent(q: DecisionInput, b: DecisionInput)
    requires DistinctIds(q.evidence) && b.evidence == q.evidence && b.policy == q.policy && b.authority == q.authority
    ensures Consistent(q, b)
  {
  }

  /** The swapped contract yields a derived record that the original question does not have. */
  lemma SwappedDecidesOtherwise(o: Oracles, q: DecisionInput, k: nat)
    requires DistinctDerivedIds(o) && Sealed(o, q) && Named(o, q) && k < |q.contracts| && !DefinitionFits(q.contracts[k])
    ensures Decision(o, Swapped(q, k)) != Decision(o, q)
  {
    hide Decision, DistinctDerivedIds, DerivedRecord, DerivedId, EvidenceSetDigest, DefinitionFits, SortedContracts,
         Impostor, Considered;
    var b := Swapped(q, k);
    var c, d := q.contracts[k], b.contracts[k];
    SwappedSealed(o, q, k);
    ImpostorYields(o, q, k);
    if Decision(o, b) == Decision(o, q) {
      var y := EqualDecisionsShareRecords(o, b, q, DerivedRecord(o, b, d));
      OnlyOwnContract(o, q, k, y);
      assert false;
    }
  }

  lemma DerivedClaim(o: Oracles, input: DecisionInput, c: WorkloadContract)
    ensures DerivedRecord(o, input, c).id == DerivedId(o, c, input.flow)
    ensures DerivedRecord(o, input, c).semantic == c.declaredClass
  {
  }

  lemma ImpostorYields(o: Oracles, q: DecisionInput, k: nat)
    requires DistinctDerivedIds(o) && Sealed(o, q) && Named(o, q) && k < |q.contracts|
    requires DistinctContracts(Swapped(q, k).contracts)
    ensures var b := Swapped(q, k);
            var x := DerivedRecord(o, b, b.contracts[k]);
            && x in Considered(o, b) && x.id == DerivedId(o, q.contracts[k], q.flow)
            && x.semantic == b.contracts[k].declaredClass && x.semantic != q.contracts[k].declaredClass
  {
    hide DistinctDerivedIds, DerivedRecord, DerivedRecords, DistinctContracts, SortedContracts;
    var b := Swapped(q, k);
    assert Yields(o, b, b.contracts[k]);
    DerivedMembership(o, b, |b.contracts|, DerivedRecord(o, b, b.contracts[k]));
    DerivedClaim(o, b, b.contracts[k]);
  }

  /** A considered record under the identity a contract derives is the record it derives. */
  lemma OnlyOwnContract(o: Oracles, q: DecisionInput, k: nat, y: EvidenceRecord)
    requires DistinctDerivedIds(o) && Named(o, q) && k < |q.contracts|
    requires y in Considered(o, q) && y.id == DerivedId(o, q.contracts[k], q.flow)
    ensures y.semantic == q.contracts[k].declaredClass
  {
    hide DistinctDerivedIds, DerivedRecord, DerivedRecords, DerivedId, Yields;
    assert y !in q.evidence;
    DerivedMembership(o, q, |q.contracts|, y);
    var m :| 0 <= m < |q.contracts| && y == DerivedRecord(o, q, q.contracts[m]);
    DerivedClaim(o, q, q.contracts[m]);
    if m != k {
      DerivedIdsDiffer(o, q.flow, q.contracts[m], q.contracts[k]);
    }
  }

  // ---- a record that exhausted its encoder --------------------------------

  function Zeros(n: nat): (s: string)
    ensures |s| == n
  {
    seq(n, _ => '\0')
  }

  /** The record under an identity that sorts just after its own. */
  function Renamed(r: EvidenceRecord, n: nat): EvidenceRecord {
    r.(id := r.id + Zeros(n))
  }

  function Longest(rs: seq<EvidenceRecord>): (n: nat)
    ensures forall i | 0 <= i < |rs| :: |rs[i].id| <= n
  {
    if rs == [] then 0
    else
      var init := Longest(rs[..|rs| - 1]);
      if |rs[|rs| - 1].id| > init then |rs[|rs| - 1].id| else init
  }

  lemma {:induction false} ZerosSortFirst(n: nat, t: string)
    requires t != "" && forall i | 0 <= i < |t| :: t[i] != '\0'
    ensures TextLess(Zeros(n), t)
  {
  }

  /** Between an identity and the next canonical one there is room. */
  lemma {:induction false} RoomAfter(s: string, n: nat, t: string)
    requires TextLess(s, t) && forall i | 0 <= i < |t| :: t[i] != '\0'
    ensures TextLess(s + Zeros(n), t)
  {
    if s == "" {
      assert s + Zeros(n) == Zeros(n);
      ZerosSortFirst(n, t);
    } else {
      assert (s + Zeros(n))[0] == s[0] && (s + Zeros(n))[1..] == s[1..] + Zeros(n);
      if s[0] == t[0] {
        RoomAfter(s[1..], n, t[1..]);
      }
    }
  }

  lemma {:induction false} NotBefore(s: string, n: nat, t: string)
    requires TextLess(t, s)
    ensures TextLess(t, s + Zeros(n))
  {
    assert s != "" ==> (s + Zeros(n))[0] == s[0] && (s + Zeros(n))[1..] == s[1..] + Zeros(n);
    if t != "" && t[0] == s[0] {
      NotBefore(s[1..], n, t[1..]);
    }
  }

  function Replaced(q: DecisionInput, k: nat, n: nat): DecisionInput
    requires k < |q.evidence|
  {
    q.(evidence := q.evidence[k := Renamed(q.evidence[k], n)])
  }

  lemma {:induction false} SameFieldsRecords(a: seq<EvidenceRecord>, b: seq<EvidenceRecord>)
    requires |a| == |b| && forall i | 0 <= i < |a| :: RecordFields(a[i]) == RecordFields(b[i])
    ensures AllRecordFields(a) == AllRecordFields(b)
  {
    if a != [] {
      SameFieldsRecords(a[..|a| - 1], b[..|b| - 1]);
    }
  }

  lemma IdsOrderRecords(rs: seq<EvidenceRecord>)
    requires DistinctIds(rs)
    ensures StrictTotalOn(EvidenceIdLess, rs) && Ascending(EvidenceIdLess, Sort(EvidenceIdLess, rs))
  {
    hide Sort;
    EvidenceOrder();
    forall i, j | 0 <= i < j < |rs|
      ensures EvidenceIdLess(rs[i], rs[j]) || EvidenceIdLess(rs[j], rs[i])
    {
      TextLessTotal(rs[i].id, rs[j].id);
    }
    forall x | x in rs
      ensures !EvidenceIdLess(x, x)
    {
      TextLessIrreflexive(x.id);
    }
    SortAscending(EvidenceIdLess, rs);
  }

  lemma ReplacedAscending(rs: seq<EvidenceRecord>, p: nat, n: nat)
    requires Ascending(EvidenceIdLess, rs) && p < |rs|
    requires forall i | 0 <= i < |rs| :: Policy.IsCanonicalIdentity(rs[i].id)
    ensures Ascending(EvidenceIdLess, rs[p := Renamed(rs[p], n)])
  {
    hide Zeros, TextLess;
    var t := rs[p := Renamed(rs[p], n)];
    forall i, j | 0 <= i < j < |t|
      ensures EvidenceIdLess(t[i], t[j])
    {
      assert EvidenceIdLess(rs[i], rs[j]);
      if i == p {
        RoomAfter(rs[p].id, n, rs[j].id);
      } else if j == p {
        NotBefore(rs[p].id, n, rs[i].id);
      }
    }
  }

  lemma SwapOne<T>(a: seq<T>, b: seq<T>, i: nat, j: nat, x: T)
    requires multiset(a) == multiset(b) && i < |a| && j < |b| && a[i] == b[j]
    ensures multiset(a[i := x]) == multiset(b[j := x])
  {
    assert multiset(a[i := x]) == multiset(a) - multiset{a[i]} + multiset{x};
    assert multiset(b[j := x]) == multiset(b) - multiset{b[j]} + multiset{x};
  }

  /** Renaming a record leaves every record where it was in the order of identities. */
  lemma ReplacedSorted(q: DecisionInput, k: nat, n: nat, p: nat)
    requires DistinctIds(q.evidence) && k < |q.evidence| && DistinctIds(Replaced(q, k, n).evidence)
    requires forall i | 0 <= i < |q.evidence| :: Policy.IsCanonicalIdentity(q.evidence[i].id)
    requires p < |SortedEvidence(q)| && SortedEvidence(q)[p] == q.evidence[k]
    ensures SortedEvidence(Replaced(q, k, n)) == SortedEvidence(q)[p := Renamed(q.evidence[k], n)]
  {
    hide Sort, Renamed, EvidenceIdLess, Policy.IsCanonicalIdentity;
    var rs, b := SortedEvidence(q), Replaced(q, k, n);
    var t := rs[p := Renamed(rs[p], n)];
    IdsOrderRecords(q.evidence);
    IdsOrderRecords(b.evidence);
    MultisetMembership(rs, q.evidence);
    forall i | 0 <= i < |rs|
      ensures Policy.IsCanonicalIdentity(rs[i].id)
    {
      assert rs[i] in q.evidence;
    }
    ReplacedAscending(rs, p, n);
    SwapOne(rs, q.evidence, p, k, Renamed(rs[p], n));
    MultisetMembership(t, b.evidence);
    MultisetMembership(SortedEvidence(b), b.evidence);
    AscendingUnique(EvidenceIdLess, SortedEvidence(b), t);
  }

  lemma ReplacedDistinct(q: DecisionInput, k: nat, n: nat)
    requires DistinctIds(q.evidence) && k < |q.evidence| && n > Longest(q.evidence)
    ensures DistinctIds(Replaced(q, k, n).evidence)
    ensures Consistent(q, Replaced(q, k, n))
  {
    hide Longest, Zeros;
    var b := Replaced(q, k, n);
    forall i | 0 <= i < |q.evidence|
      ensures q.evidence[i].id != b.evidence[k].id
    {
      assert |q.evidence[i].id| <= Longest(q.evidence) < |b.evidence[k].id|;
    }
  }

  lemma ReplacedSealed(o: Oracles, q: DecisionInput, k: nat, n: nat)
    requires Sealed(o, q) && Named(o, q) && k < |q.evidence| && !ContentFits(q.evidence[k]) && n > Longest(q.evidence)
    ensures Sealed(o, Replaced(q, k, n))
    ensures EvidenceSetDigest(o, Replaced(q, k, n)) == EvidenceSetDigest(o, q)
  {
    hide AllRecordFields, AllContractFields, TotalWidth, Sort, DefinitionWidth, ContractDigest, Longest, Zeros,
         DerivedId, Policy.IsCanonicalIdentity;
    var b := Replaced(q, k, n);
    ReplacedDistinct(q, k, n);
    var rs := SortedEvidence(q);
    MultisetMembership(rs, q.evidence);
    assert q.evidence[k] in rs;
    var p :| 0 <= p < |rs| && rs[p] == q.evidence[k];
    ReplacedSorted(q, k, n, p);
    SameFieldsRecords(SortedEvidence(q), SortedEvidence(b));
    SameInputFields(q, b);
  }

  lemma LongIdIsNew(rs: seq<EvidenceRecord>, id: string, y: EvidenceRecord)
    requires y in rs && y.id == id
    ensures |id| <= Longest(rs)
  {
  }

  lemma ReplacedDecidesOtherwise(o: Oracles, q: DecisionInput, k: nat, n: nat)
    requires Sealed(o, q) && k < |q.evidence| && n > Longest(q.evidence) && n > Longest(Considered(o, q))
    ensures Decision(o, Replaced(q, k, n)) != Decision(o, q)
  {
    hide Decision, Longest, Considered, Zeros, SortedContracts;
    var b := Replaced(q, k, n);
    ReplacedDistinct(q, k, n);
    if Decision(o, b) == Decision(o, q) {
      ReplacedConsidered(o, q, k, n);
      var y := EqualDecisionsShareRecords(o, b, q, b.evidence[k]);
      LongIdIsNew(Considered(o, q), b.evidence[k].id, y);
      assert false;
    }
  }

  lemma ReplacedConsidered(o: Oracles, q: DecisionInput, k: nat, n: nat)
    requires k < |q.evidence|
    ensures Replaced(q, k, n).evidence[k] in Considered(o, Replaced(q, k, n))
  {
    var b := Replaced(q, k, n);
    assert Considered(o, b)[k] == b.evidence[k];
  }

  // ---- exactly when -------------------------------------------------------

  lemma {:induction false} IllegibleIsBlind(o: Oracles, q: DecisionInput) returns (b: DecisionInput)
    requires DistinctDerivedIds(o) && Sealed(o, q) && Named(o, q) && !Legible(q)
    ensures Indistinct(o, q, b) && Decision(o, b) != Decision(o, q)
  {
    hide DistinctDerivedIds, Named, Consistent, Decision, EvidenceSetDigest, ContentFits, DefinitionFits, Longest,
         Considered, Swapped, Replaced, SortedContracts, EvidenceDigest, ContractDigest, WorkloadGeneration;
    if k :| 0 <= k < |q.contracts| && !DefinitionFits(q.contracts[k]) {
      b := Swapped(q, k);
      NamedContracts(o, q);
      SwappedSealed(o, q, k);
      SwappedFrame(q, k);
      SelfConsistent(q, b);
      SwappedDecidesOtherwise(o, q, k);
    } else {
      var k :| 0 <= k < |q.evidence| && !ContentFits(q.evidence[k]);
      var n := 1 + Longest(q.evidence) + Longest(Considered(o, q));
      b := Replaced(q, k, n);
      ReplacedSealed(o, q, k, n);
      ReplacedDistinct(q, k, n);
      ReplacedFrame(q, k, n);
      ReplacedDecidesOtherwise(o, q, k, n);
    }
  }

  lemma NamedContracts(o: Oracles, q: DecisionInput)
    requires Named(o, q)
    ensures DistinctContracts(q.contracts)
  {
  }

  lemma SwappedFrame(q: DecisionInput, k: nat)
    requires k < |q.contracts|
    ensures var b := Swapped(q, k); b == q.(contracts := b.contracts)
  {
  }

  lemma ReplacedFrame(q: DecisionInput, k: nat, n: nat)
    requires k < |q.evidence|
    ensures var b := Replaced(q, k, n); b == q.(evidence := b.evidence)
  {
  }

  lemma OversizedIsBlind(o: Oracles, q: DecisionInput)
    requires Sealed(o, q) && !Fits(q)
    ensures var b := q.(revoked := !q.revoked); Indistinct(o, q, b) && Decision(o, b) != Decision(o, q)
  {
    hide Decision, EvidenceSetDigest, Fits, Consistent, EvidenceDigest, ContractDigest, WorkloadGeneration;
    OversizedDigestIsBlind(o, q);
    SelfConsistent(q, q.(revoked := !q.revoked));
  }

  /**
   * The digest of a question decides it if and only if its evidence set fits the encoder and
   * no record and no contract in it exhausted its own.
   */
  lemma DigestDecidesExactlyWhen(o: Oracles, q: DecisionInput)
    requires CollisionFree(o) && Sealed(o, q) && Named(o, q)
    ensures Fits(q) && Legible(q) <==> forall b | Indistinct(o, q, b) :: Decision(o, b) == Decision(o, q)
  {
    hide Sealed, Named, Consistent, Decision, EvidenceSetDigest, Fits, Legible, DistinctFlowIds, DistinctEvidenceIds,
         DistinctDerivedIds, DistinctDigests;
    if Fits(q) && Legible(q) {
      forall b | Indistinct(o, q, b)
        ensures Decision(o, b) == Decision(o, q)
      {
        EqualDigestsEqualDecisions(o, q, b);
      }
    } else if Fits(q) {
      var b := IllegibleIsBlind(o, q);
    } else {
      OversizedIsBlind(o, q);
    }
  }
}
