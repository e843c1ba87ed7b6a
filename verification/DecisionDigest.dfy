/**
 * The digest a memoised decision is keyed by: which inputs it covers, when the encoder is
 * exhausted, and why equal digests mean equal decisions.
 */
module DecisionDigest {
  import opened Domain
  import opened Sorting
  import opened DecisionEngine
  import opened DecisionOrder
  import opened DecisionTheorems

  function Width(f: Field): nat {
    match f
    case U8(_) => 1
    case Flag(_) => 1
    case U32(_) => 4
    case U64(_) => 8
    case Blob(bytes) => 4 + |bytes|
  }

  function TotalWidth(fs: seq<Field>): nat {
    if fs == [] then 0 else TotalWidth(fs[..|fs| - 1]) + Width(fs[|fs| - 1])
  }

  predicate EvidenceIdLess(a: EvidenceRecord, b: EvidenceRecord) {
    TextLess(a.id, b.id)
  }

  predicate ContractIdLess(a: WorkloadContract, b: WorkloadContract) {
    TextLess(a.id, b.id)
  }

  // ---- what is written ----------------------------------------------------

  function HeaderFields(input: DecisionInput): seq<Field> {
    [U8(1), U64(input.flow.id.hi), U64(input.flow.id.lo), U64(input.flow.generation),
     U64(input.policy.generation), U64(input.authority.authoritySequence), U64(input.authority.epoch),
     U64(input.authority.coordinatorBoot), U64(input.authority.tick)]
  }

  lemma ContractOrder()
    ensures StrictWeakOrder(ContractIdLess)
  {
    forall a: WorkloadContract, b | ContractIdLess(a, b)
      ensures !ContractIdLess(b, a)
    {
      TextLessAsymmetric(a.id, b.id);
    }
    forall a: WorkloadContract, b, c | ContractIdLess(a, b) && ContractIdLess(b, c)
      ensures ContractIdLess(a, c)
    {
      TextLessTransitive(a.id, b.id, c.id);
    }
    forall a: WorkloadContract, b, c | !ContractIdLess(b, a) && !ContractIdLess(c, b)
      ensures !ContractIdLess(c, a)
    {
      if ContractIdLess(c, a) && a.id != b.id {
        TextLessTotal(a.id, b.id);
        TextLessTransitive(c.id, a.id, b.id);
      }
    }
  }

  lemma EvidenceOrder()
    ensures StrictWeakOrder(EvidenceIdLess)
  {
    forall a: EvidenceRecord, b | EvidenceIdLess(a, b)
      ensures !EvidenceIdLess(b, a)
    {
      TextLessAsymmetric(a.id, b.id);
    }
    forall a: EvidenceRecord, b, c | EvidenceIdLess(a, b) && EvidenceIdLess(b, c)
      ensures EvidenceIdLess(a, c)
    {
      TextLessTransitive(a.id, b.id, c.id);
    }
    forall a: EvidenceRecord, b, c | !EvidenceIdLess(b, a) && !EvidenceIdLess(c, b)
      ensures !EvidenceIdLess(c, a)
    {
      if EvidenceIdLess(c, a) && a.id != b.id {
        TextLessTotal(a.id, b.id);
        TextLessTransitive(c.id, a.id, b.id);
      }
    }
  }

  function RecordFields(r: EvidenceRecord): (fs: seq<Field>)
    ensures |fs| == 3
  {
    [Blob(r.contentDigest), U8(EvidenceStateCode(r.state)), U64(r.freshUntil)]
  }

  function ContractFields(c: WorkloadContract): (fs: seq<Field>)
    ensures |fs| == 2
  {
    [Blob(c.definitionDigest), U8(ContractStateCode(c.state))]
  }

  function AllRecordFields(rs: seq<EvidenceRecord>): seq<Field> {
    if rs == [] then [] else AllRecordFields(rs[..|rs| - 1]) + RecordFields(rs[|rs| - 1])
  }

  function AllContractFields(cs: seq<WorkloadContract>): seq<Field> {
    if cs == [] then [] else AllContractFields(cs[..|cs| - 1]) + ContractFields(cs[|cs| - 1])
  }

  function SortedEvidence(input: DecisionInput): (s: seq<EvidenceRecord>)
    ensures |s| == |input.evidence|
  {
    Sort(EvidenceIdLess, input.evidence)
  }

  function SortedContracts(input: DecisionInput): (s: seq<WorkloadContract>)
    ensures |s| == |input.contracts|
  {
    Sort(ContractIdLess, input.contracts)
  }

  function InputFields(input: DecisionInput): seq<Field> {
    HeaderFields(input)
    + [U32(|input.evidence|)] + AllRecordFields(SortedEvidence(input))
    + [U32(|input.contracts|)] + AllContractFields(SortedContracts(input))
    + [Flag(input.revoked)]
  }

  predicate Fits(input: DecisionInput) {
    TotalWidth(InputFields(input)) <= MAX_BLOB_BYTES
  }

  function EvidenceSetDigest(o: Oracles, input: DecisionInput): Digest {
    if Fits(input) then o.sha256(InputFields(input)) else ZERO_DIGEST
  }

  // ---- the encoder --------------------------------------------------------

  /** An append-only encoder that refuses a field that would exceed its bound. */
  class FieldWriter {
    const maxBytes: nat
    var fields: seq<Field>
    var size: nat

    constructor (maxBytes: nat)
      ensures this.maxBytes == maxBytes && fields == [] && size == 0
    {
      this.maxBytes := maxBytes;
      fields := [];
      size := 0;
    }

    ghost predicate Valid()
      reads this
    {
      size == TotalWidth(fields) <= maxBytes
    }

    method Put(f: Field) returns (ok: bool)
      requires Valid()
      modifies this
      ensures Valid()
      ensures ok <==> TotalWidth(old(fields)) + Width(f) <= maxBytes
      ensures fields == if ok then old(fields) + [f] else old(fields)
    {
      ok := size + Width(f) <= maxBytes;
      if ok {
        fields := fields + [f];
        size := size + Width(f);
      }
    }

    /** Writes the fields in turn and stops at the first that does not fit. */
    method PutAll(fs: seq<Field>) returns (ok: bool)
      requires Valid()
      modifies this
      ensures Valid()
      ensures ok <==> TotalWidth(old(fields) + fs) <= maxBytes
      ensures ok ==> fields == old(fields) + fs
    {
      ok := true;
      var i := 0;
      while i < |fs| && ok
        invariant 0 <= i <= |fs|
        invariant Valid()
        invariant ok ==> fields == old(fields) + fs[..i]
        invariant !ok ==> TotalWidth(old(fields) + fs) > maxBytes
      {
        WidthStep(old(fields), fs, i);
        ok := Put(fs[i]);
        i := i + 1;
      }
      assert fs[..|fs|] == fs;
    }
  }

  lemma {:induction false} WidthPrefix(a: seq<Field>, b: seq<Field>)
    ensures TotalWidth(a) <= TotalWidth(a + b)
  {
    if b == [] {
      assert a + b == a;
    } else {
      assert (a + b)[..|a + b| - 1] == a + b[..|b| - 1];
      WidthPrefix(a, b[..|b| - 1]);
    }
  }

  lemma WidthStep(start: seq<Field>, fs: seq<Field>, i: nat)
    requires i < |fs|
    ensures start + fs[..i + 1] == start + fs[..i] + [fs[i]]
    ensures TotalWidth(start + fs[..i + 1]) == TotalWidth(start + fs[..i]) + Width(fs[i])
    ensures TotalWidth(start + fs[..i + 1]) <= TotalWidth(start + fs)
  {
    var next := start + fs[..i + 1];
    assert next == start + fs[..i] + [fs[i]];
    assert next[..|next| - 1] == start + fs[..i];
    assert start + fs == next + fs[i + 1..];
    WidthPrefix(next, fs[i + 1..]);
  }

  lemma {:induction false} WidthConcat(a: seq<Field>, b: seq<Field>)
    ensures TotalWidth(a + b) == TotalWidth(a) + TotalWidth(b)
  {
    if b == [] {
      assert a + b == a;
    } else {
      assert (a + b)[..|a + b| - 1] == a + b[..|b| - 1];
      WidthConcat(a, b[..|b| - 1]);
    }
  }

  method PutRecords(writer: FieldWriter, records: seq<EvidenceRecord>) returns (ok: bool)
    requires writer.Valid()
    modifies writer
    ensures writer.Valid()
    ensures ok <==> TotalWidth(old(writer.fields) + AllRecordFields(records)) <= writer.maxBytes
    ensures ok ==> writer.fields == old(writer.fields) + AllRecordFields(records)
  {
    hide RecordFields;
    ok := true;
    var i := 0;
    ghost var start := writer.fields;
    while i < |records| && ok
      invariant 0 <= i <= |records|
      invariant writer.Valid()
      invariant ok ==> writer.fields == start + AllRecordFields(records[..i])
      invariant !ok ==> TotalWidth(start + AllRecordFields(records)) > writer.maxBytes
    {
      ok := writer.PutAll(RecordFields(records[i]));
      assert records[..i + 1][..i] == records[..i];
      assert start + AllRecordFields(records[..i + 1]) == start + AllRecordFields(records[..i]) + RecordFields(records[i]);
      RecordFieldsPrefix(start, records, i + 1);
      i := i + 1;
    }
    assert records[..|records|] == records;
  }

  lemma {:induction false} RecordFieldsPrefix(start: seq<Field>, records: seq<EvidenceRecord>, i: nat)
    requires i <= |records|
    ensures TotalWidth(start + AllRecordFields(records[..i])) <= TotalWidth(start + AllRecordFields(records))
    decreases |records|
  {
    if i == |records| {
      assert records[..i] == records;
    } else {
      var init := records[..|records| - 1];
      assert init[..i] == records[..i];
      RecordFieldsPrefix(start, init, i);
      WidthPrefix(start + AllRecordFields(init), RecordFields(records[|records| - 1]));
      assert start + AllRecordFields(init) + RecordFields(records[|records| - 1]) == start + AllRecordFields(records);
    }
  }

  method PutContracts(writer: FieldWriter, contracts: seq<WorkloadContract>) returns (ok: bool)
    requires writer.Valid()
    modifies writer
    ensures writer.Valid()
    ensures ok <==> TotalWidth(old(writer.fields) + AllContractFields(contracts)) <= writer.maxBytes
    ensures ok ==> writer.fields == old(writer.fields) + AllContractFields(contracts)
  {
    ok := true;
    var i := 0;
    ghost var start := writer.fields;
    while i < |contracts| && ok
      invariant 0 <= i <= |contracts|
      invariant writer.Valid()
      invariant ok ==> writer.fields == start + AllContractFields(contracts[..i])
      invariant !ok ==> TotalWidth(start + AllContractFields(contracts)) > writer.maxBytes
    {
      ok := writer.PutAll(ContractFields(contracts[i]));
      assert contracts[..i + 1][..i] == contracts[..i];
      assert start + AllContractFields(contracts[..i + 1])
          == start + AllContractFields(contracts[..i]) + ContractFields(contracts[i]);
      ContractFieldsPrefix(start, contracts, i + 1);
      i := i + 1;
    }
    assert contracts[..|contracts|] == contracts;
  }

  lemma {:induction false} ContractFieldsPrefix(start: seq<Field>, contracts: seq<WorkloadContract>, i: nat)
    requires i <= |contracts|
    ensures TotalWidth(start + AllContractFields(contracts[..i])) <= TotalWidth(start + AllContractFields(contracts))
    decreases |contracts|
  {
    if i == |contracts| {
      assert contracts[..i] == contracts;
    } else {
      var init := contracts[..|contracts| - 1];
      assert init[..i] == contracts[..i];
      ContractFieldsPrefix(start, init, i);
      WidthPrefix(start + AllContractFields(init), ContractFields(contracts[|contracts| - 1]));
      assert start + AllContractFields(init) + ContractFields(contracts[|contracts| - 1])
          == start + AllContractFields(contracts);
    }
  }

  method ComputeEvidenceSetDigest(o: Oracles, input: DecisionInput) returns (d: Digest)
    ensures d == EvidenceSetDigest(o, input)
  {
    var writer := new FieldWriter(MAX_BLOB_BYTES);
    var records := Sort(EvidenceIdLess, input.evidence);
    var contracts := Sort(ContractIdLess, input.contracts);
    ghost var f1 := HeaderFields(input) + [U32(|input.evidence|)];
    ghost var f2 := f1 + AllRecordFields(records);
    ghost var f3 := f2 + [U32(|input.contracts|)];
    ghost var f4 := f3 + AllContractFields(contracts);
    assert InputFields(input) == f4 + [Flag(input.revoked)];
    WidthPrefix(f1, AllRecordFields(records));
    WidthPrefix(f2, [U32(|input.contracts|)]);
    WidthPrefix(f3, AllContractFields(contracts));
    WidthPrefix(f4, [Flag(input.revoked)]);
    var ok := writer.PutAll(HeaderFields(input) + [U32(|records|)]);
    assert [] + f1 == f1;
    if ok {
      ok := PutRecords(writer, records);
    }
    if ok {
      ok := writer.PutAll([U32(|contracts|)]);
    }
    if ok {
      ok := PutContracts(writer, contracts);
    }
    if ok {
      ok := writer.PutAll([Flag(input.revoked)]);
    }
    d := if ok then o.sha256(writer.fields) else ZERO_DIGEST;
  }

  // ---- when the encoder is exhausted --------------------------------------

  lemma {:induction false} RecordsWidth(rs: seq<EvidenceRecord>)
    requires forall r | r in rs :: |r.contentDigest| == 32
    ensures TotalWidth(AllRecordFields(rs)) == 45 * |rs|
  {
    if rs != [] {
      var init, last := rs[..|rs| - 1], rs[|rs| - 1];
      RecordsWidth(init);
      WidthConcat(AllRecordFields(init), RecordFields(last));
      assert last in rs;
      assert RecordFields(last) == [Blob(last.contentDigest)] + [U8(EvidenceStateCode(last.state))] + [U64(last.freshUntil)];
      WidthConcat([Blob(last.contentDigest)] + [U8(EvidenceStateCode(last.state))], [U64(last.freshUntil)]);
      WidthConcat([Blob(last.contentDigest)], [U8(EvidenceStateCode(last.state))]);
    }
  }

  lemma {:induction false} ContractsWidth(cs: seq<WorkloadContract>)
    requires forall c | c in cs :: |c.definitionDigest| == 32
    ensures TotalWidth(AllContractFields(cs)) == 37 * |cs|
  {
    if cs != [] {
      var init, last := cs[..|cs| - 1], cs[|cs| - 1];
      ContractsWidth(init);
      WidthConcat(AllContractFields(init), ContractFields(last));
      assert last in cs;
      assert ContractFields(last) == [Blob(last.definitionDigest)] + [U8(ContractStateCode(last.state))];
      WidthConcat([Blob(last.definitionDigest)], [U8(ContractStateCode(last.state))]);
    }
  }

  lemma {:induction false} WordsWidth(fs: seq<Field>)
    requires forall f | f in fs :: f.U64?
    ensures TotalWidth(fs) == 8 * |fs|
  {
    if fs != [] {
      WordsWidth(fs[..|fs| - 1]);
      assert fs[|fs| - 1] in fs;
    }
  }

  lemma HeaderWidth(input: DecisionInput)
    ensures TotalWidth(HeaderFields(input)) == 65
  {
    var words := HeaderFields(input)[1..];
    WordsWidth(words);
    assert HeaderFields(input) == [U8(1)] + words;
    WidthConcat([U8(1)], words);
  }

  /** With 32-byte digests, `n` records and `m` contracts take 74 + 45n + 37m bytes. */
  lemma FitsExactlyWhen(input: DecisionInput)
    requires forall r | r in input.evidence :: |r.contentDigest| == 32
    requires forall c | c in input.contracts :: |c.definitionDigest| == 32
    ensures Fits(input) <==> 74 + 45 * |input.evidence| + 37 * |input.contracts| <= MAX_BLOB_BYTES
  {
    var rs, cs := SortedEvidence(input), SortedContracts(input);
    MultisetMembership(rs, input.evidence);
    MultisetMembership(cs, input.contracts);
    RecordsWidth(rs);
    ContractsWidth(cs);
    HeaderWidth(input);
    var f1 := HeaderFields(input) + [U32(|rs|)];
    var f2 := f1 + AllRecordFields(rs);
    var f3 := f2 + [U32(|cs|)];
    var f4 := f3 + AllContractFields(cs);
    WidthConcat(HeaderFields(input), [U32(|rs|)]);
    WidthConcat(f1, AllRecordFields(rs));
    WidthConcat(f2, [U32(|cs|)]);
    WidthConcat(f3, AllContractFields(cs));
    WidthConcat(f4, [Flag(input.revoked)]);
  }

  // ---- equal digests, equal decisions -------------------------------------

  lemma SliceBefore(a: seq<Field>, b: seq<Field>, i: nat, j: nat)
    requires i <= j <= |a|
    ensures (a + b)[i..j] == a[i..j]
  {
  }

  lemma SliceAfter(a: seq<Field>, b: seq<Field>)
    ensures (a + b)[|a|..|a| + |b|] == b
  {
  }

  lemma {:induction false} RecordFieldsLength(rs: seq<EvidenceRecord>)
    ensures |AllRecordFields(rs)| == 3 * |rs|
    ensures forall i | 0 <= i < |rs| :: AllRecordFields(rs)[3 * i..3 * i + 3] == RecordFields(rs[i])
  {
    hide RecordFields;
    if rs != [] {
      var init := rs[..|rs| - 1];
      RecordFieldsLength(init);
      forall i | 0 <= i < |rs|
        ensures AllRecordFields(rs)[3 * i..3 * i + 3] == RecordFields(rs[i])
      {
        if i < |init| {
          SliceBefore(AllRecordFields(init), RecordFields(rs[|init|]), 3 * i, 3 * i + 3);
        } else {
          SliceAfter(AllRecordFields(init), RecordFields(rs[|init|]));
        }
      }
    }
  }

  lemma {:induction false} ContractFieldsLength(cs: seq<WorkloadContract>)
    ensures |AllContractFields(cs)| == 2 * |cs|
    ensures forall i | 0 <= i < |cs| :: AllContractFields(cs)[2 * i..2 * i + 2] == ContractFields(cs[i])
  {
    hide ContractFields;
    if cs != [] {
      var init := cs[..|cs| - 1];
      ContractFieldsLength(init);
      forall i | 0 <= i < |cs|
        ensures AllContractFields(cs)[2 * i..2 * i + 2] == ContractFields(cs[i])
      {
        if i < |init| {
          SliceBefore(AllContractFields(init), ContractFields(cs[|init|]), 2 * i, 2 * i + 2);
        } else {
          SliceAfter(AllContractFields(init), ContractFields(cs[|init|]));
        }
      }
    }
  }

  lemma StateCodeInjective(a: EvidenceState, b: EvidenceState)
    requires EvidenceStateCode(a) == EvidenceStateCode(b)
    ensures a == b
  {
  }

  lemma ContractStateCodeInjective(a: ContractState, b: ContractState)
    requires ContractStateCode(a) == ContractStateCode(b)
    ensures a == b
  {
  }

  lemma SameRecordFields(a: seq<EvidenceRecord>, b: seq<EvidenceRecord>)
    requires AllRecordFields(a) == AllRecordFields(b)
    ensures |a| == |b|
    ensures forall i | 0 <= i < |a| ::
              && a[i].contentDigest == b[i].contentDigest
              && a[i].state == b[i].state
              && a[i].freshUntil == b[i].freshUntil
  {
    RecordFieldsLength(a);
    RecordFieldsLength(b);
    forall i | 0 <= i < |a|
      ensures a[i].contentDigest == b[i].contentDigest && a[i].state == b[i].state && a[i].freshUntil == b[i].freshUntil
    {
      assert RecordFields(a[i]) == RecordFields(b[i]);
      assert RecordFields(a[i])[0] == RecordFields(b[i])[0] && RecordFields(a[i])[1] == RecordFields(b[i])[1]
          && RecordFields(a[i])[2] == RecordFields(b[i])[2];
      StateCodeInjective(a[i].state, b[i].state);
    }
  }

  lemma SameContractFields(a: seq<WorkloadContract>, b: seq<WorkloadContract>)
    requires AllContractFields(a) == AllContractFields(b)
    ensures |a| == |b|
    ensures forall i | 0 <= i < |a| :: a[i].definitionDigest == b[i].definitionDigest && a[i].state == b[i].state
  {
    ContractFieldsLength(a);
    ContractFieldsLength(b);
    forall i | 0 <= i < |a|
      ensures a[i].definitionDigest == b[i].definitionDigest && a[i].state == b[i].state
    {
      assert ContractFields(a[i]) == ContractFields(b[i]);
      assert ContractFields(a[i])[0] == ContractFields(b[i])[0] && ContractFields(a[i])[1] == ContractFields(b[i])[1];
      ContractStateCodeInjective(a[i].state, b[i].state);
    }
  }

  /** The two inputs agree on everything the digest covers. */
  ghost predicate SameCovered(a: DecisionInput, b: DecisionInput) {
    && (a.flow.id, a.flow.generation) == (b.flow.id, b.flow.generation)
    && a.policy.generation == b.policy.generation
    && a.authority.authoritySequence == b.authority.authoritySequence
    && a.authority.epoch == b.authority.epoch
    && a.authority.coordinatorBoot == b.authority.coordinatorBoot
    && a.authority.tick == b.authority.tick
    && a.revoked == b.revoked
    && AllRecordFields(SortedEvidence(a)) == AllRecordFields(SortedEvidence(b))
    && AllContractFields(SortedContracts(a)) == AllContractFields(SortedContracts(b))
  }

  lemma SameHeader(a: DecisionInput, b: DecisionInput)
    requires HeaderFields(a) == HeaderFields(b)
    ensures (a.flow.id, a.flow.generation) == (b.flow.id, b.flow.generation)
    ensures a.policy.generation == b.policy.generation
    ensures a.authority.authoritySequence == b.authority.authoritySequence
    ensures a.authority.epoch == b.authority.epoch
    ensures a.authority.coordinatorBoot == b.authority.coordinatorBoot
    ensures a.authority.tick == b.authority.tick
  {
    assert forall i | 0 <= i < 9 :: HeaderFields(a)[i] == HeaderFields(b)[i];
    var x, y := HeaderFields(a), HeaderFields(b);
    assert x[1] == y[1] && x[2] == y[2] && x[3] == y[3] && x[4] == y[4] && x[5] == y[5] && x[6] == y[6] && x[7] == y[7]
        && x[8] == y[8];
  }

  lemma SplitEqual<T>(a: seq<T>, b: seq<T>, c: seq<T>, d: seq<T>)
    requires a + b == c + d && |a| == |c|
    ensures a == c && b == d
  {
    assert (a + b)[..|a|] == a && (c + d)[..|a|] == c;
    assert (a + b)[|a|..] == b && (c + d)[|a|..] == d;
  }

  function ContractSection(input: DecisionInput): seq<Field> {
    [U32(|input.contracts|)] + (AllContractFields(SortedContracts(input)) + [Flag(input.revoked)])
  }

  function RecordSection(input: DecisionInput): seq<Field> {
    [U32(|input.evidence|)] + (AllRecordFields(SortedEvidence(input)) + ContractSection(input))
  }

  lemma Sections(input: DecisionInput)
    ensures InputFields(input) == HeaderFields(input) + RecordSection(input)
  {
  }

  lemma ContractSectionDetermines(a: DecisionInput, b: DecisionInput)
    requires ContractSection(a) == ContractSection(b)
    ensures AllContractFields(SortedContracts(a)) == AllContractFields(SortedContracts(b))
    ensures a.revoked == b.revoked
  {
    var ca, cb := AllContractFields(SortedContracts(a)), AllContractFields(SortedContracts(b));
    SplitEqual([U32(|a.contracts|)], ca + [Flag(a.revoked)], [U32(|b.contracts|)], cb + [Flag(b.revoked)]);
    assert [U32(|a.contracts|)][0] == [U32(|b.contracts|)][0];
    ContractFieldsLength(SortedContracts(a));
    ContractFieldsLength(SortedContracts(b));
    SplitEqual(ca, [Flag(a.revoked)], cb, [Flag(b.revoked)]);
    assert [Flag(a.revoked)][0] == [Flag(b.revoked)][0];
  }

  lemma RecordSectionDetermines(a: DecisionInput, b: DecisionInput)
    requires RecordSection(a) == RecordSection(b)
    ensures AllRecordFields(SortedEvidence(a)) == AllRecordFields(SortedEvidence(b))
    ensures ContractSection(a) == ContractSection(b)
  {
    var ra, rb := AllRecordFields(SortedEvidence(a)), AllRecordFields(SortedEvidence(b));
    SplitEqual([U32(|a.evidence|)], ra + ContractSection(a), [U32(|b.evidence|)], rb + ContractSection(b));
    assert [U32(|a.evidence|)][0] == [U32(|b.evidence|)][0];
    RecordFieldsLength(SortedEvidence(a));
    RecordFieldsLength(SortedEvidence(b));
    SplitEqual(ra, ContractSection(a), rb, ContractSection(b));
  }

  /** The field sequence can be read back: each section has a length the sequence itself states. */
  lemma FieldsDetermineCovered(a: DecisionInput, b: DecisionInput)
    requires InputFields(a) == InputFields(b)
    ensures SameCovered(a, b)
  {
    Sections(a);
    Sections(b);
    SplitEqual(HeaderFields(a), RecordSection(a), HeaderFields(b), RecordSection(b));
    SameHeader(a, b);
    RecordSectionDetermines(a, b);
    ContractSectionDetermines(a, b);
  }

  lemma DigestDeterminesFields(o: Oracles, a: DecisionInput, b: DecisionInput)
    requires CollisionFree(o)
    requires Fits(a) && EvidenceSetDigest(o, a) == EvidenceSetDigest(o, b)
    ensures Fits(b) && InputFields(a) == InputFields(b)
  {
    assert o.sha256(InputFields(a)) != ZERO_DIGEST;
  }

  /** Digests match content, contracts arrive sorted and every active contract has its workload. */
  ghost predicate Sealed(o: Oracles, input: DecisionInput) {
    && input.flow.id == o.flowId(input.flow.key)
    && DistinctIds(input.evidence)
    && (forall i | 0 <= i < |input.evidence| ::
          input.evidence[i].contentDigest == EvidenceDigest(o, input.evidence[i]))
    && (forall i | 0 <= i < |input.contracts| ::
          && input.contracts[i].definitionDigest == ContractDigest(o, input.contracts[i])
          && input.contracts[i].state == ContractActive
          && WorkloadGeneration(input.workloads, input.contracts[i].workload)
             == Some(input.contracts[i].workloadGeneration))
    && SortedContracts(input) == input.contracts
  }

  /**
   * What the digest leaves out, and registry invariants supply: the same policy behind the
   * same generation, the same liveness behind the same authority sequence, and one record
   * behind each identity and state.
   */
  ghost predicate Consistent(a: DecisionInput, b: DecisionInput) {
    && a.policy == b.policy
    && (a.authority.authoritySequence == b.authority.authoritySequence ==>
          a.authority.live == b.authority.live && a.authority.known == b.authority.known)
    && (forall i, j | 0 <= i < |a.evidence| && 0 <= j < |b.evidence| ::
          a.evidence[i].id == b.evidence[j].id && a.evidence[i].state == b.evidence[j].state ==>
            a.evidence[i] == b.evidence[j])
  }

  /** Every digest in the question was hashed: no record and no contract exhausted its encoder. */
  predicate Legible(input: DecisionInput) {
    && (forall i | 0 <= i < |input.evidence| :: ContentFits(input.evidence[i]))
    && (forall i | 0 <= i < |input.contracts| :: DefinitionFits(input.contracts[i]))
  }

  lemma SameContentSameId(o: Oracles, a: EvidenceRecord, b: EvidenceRecord)
    requires CollisionFree(o) && ContentFits(a)
    requires EvidenceDigest(o, a) == EvidenceDigest(o, b)
    ensures a.id == b.id
  {
    assert ContentFits(EvidenceContent(a)) && (ContentFits(b) ==> ContentFits(EvidenceContent(b)));
    assert EvidenceContent(a) == EvidenceContent(b);
  }

  lemma SameDefinition(o: Oracles, a: WorkloadContract, b: WorkloadContract)
    requires CollisionFree(o) && DefinitionFits(a)
    requires ContractDigest(o, a) == ContractDigest(o, b)
    ensures ContractContent(a) == ContractContent(b)
  {
    assert DefinitionFits(ContractContent(a)) && (DefinitionFits(b) ==> DefinitionFits(ContractContent(b)));
  }

  lemma SameRecord(o: Oracles, a: DecisionInput, b: DecisionInput, x: EvidenceRecord, y: EvidenceRecord)
    requires CollisionFree(o) && Sealed(o, a) && Sealed(o, b) && Consistent(a, b)
    requires x in a.evidence && y in b.evidence && ContentFits(x)
    requires x.contentDigest == y.contentDigest && x.state == y.state
    ensures x == y
  {
    hide CollisionFree, EvidenceDigest, ContractDigest, ContentFits;
    var i :| 0 <= i < |a.evidence| && a.evidence[i] == x;
    var j :| 0 <= j < |b.evidence| && b.evidence[j] == y;
    SameContentSameId(o, x, y);
  }

  lemma SameEvidence(o: Oracles, a: DecisionInput, b: DecisionInput)
    requires CollisionFree(o) && Sealed(o, a) && Sealed(o, b) && Consistent(a, b) && SameCovered(a, b) && Legible(a)
    ensures SortedEvidence(a) == SortedEvidence(b)
  {
    hide CollisionFree, Sealed, Consistent, ContentFits, DefinitionFits;
    var x, y := SortedEvidence(a), SortedEvidence(b);
    SameRecordFields(x, y);
    MultisetMembership(x, a.evidence);
    MultisetMembership(y, b.evidence);
    forall i | 0 <= i < |x|
      ensures x[i] == y[i]
    {
      assert x[i] in x && y[i] in y;
      SameRecord(o, a, b, x[i], y[i]);
    }
  }

  /** The two contracts say the same, whenever they were created and activated. */
  ghost predicate SameContract(a: WorkloadContract, b: WorkloadContract) {
    ContractContent(a) == ContractContent(b) && a.definitionDigest == b.definitionDigest && a.state == b.state
  }

  lemma SameContracts(o: Oracles, a: DecisionInput, b: DecisionInput)
    requires CollisionFree(o) && Sealed(o, a) && Sealed(o, b) && SameCovered(a, b) && Legible(a)
    ensures |a.contracts| == |b.contracts|
    ensures forall i | 0 <= i < |a.contracts| :: SameContract(a.contracts[i], b.contracts[i])
  {
    hide CollisionFree, ContractContent, ContractDigest, ContentFits, DefinitionFits;
    SameContractFields(a.contracts, b.contracts);
    forall i | 0 <= i < |a.contracts|
      ensures SameContract(a.contracts[i], b.contracts[i])
    {
      SameDefinition(o, a.contracts[i], b.contracts[i]);
    }
  }

  lemma SameContractDerives(o: Oracles, a: DecisionInput, b: DecisionInput, x: WorkloadContract, y: WorkloadContract)
    requires SameQuestion(a, b) && SameContract(x, y)
    ensures DerivedRecord(o, a, x) == DerivedRecord(o, b, y)
    ensures DerivedId(o, x, a.flow) == DerivedId(o, y, b.flow)
    ensures ContractCovers(x, a.flow.key) == ContractCovers(y, b.flow.key)
  {
    var c := ContractContent(x);
    assert x == c.(state := x.state, definitionDigest := x.definitionDigest, createdTick := x.createdTick,
                   activatedTick := x.activatedTick, retiredTick := x.retiredTick);
    assert y == c.(state := y.state, definitionDigest := y.definitionDigest, createdTick := y.createdTick,
                   activatedTick := y.activatedTick, retiredTick := y.retiredTick);
  }

  lemma {:induction false} SameDerived(o: Oracles, a: DecisionInput, b: DecisionInput, n: nat)
    requires n <= |a.contracts| == |b.contracts|
    requires Sealed(o, a) && Sealed(o, b) && SameQuestion(a, b)
    requires forall i | 0 <= i < |a.contracts| :: SameContract(a.contracts[i], b.contracts[i])
    requires forall id :: IdIn(a.evidence, id) <==> IdIn(b.evidence, id)
    ensures DerivedRecords(o, a, n) == DerivedRecords(o, b, n)
  {
    hide DerivedRecord, DerivedId, ContractCovers, SameContract, EvidenceDigest, ContractDigest, IdIn, SortedContracts,
         DistinctIds;
    if n > 0 {
      SameDerived(o, a, b, n - 1);
      SameContractDerives(o, a, b, a.contracts[n - 1], b.contracts[n - 1]);
    }
  }

  lemma SameIds(a: seq<EvidenceRecord>, b: seq<EvidenceRecord>, id: string)
    requires multiset(a) == multiset(b)
    requires IdIn(a, id)
    ensures IdIn(b, id)
  {
    MultisetMembership(a, b);
    var j :| 0 <= j < |a| && a[j].id == id;
    assert a[j] in b;
  }

  lemma SameQuestionBehindDigest(o: Oracles, a: DecisionInput, b: DecisionInput)
    requires CollisionFree(o) && Sealed(o, a) && Sealed(o, b) && Consistent(a, b) && SameCovered(a, b)
    ensures SameQuestion(a, b)
  {
    assert o.flowId(a.flow.key) == o.flowId(b.flow.key);
  }

  lemma SameConsidered(o: Oracles, a: DecisionInput, b: DecisionInput)
    requires CollisionFree(o) && Sealed(o, a) && Sealed(o, b) && Consistent(a, b) && SameCovered(a, b) && Legible(a)
    ensures SameQuestion(a, b)
    ensures SameElements(Considered(o, a), Considered(o, b))
  {
    SameQuestionBehindDigest(o, a, b);
    SameEvidence(o, a, b);
    SameContracts(o, a, b);
    assert multiset(a.evidence) == multiset(SortedEvidence(a)) == multiset(b.evidence);
    MultisetMembership(a.evidence, b.evidence);
    forall id
      ensures IdIn(a.evidence, id) <==> IdIn(b.evidence, id)
    {
      if IdIn(a.evidence, id) {
        SameIds(a.evidence, b.evidence, id);
      }
      if IdIn(b.evidence, id) {
        SameIds(b.evidence, a.evidence, id);
      }
    }
    SameDerived(o, a, b, |a.contracts|);
  }

  lemma SameConsideredRanked(o: Oracles, a: DecisionInput, b: DecisionInput, c: Candidate)
    requires DistinctIds(a.evidence) && DistinctIds(b.evidence) && SameQuestion(a, b)
    requires SameElements(Considered(o, a), Considered(o, b))
    requires c in Ranked(o, a)
    ensures c in Ranked(o, b)
  {
    var r := RankedSource(o, a, c);
    AssessSameQuestion(o, a, b, Fresh(r));
    RankedTarget(o, b, r);
  }

  /**
   * Equal digests mean equal decisions, although workload generations, acceptance sequence
   * numbers and the set of live publishers are not covered by the digest.
   */
  lemma EqualDigestsEqualDecisions(o: Oracles, a: DecisionInput, b: DecisionInput)
    requires CollisionFree(o) && Sealed(o, a) && Sealed(o, b) && Consistent(a, b)
    requires Fits(a) && Legible(a) && EvidenceSetDigest(o, a) == EvidenceSetDigest(o, b)
    ensures Decision(o, a) == Decision(o, b)
  {
    DigestDeterminesFields(o, a, b);
    FieldsDetermineCovered(a, b);
    SameConsidered(o, a, b);
    RankedProperties(o, a);
    RankedProperties(o, b);
    forall c
      ensures c in Ranked(o, a) <==> c in Ranked(o, b)
    {
      if c in Ranked(o, a) {
        SameConsideredRanked(o, a, b, c);
      }
      if c in Ranked(o, b) {
        SameConsideredRanked(o, b, a, c);
      }
    }
    AscendingUnique(CandidateBefore, Ranked(o, a), Ranked(o, b));
    SameRankedSameDecision(o, a, b);
  }

  lemma SameRankedSameDecision(o: Oracles, a: DecisionInput, b: DecisionInput)
    requires SameQuestion(a, b) && Ranked(o, a) == Ranked(o, b)
    ensures Decision(o, a) == Decision(o, b)
  {
  }

  /**
   * Beyond the bound the digest says nothing: an input that does not fit has the digest of
   * the same input with the generation revoked, or not revoked, and the two decisions differ.
   */
  lemma OversizedDigestIsBlind(o: Oracles, input: DecisionInput)
    requires !Fits(input)
    ensures var other := input.(revoked := !input.revoked);
            && EvidenceSetDigest(o, input) == EvidenceSetDigest(o, other)
            && Decision(o, input) != Decision(o, other)
  {
    hide Decision, InputFields, TotalWidth;
    var other := input.(revoked := !input.revoked);
    OversizedTwin(input);
    RevokedState(o, input);
    RevokedState(o, other);
  }

  /** The fields ahead of the revocation flag. */
  function FrontFields(input: DecisionInput): seq<Field> {
    HeaderFields(input)
    + [U32(|input.evidence|)] + AllRecordFields(SortedEvidence(input))
    + [U32(|input.contracts|)] + AllContractFields(SortedContracts(input))
  }

  lemma WidthBesideFlag(input: DecisionInput)
    ensures TotalWidth(InputFields(input)) == TotalWidth(FrontFields(input.(revoked := false))) + 1
  {
    hide HeaderFields, AllRecordFields, AllContractFields, SortedEvidence, SortedContracts;
    SameFront(input);
    WidthConcat(FrontFields(input), [Flag(input.revoked)]);
  }

  lemma SameFront(input: DecisionInput)
    ensures FrontFields(input.(revoked := false)) == FrontFields(input)
  {
    hide AllRecordFields, AllContractFields;
  }

  lemma OversizedTwin(input: DecisionInput)
    ensures Fits(input) <==> Fits(input.(revoked := !input.revoked))
  {
    hide InputFields, TotalWidth;
    WidthBesideFlag(input);
    WidthBesideFlag(input.(revoked := !input.revoked));
  }

  lemma GuardedState(v: Verdict, cites: seq<EvidenceCitation>)
    ensures Guarded(v, cites).state == Revoked <==> v.state == Revoked
  {
  }

  lemma JudgedState(o: Oracles, policy: ClassifierPolicy, revoked: bool, cs: seq<Candidate>)
    ensures Judge(o, policy, revoked, cs).state == Revoked <==> revoked
  {
  }

  lemma AssembledState(o: Oracles, input: DecisionInput, v: Verdict, cites: seq<EvidenceCitation>)
    ensures Assemble(o, input, v, cites).state == v.state
  {
  }

  /** A decision is in state REVOKED exactly when its generation is. */
  lemma RevokedState(o: Oracles, input: DecisionInput)
    ensures Decision(o, input).state == Revoked <==> input.revoked
  {
    var cs := Ranked(o, input);
    var cites := Capped(o, input.policy.maxEvidenceConsidered, OrderedCitations(o, input.policy, input.revoked, cs));
    var v := Judge(o, input.policy, input.revoked, cs);
    JudgedState(o, input.policy, input.revoked, cs);
    GuardedState(v, cites);
    AssembledState(o, input, Guarded(v, cites), cites);
  }
}
