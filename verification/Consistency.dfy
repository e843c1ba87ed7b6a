/**
 * The hypotheses about hash-derived identities and digests can be met: a choice of them that
 * never collides.
 */
module Consistency {
  import opened Domain
  import opened Wire

  type Code = seq<nat>

  // ---- lists of blocks ----------------------------------------------------

  function Chars(s: string): Code {
    seq(|s|, i requires 0 <= i < |s| => s[i] as int)
  }

  lemma SameChars(a: Code, b: Code, s: string, t: string)
    requires a == b && a == Chars(s) && b == Chars(t)
    ensures s == t
  {
    forall i | 0 <= i < |s|
      ensures s[i] == t[i]
    {
      assert a[i] == b[i];
    }
  }

  /** Each block behind its length. */
  function Blocks(xs: seq<Code>): Code {
    if xs == [] then [] else [|xs[0]|] + xs[0] + Blocks(xs[1..])
  }

  lemma HeadBlock(x: Code, y: Code, more: Code, others: Code)
    requires [|x|] + x + more == [|y|] + y + others
    ensures x == y && more == others
  {
    var a, b := [|x|] + x + more, [|y|] + y + others;
    assert a[0] == b[0];
    assert x == a[1..1 + |x|] && y == b[1..1 + |y|];
    assert more == a[1 + |x|..] && others == b[1 + |y|..];
  }

  lemma {:induction false} BlocksInjective(xs: seq<Code>, ys: seq<Code>)
    requires Blocks(xs) == Blocks(ys)
    ensures xs == ys
  {
    assert xs == [] <==> ys == [];
    if xs != [] {
      HeadBlock(xs[0], ys[0], Blocks(xs[1..]), Blocks(ys[1..]));
      BlocksInjective(xs[1..], ys[1..]);
      assert xs == [xs[0]] + xs[1..] && ys == [ys[0]] + ys[1..];
    }
  }

  function FlagCode(b: bool): nat {
    if b then 1 else 0
  }

  // ---- what identities and digests are taken of ---------------------------

  function EvidenceBlocks(x: EvidenceRecord): seq<Code> {
    [Chars(x.id), Chars(x.publisher), [x.publisherBoot], Chars(x.session), [x.acceptedEpoch], [x.acceptedBoot],
     Chars(x.workload), [x.workloadGeneration], Chars(x.contract), [x.flowId.hi], [x.flowId.lo], [x.flowGeneration],
     [x.generation], [x.acceptedSeq], [x.acceptedTick], [x.freshUntil], [SemanticCode(x.semantic)],
     [SourceCode(x.source)], [EvidenceStateCode(x.state)], [x.confidence], Chars(x.metadata.topic),
     [x.metadata.binding], Chars(x.metadata.reason), Chars(x.metadata.contract), x.contentDigest,
     Chars(x.stateReason)]
  }

  lemma EvidenceInjective(x: EvidenceRecord, y: EvidenceRecord)
    requires EvidenceBlocks(x) == EvidenceBlocks(y)
    ensures x == y
  {
    hide Chars, Blocks;
    var a, b := EvidenceBlocks(x), EvidenceBlocks(y);
    SameChars(a[0], b[0], x.id, y.id);
    SameChars(a[1], b[1], x.publisher, y.publisher);
    assert a[2][0] == b[2][0];
    SameChars(a[3], b[3], x.session, y.session);
    assert a[4][0] == b[4][0];
    assert a[5][0] == b[5][0];
    SameChars(a[6], b[6], x.workload, y.workload);
    assert a[7][0] == b[7][0];
    SameChars(a[8], b[8], x.contract, y.contract);
    assert a[9][0] == b[9][0];
    assert a[10][0] == b[10][0];
    assert a[11][0] == b[11][0];
    assert a[12][0] == b[12][0];
    assert a[13][0] == b[13][0];
    assert a[14][0] == b[14][0];
    assert a[15][0] == b[15][0];
    assert a[16][0] == b[16][0];
    assert a[17][0] == b[17][0];
    assert a[18][0] == b[18][0];
    assert a[19][0] == b[19][0];
    SameChars(a[20], b[20], x.metadata.topic, y.metadata.topic);
    assert a[21][0] == b[21][0];
    SameChars(a[22], b[22], x.metadata.reason, y.metadata.reason);
    SameChars(a[23], b[23], x.metadata.contract, y.metadata.contract);
    assert a[24] == b[24];
    SameChars(a[25], b[25], x.stateReason, y.stateReason);
  }

  function ContractBlocks(x: WorkloadContract): seq<Code> {
    [Chars(x.id), Chars(x.workload), [x.workloadGeneration], Chars(x.owner), [ContractStateCode(x.state)],
     [SemanticCode(x.declaredClass)], Blocks(x.remoteScope), x.localPortScope, [x.remotePort],
     [TransportCode(x.transport)], [FlagCode(x.matchAnyRemoteAddress)], [SourceCode(x.derivedSource)],
     x.definitionDigest, [x.createdTick], [x.activatedTick], [x.retiredTick], Chars(x.description)]
  }

  lemma ContractInjective(x: WorkloadContract, y: WorkloadContract)
    requires ContractBlocks(x) == ContractBlocks(y)
    ensures x == y
  {
    hide Chars, Blocks;
    var a, b := ContractBlocks(x), ContractBlocks(y);
    SameChars(a[0], b[0], x.id, y.id);
    SameChars(a[1], b[1], x.workload, y.workload);
    assert a[2][0] == b[2][0];
    SameChars(a[3], b[3], x.owner, y.owner);
    assert a[4][0] == b[4][0];
    assert a[5][0] == b[5][0];
    assert a[6] == b[6];
    BlocksInjective(x.remoteScope, y.remoteScope);
    assert a[7] == b[7];
    assert a[8][0] == b[8][0];
    assert a[9][0] == b[9][0];
    assert a[10][0] == b[10][0];
    assert a[11][0] == b[11][0];
    assert a[12] == b[12];
    assert a[13][0] == b[13][0];
    assert a[14][0] == b[14][0];
    assert a[15][0] == b[15][0];
    SameChars(a[16], b[16], x.description, y.description);
  }

  function EvidenceIdentityBlocks(x: EvidenceIdentity): seq<Code> {
    [Chars(x.publisher), [x.boot], Chars(x.topic), [x.generation], [x.flowId.hi], [x.flowId.lo], [x.flowGeneration]]
  }

  lemma EvidenceIdentityInjective(x: EvidenceIdentity, y: EvidenceIdentity)
    requires EvidenceIdentityBlocks(x) == EvidenceIdentityBlocks(y)
    ensures x == y
  {
    hide Chars, Blocks;
    var a, b := EvidenceIdentityBlocks(x), EvidenceIdentityBlocks(y);
    SameChars(a[0], b[0], x.publisher, y.publisher);
    assert a[1][0] == b[1][0];
    SameChars(a[2], b[2], x.topic, y.topic);
    assert a[3][0] == b[3][0];
    assert a[4][0] == b[4][0];
    assert a[5][0] == b[5][0];
    assert a[6][0] == b[6][0];
  }

  function ContractIdentityBlocks(x: ContractIdentity): seq<Code> {
    [Chars(x.contract), [x.workloadGeneration], [x.flowId.hi], [x.flowId.lo], [x.flowGeneration],
     x.definitionDigest]
  }

  lemma ContractIdentityInjective(x: ContractIdentity, y: ContractIdentity)
    requires ContractIdentityBlocks(x) == ContractIdentityBlocks(y)
    ensures x == y
  {
    hide Chars, Blocks;
    var a, b := ContractIdentityBlocks(x), ContractIdentityBlocks(y);
    SameChars(a[0], b[0], x.contract, y.contract);
    assert a[1][0] == b[1][0];
    assert a[2][0] == b[2][0];
    assert a[3][0] == b[3][0];
    assert a[4][0] == b[4][0];
    assert a[5] == b[5];
  }

  function FlowKeyBlocks(x: FlowKey): seq<Code> {
    [x.localAddress, x.remoteAddress, [x.localPort], [x.remotePort], [TransportCode(x.transport)]]
  }

  lemma FlowKeyInjective(x: FlowKey, y: FlowKey)
    requires FlowKeyBlocks(x) == FlowKeyBlocks(y)
    ensures x == y
  {
    hide Chars, Blocks;
    var a, b := FlowKeyBlocks(x), FlowKeyBlocks(y);
    assert a[0] == b[0];
    assert a[1] == b[1];
    assert a[2][0] == b[2][0];
    assert a[3][0] == b[3][0];
    assert a[4][0] == b[4][0];
  }

  function FieldBlock(f: Field): Code {
    match f
    case U8(n) => [0, n]
    case U32(n) => [1, n]
    case U64(n) => [2, n]
    case Flag(b) => [3, FlagCode(b)]
    case Blob(bytes) => [4] + bytes
  }

  lemma FieldInjective(f: Field, g: Field)
    requires FieldBlock(f) == FieldBlock(g)
    ensures f == g
  {
    var a, b := FieldBlock(f), FieldBlock(g);
    assert a[0] == b[0] && a[1..] == b[1..];
    if f.Blob? {
      assert a[1..] == f.bytes && b[1..] == g.bytes;
    } else {
      assert a[1] == b[1];
    }
  }

  function FieldBlocks(fs: seq<Field>): seq<Code> {
    seq(|fs|, i requires 0 <= i < |fs| => FieldBlock(fs[i]))
  }

  lemma FieldsInjective(fs: seq<Field>, gs: seq<Field>)
    requires FieldBlocks(fs) == FieldBlocks(gs)
    ensures fs == gs
  {
    forall i | 0 <= i < |fs|
      ensures fs[i] == gs[i]
    {
      assert FieldBlocks(fs)[i] == FieldBlocks(gs)[i];
      FieldInjective(fs[i], gs[i]);
    }
  }

  // ---- numbers, bytes and text --------------------------------------------

  /** Each number in unary, ended by a zero. */
  function Unary(c: Code): (b: seq<byte>)
    ensures forall i | 0 <= i < |b| :: b[i] <= 1
  {
    if c == [] then [] else seq(c[0], _ => 1) + [0] + Unary(c[1..])
  }

  lemma UnaryHead(m: nat, n: nat, a: seq<byte>, b: seq<byte>)
    requires seq(m, _ => 1) + [0] + a == seq(n, _ => 1) + [0] + b
    ensures m == n && a == b
  {
    var s, t: seq<byte> := seq(m, _ => 1) + [0] + a, seq(n, _ => 1) + [0] + b;
    assert s[m] == 0 && t[n] == 0;
    assert forall i | 0 <= i < m :: s[i] == 1;
    assert forall i | 0 <= i < n :: t[i] == 1;
    assert m == n;
    assert a == s[m + 1..] && b == t[n + 1..];
  }

  lemma {:induction false} UnaryInjective(c: Code, d: Code)
    requires Unary(c) == Unary(d)
    ensures c == d
  {
    assert c == [] <==> d == [];
    if c != [] {
      UnaryHead(c[0], d[0], Unary(c[1..]), Unary(d[1..]));
      UnaryInjective(c[1..], d[1..]);
      assert c == [c[0]] + c[1..] && d == [d[0]] + d[1..];
    }
  }

  /** Bits after a leading one, read as a binary number. */
  function Binary(b: seq<byte>): (n: nat)
    ensures n > 0
  {
    if b == [] then 1 else 2 * Binary(b[..|b| - 1]) + b[|b| - 1]
  }

  lemma {:induction false} BinaryInjective(a: seq<byte>, b: seq<byte>)
    requires forall i | 0 <= i < |a| :: a[i] <= 1
    requires forall i | 0 <= i < |b| :: b[i] <= 1
    requires Binary(a) == Binary(b)
    ensures a == b
  {
    if a != [] && b != [] {
      BinaryInjective(a[..|a| - 1], b[..|b| - 1]);
      assert a == a[..|a| - 1] + [a[|a| - 1]] && b == b[..|b| - 1] + [b[|b| - 1]];
    }
  }

  function Packed(xs: seq<Code>): seq<byte> {
    Unary(Blocks(xs))
  }

  lemma PackedInjective(xs: seq<Code>, ys: seq<Code>)
    requires Packed(xs) == Packed(ys)
    ensures xs == ys
  {
    hide Unary, Blocks;
    UnaryInjective(Blocks(xs), Blocks(ys));
    BlocksInjective(xs, ys);
  }

  lemma TextInjective(a: seq<byte>, b: seq<byte>)
    requires BytesText(a) == BytesText(b)
    ensures a == b
  {
    forall i | 0 <= i < |a|
      ensures a[i] == b[i]
    {
      assert BytesText(a)[i] == BytesText(b)[i];
    }
  }

  // ---- the choice ---------------------------------------------------------

  function Choice(): Oracles {
    Oracles(
      (k: FlowKey) => FlowId(Binary(Packed(FlowKeyBlocks(k))), 0),
      (e: EvidenceIdentity) => "e" + BytesText(Packed(EvidenceIdentityBlocks(e))),
      (c: ContractIdentity) => "c" + BytesText(Packed(ContractIdentityBlocks(c))),
      (r: EvidenceRecord) => [2] + Packed(EvidenceBlocks(r)),
      (c: WorkloadContract) => [2] + Packed(ContractBlocks(c)),
      (p: ClassifierPolicy) => [],
      (c: Classification) => [],
      (fs: seq<Field>) => [2] + Packed(FieldBlocks(fs)),
      (p: Phrase) => "")
  }

  lemma ChoiceFlowIds(a: FlowKey, b: FlowKey)
    requires Choice().flowId(a) == Choice().flowId(b)
    ensures a == b
  {
    hide FlowKeyBlocks, Blocks, Unary, Binary;
    BinaryInjective(Packed(FlowKeyBlocks(a)), Packed(FlowKeyBlocks(b)));
    PackedInjective(FlowKeyBlocks(a), FlowKeyBlocks(b));
    FlowKeyInjective(a, b);
  }

  lemma TagPeels(tag: string, s: string, t: string)
    requires tag + s == tag + t
    ensures s == t
  {
    assert s == (tag + s)[|tag|..] && t == (tag + t)[|tag|..];
  }

  lemma ChoiceEvidenceIds(a: EvidenceIdentity, b: EvidenceIdentity)
    requires Choice().evidenceId(a) == Choice().evidenceId(b)
    ensures a == b
  {
    hide EvidenceIdentityBlocks, Packed, BytesText;
    TagPeels("e", BytesText(Packed(EvidenceIdentityBlocks(a))), BytesText(Packed(EvidenceIdentityBlocks(b))));
    TextInjective(Packed(EvidenceIdentityBlocks(a)), Packed(EvidenceIdentityBlocks(b)));
    PackedInjective(EvidenceIdentityBlocks(a), EvidenceIdentityBlocks(b));
    EvidenceIdentityInjective(a, b);
  }

  lemma ChoiceDerivedIds(a: ContractIdentity, b: ContractIdentity)
    requires Choice().contractEvidenceId(a) == Choice().contractEvidenceId(b)
    ensures a == b
  {
    hide ContractIdentityBlocks, Packed, BytesText;
    TagPeels("c", BytesText(Packed(ContractIdentityBlocks(a))), BytesText(Packed(ContractIdentityBlocks(b))));
    TextInjective(Packed(ContractIdentityBlocks(a)), Packed(ContractIdentityBlocks(b)));
    PackedInjective(ContractIdentityBlocks(a), ContractIdentityBlocks(b));
    ContractIdentityInjective(a, b);
  }

  lemma ChoiceKinds(a: EvidenceIdentity, b: ContractIdentity)
    ensures Choice().evidenceId(a) != "" && Choice().evidenceId(a) != Choice().contractEvidenceId(b)
  {
    hide EvidenceIdentityBlocks, ContractIdentityBlocks, Packed, BytesText;
    assert Choice().evidenceId(a)[0] == 'e' && Choice().contractEvidenceId(b)[0] == 'c';
  }

  /** Digests of hashed contents start with a two, so none is zero. */
  lemma MarkPeels(s: seq<byte>, t: seq<byte>)
    requires [2] + s == [2] + t
    ensures s == t
  {
    assert s == ([2] + s)[1..] && t == ([2] + t)[1..];
  }

  lemma MarkedIsNotZero(s: seq<byte>)
    ensures [2] + s != ZERO_DIGEST
  {
    assert ([2] + s)[0] == 2 && ZERO_DIGEST[0] == 0;
  }

  lemma ChoiceFields(a: seq<Field>, b: seq<Field>)
    requires Choice().sha256(a) == Choice().sha256(b)
    ensures a == b
  {
    hide FieldBlocks, Packed;
    MarkPeels(Packed(FieldBlocks(a)), Packed(FieldBlocks(b)));
    PackedInjective(FieldBlocks(a), FieldBlocks(b));
    FieldsInjective(a, b);
  }

  lemma ChoiceContents(a: EvidenceRecord, b: EvidenceRecord)
    requires Choice().evidenceDigest(a) == Choice().evidenceDigest(b)
    ensures a == b
  {
    hide EvidenceBlocks, Packed;
    MarkPeels(Packed(EvidenceBlocks(a)), Packed(EvidenceBlocks(b)));
    PackedInjective(EvidenceBlocks(a), EvidenceBlocks(b));
    EvidenceInjective(a, b);
  }

  lemma ChoiceDefinitions(a: WorkloadContract, b: WorkloadContract)
    requires Choice().contractDigest(a) == Choice().contractDigest(b)
    ensures a == b
  {
    hide ContractBlocks, Packed;
    MarkPeels(Packed(ContractBlocks(a)), Packed(ContractBlocks(b)));
    PackedInjective(ContractBlocks(a), ContractBlocks(b));
    ContractInjective(a, b);
  }

  /** Some choice of identities and digests is free of collisions. */
  lemma CollisionFreeExists()
    ensures CollisionFree(Choice())
  {
    hide Packed, FlowKeyBlocks, EvidenceIdentityBlocks, ContractIdentityBlocks, EvidenceBlocks, ContractBlocks,
         FieldBlocks, BytesText, Binary;
    var o := Choice();
    forall a, b | o.flowId(a) == o.flowId(b)
      ensures a == b
    {
      ChoiceFlowIds(a, b);
    }
    forall a, b | o.evidenceId(a) == o.evidenceId(b)
      ensures a == b
    {
      ChoiceEvidenceIds(a, b);
    }
    forall a, b
      ensures o.evidenceId(a) != "" && o.evidenceId(a) != o.contractEvidenceId(b)
    {
      ChoiceKinds(a, b);
    }
    forall a, b | o.contractEvidenceId(a) == o.contractEvidenceId(b)
      ensures a == b
    {
      ChoiceDerivedIds(a, b);
    }
    forall a, b | o.evidenceDigest(a) == o.evidenceDigest(b)
      ensures a == b
    {
      ChoiceContents(a, b);
    }
    forall a
      ensures o.evidenceDigest(a) != ZERO_DIGEST
    {
      MarkedIsNotZero(Packed(EvidenceBlocks(a)));
    }
    forall a, b | o.contractDigest(a) == o.contractDigest(b)
      ensures a == b
    {
      ChoiceDefinitions(a, b);
    }
    forall a
      ensures o.contractDigest(a) != ZERO_DIGEST
    {
      MarkedIsNotZero(Packed(ContractBlocks(a)));
    }
    forall a, b | o.sha256(a) == o.sha256(b)
      ensures a == b
    {
      ChoiceFields(a, b);
    }
    forall a
      ensures o.sha256(a) != ZERO_DIGEST
    {
      MarkedIsNotZero(Packed(FieldBlocks(a)));
    }
  }
}
