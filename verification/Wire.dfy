/**
 * The canonical encoding of single values: little-endian words, length-prefixed blobs and
 * text, and the codes of the enumerations.
 *
 * A `Put` writes its value in front of what follows; a `Get` reads it off the front and
 * returns what is left, so a record's codec is the chain of its fields.
 */
module Wire {
  import opened Domain
  import opened LittleEndian
  import Policy

  type Bytes = seq<byte>

  type Parsed<+T> = Result<(T, Bytes)>

  // ---- words --------------------------------------------------------------

  function PutWord(width: nat, value: nat, rest: Bytes): (s: Bytes)
    ensures |s| == width + |rest|
  {
    StoreLe(width, value) + rest
  }

  function GetWord(width: nat, s: Bytes): Parsed<nat> {
    if |s| < width then Err(MalformedRecord) else Ok((LoadLe(s[..width]), s[width..]))
  }

  lemma WordRoundTrip(width: nat, value: nat, rest: Bytes)
    requires value < Power(width)
    ensures GetWord(width, PutWord(width, value, rest)) == Ok((value, rest))
  {
    hide StoreLe, LoadLe, Power;
    LoadStored(width, value);
    assert PutWord(width, value, rest)[..width] == StoreLe(width, value);
    assert PutWord(width, value, rest)[width..] == rest;
  }

  function PutU8(value: nat, rest: Bytes): (s: Bytes)
    ensures |s| == 1 + |rest|
  {
    PutWord(1, value, rest)
  }

  function GetU8(s: Bytes): Parsed<nat> {
    GetWord(1, s)
  }

  function PutU16(value: nat, rest: Bytes): (s: Bytes)
    ensures |s| == 2 + |rest|
  {
    PutWord(2, value, rest)
  }

  function GetU16(s: Bytes): Parsed<nat> {
    GetWord(2, s)
  }

  function PutU32(value: nat, rest: Bytes): (s: Bytes)
    ensures |s| == 4 + |rest|
  {
    PutWord(4, value, rest)
  }

  function GetU32(s: Bytes): Parsed<nat> {
    GetWord(4, s)
  }

  function PutU64(value: nat, rest: Bytes): (s: Bytes)
    ensures |s| == 8 + |rest|
  {
    PutWord(8, value, rest)
  }

  function GetU64(s: Bytes): Parsed<nat> {
    GetWord(8, s)
  }

  predicate IsU8(n: nat) {
    n < 0x100
  }

  predicate IsU16(n: nat) {
    n < 0x1_0000
  }

  predicate IsU32(n: nat) {
    n < 0x1_0000_0000
  }

  predicate IsU64(n: nat) {
    n < 0x1_0000_0000_0000_0000
  }

  lemma U8RoundTrip(value: nat, rest: Bytes)
    requires IsU8(value)
    ensures GetU8(PutU8(value, rest)) == Ok((value, rest))
  {
    Powers();
    WordRoundTrip(1, value, rest);
  }

  lemma U16RoundTrip(value: nat, rest: Bytes)
    requires IsU16(value)
    ensures GetU16(PutU16(value, rest)) == Ok((value, rest))
  {
    hide PutWord, GetWord, Power;
    Powers();
    WordRoundTrip(2, value, rest);
  }

  lemma U32RoundTrip(value: nat, rest: Bytes)
    requires IsU32(value)
    ensures GetU32(PutU32(value, rest)) == Ok((value, rest))
  {
    hide PutWord, GetWord, Power;
    Powers();
    WordRoundTrip(4, value, rest);
  }

  lemma U64RoundTrip(value: nat, rest: Bytes)
    requires IsU64(value)
    ensures GetU64(PutU64(value, rest)) == Ok((value, rest))
  {
    hide PutWord, GetWord, Power;
    Powers();
    WordRoundTrip(8, value, rest);
  }

  function PutFlag(value: bool, rest: Bytes): (s: Bytes)
    ensures |s| == 1 + |rest|
  {
    PutU8(if value then 1 else 0, rest)
  }

  function GetFlag(s: Bytes): Parsed<bool> {
    var (raw, rest) :- GetU8(s);
    if raw > 1 then Err(MalformedRecord) else Ok((raw == 1, rest))
  }

  lemma FlagRoundTrip(value: bool, rest: Bytes)
    ensures GetFlag(PutFlag(value, rest)) == Ok((value, rest))
  {
    hide PutU8, GetU8;
    U8RoundTrip(if value then 1 else 0, rest);
  }

  // ---- blobs and text -----------------------------------------------------

  function PutBlob(blob: Bytes, rest: Bytes): (s: Bytes)
    ensures |s| == 4 + |blob| + |rest|
  {
    PutU32(|blob|, blob + rest)
  }

  function GetBlob(bound: nat, s: Bytes): Parsed<Bytes> {
    var (length, rest) :- GetU32(s);
    if length > bound then Err(CapacityExceeded)
    else if length > |rest| then Err(MalformedRecord)
    else Ok((rest[..length], rest[length..]))
  }

  lemma BlobRoundTrip(bound: nat, blob: Bytes, rest: Bytes)
    requires IsU32(|blob|)
    ensures GetBlob(bound, PutBlob(blob, rest)) == if |blob| <= bound then Ok((blob, rest)) else Err(CapacityExceeded)
  {
    hide PutU32, GetU32;
    U32RoundTrip(|blob|, blob + rest);
    assert (blob + rest)[..|blob|] == blob && (blob + rest)[|blob|..] == rest;
  }

  /** A text whose characters are bytes. */
  predicate IsByteText(s: string) {
    forall i | 0 <= i < |s| :: s[i] as int < 256
  }

  function TextBytes(s: string): (b: Bytes)
    requires IsByteText(s)
    ensures |b| == |s|
  {
    seq(|s|, i requires 0 <= i < |s| => s[i] as int)
  }

  function BytesText(b: Bytes): (s: string)
    ensures |s| == |b|
  {
    seq(|b|, i requires 0 <= i < |b| => b[i] as char)
  }

  lemma TextOfBytes(s: string)
    requires IsByteText(s)
    ensures BytesText(TextBytes(s)) == s
  {
  }

  /** Writes the text; a character outside the byte range cannot occur in the program. */
  function PutText(s: string, rest: Bytes): (b: Bytes)
    ensures |b| >= 4 + |rest|
  {
    PutBlob(if IsByteText(s) then TextBytes(s) else [], rest)
  }

  function GetText(bound: nat, s: Bytes): Parsed<string> {
    var (blob, rest) :- GetBlob(bound, s);
    Ok((BytesText(blob), rest))
  }

  /** A text as the program holds one. */
  predicate IsString(s: string) {
    IsByteText(s) && IsU32(|s|)
  }

  /** What was written is read back as it was if it fits, and refused if it does not. */
  ghost predicate Restores<T>(got: Parsed<T>, fits: bool, x: T, rest: Bytes) {
    if fits then got == Ok((x, rest)) else got.Err?
  }

  predicate IsText(bound: nat, s: string) {
    IsString(s) && |s| <= bound
  }

  lemma TextRoundTrip(bound: nat, s: string, rest: Bytes)
    requires IsString(s)
    ensures GetText(bound, PutText(s, rest)) == if IsText(bound, s) then Ok((s, rest)) else Err(CapacityExceeded)
  {
    hide PutBlob, GetBlob;
    BlobRoundTrip(bound, TextBytes(s), rest);
    TextOfBytes(s);
  }

  function GetIdentity(bound: nat, s: Bytes): Parsed<string> {
    var (text, rest) :- GetText(bound, s);
    if Policy.IsCanonicalIdentity(text) then Ok((text, rest)) else Err(MalformedRecord)
  }

  predicate IsIdentity(bound: nat, s: string) {
    IsText(bound, s) && Policy.IsCanonicalIdentity(s)
  }

  lemma IdentityRoundTrip(bound: nat, s: string, rest: Bytes)
    requires IsString(s)
    ensures Restores(GetIdentity(bound, PutText(s, rest)), IsIdentity(bound, s), s, rest)
  {
    hide PutText, GetText, Policy.IsCanonicalIdentity;
    TextRoundTrip(bound, s, rest);
  }

  /** An identity that may be absent. */
  function GetOptional(bound: nat, s: Bytes): Parsed<string> {
    var (text, rest) :- GetText(bound, s);
    if text == "" || Policy.IsCanonicalIdentity(text) then Ok((text, rest)) else Err(MalformedRecord)
  }

  predicate IsOptional(bound: nat, s: string) {
    IsText(bound, s) && (s == "" || Policy.IsCanonicalIdentity(s))
  }

  lemma OptionalRoundTrip(bound: nat, s: string, rest: Bytes)
    requires IsString(s)
    ensures Restores(GetOptional(bound, PutText(s, rest)), IsOptional(bound, s), s, rest)
  {
    hide PutText, GetText, Policy.IsCanonicalIdentity;
    TextRoundTrip(bound, s, rest);
  }

  // ---- fixed-size blobs ---------------------------------------------------

  function GetDigest(s: Bytes): Parsed<Digest> {
    var (blob, rest) :- GetBlob(32, s);
    if |blob| == 32 then Ok((blob, rest)) else Err(MalformedRecord)
  }

  predicate IsDigest(d: Digest) {
    |d| == 32
  }

  lemma DigestRoundTrip(d: Digest, rest: Bytes)
    requires IsDigest(d)
    ensures GetDigest(PutBlob(d, rest)) == Ok((d, rest))
  {
    hide PutBlob, GetBlob;
    BlobRoundTrip(32, d, rest);
  }

  function GetAddress(s: Bytes): Parsed<IpAddress> {
    var (blob, rest) :- GetBlob(16, s);
    if |blob| == 16 then Ok((blob, rest)) else Err(MalformedRecord)
  }

  lemma AddressRoundTrip(a: IpAddress, rest: Bytes)
    ensures GetAddress(PutBlob(a, rest)) == Ok((a, rest))
  {
    hide PutBlob, GetBlob;
    BlobRoundTrip(16, a, rest);
  }

  // ---- identities of flows ------------------------------------------------

  function PutFlowId(id: FlowId, rest: Bytes): (s: Bytes)
    ensures |s| == 16 + |rest|
  {
    PutU64(id.hi, PutU64(id.lo, rest))
  }

  function GetFlowId(s: Bytes): Parsed<FlowId> {
    var (hi, s) :- GetU64(s);
    var (lo, s) :- GetU64(s);
    Ok((FlowId(hi, lo), s))
  }

  predicate IsFlowId(id: FlowId) {
    IsU64(id.hi) && IsU64(id.lo)
  }

  lemma FlowIdRoundTrip(id: FlowId, rest: Bytes)
    requires IsFlowId(id)
    ensures GetFlowId(PutFlowId(id, rest)) == Ok((id, rest))
  {
    hide PutU64, GetU64, IsU64;
    U64RoundTrip(id.lo, rest);
    U64RoundTrip(id.hi, PutU64(id.lo, rest));
  }

  // ---- codes --------------------------------------------------------------

  function SourceCode(s: EvidenceSource): (code: nat)
    ensures code <= 5
  {
    match s
    case UnknownSource => 0
    case DeclaredAuthenticated => 1
    case ContractDerived => 2
    case CoordinatorCorrelated => 3
    case TopologyCorrelated => 4
    case Heuristic => 5
  }

  /** A code that is not defined is the weakest source. */
  function SourceOf(code: nat): EvidenceSource {
    if code == 1 then DeclaredAuthenticated
    else if code == 2 then ContractDerived
    else if code == 3 then CoordinatorCorrelated
    else if code == 4 then TopologyCorrelated
    else if code == 5 then Heuristic
    else UnknownSource
  }

  /** A code that is not defined is REJECTED. */
  function EvidenceStateOf(code: nat): EvidenceState {
    if code == 0 then EvidenceNone
    else if code == 1 then EvidenceCurrent
    else if code == 2 then EvidenceStale
    else if code == 3 then EvidenceSuperseded
    else if code == 4 then EvidenceRevoked
    else if code == 5 then EvidenceInsufficient
    else EvidenceRejected
  }

  function SemanticOf(code: nat): SemanticClass {
    if code == 1 then Collective
    else if code == 2 then TrainingSync
    else if code == 3 then InferenceRequest
    else if code == 4 then PrefillDecodeHandoff
    else if code == 5 then KvStateTransfer
    else if code == 6 then ModelStateTransfer
    else if code == 7 then Shuffle
    else if code == 8 then Checkpoint
    else if code == 9 then StorageData
    else if code == 10 then ControlPlane
    else if code == 11 then Telemetry
    else UnknownClass
  }

  function TransportOf(code: nat): Transport {
    if code == 1 then Tcp
    else if code == 2 then Udp
    else if code == 3 then Sctp
    else if code == 4 then Rdma
    else UnknownTransport
  }

  function ClassificationStateCode(s: ClassificationState): (code: nat)
    ensures code <= 6
  {
    match s
    case StateUnknown => 0
    case Current => 1
    case Corroborated => 2
    case Contradicted => 3
    case Stale => 4
    case Insufficient => 5
    case Revoked => 6
  }

  /** A code that is not defined is INSUFFICIENT. */
  function ClassificationStateOf(code: nat): ClassificationState {
    if code == 0 then StateUnknown
    else if code == 1 then Current
    else if code == 2 then Corroborated
    else if code == 3 then Contradicted
    else if code == 4 then Stale
    else if code == 6 then Revoked
    else Insufficient
  }

  /** A code that is not defined is REJECTED. */
  function DispositionOf(code: nat): Disposition {
    if code == 0 then Selected
    else if code == 1 then Corroborating
    else if code == 2 then Contradicting
    else if code == 3 then Subordinate
    else if code == 4 then StaleRecord
    else if code == 5 then Withdrawn
    else if code == 6 then RevokedRecord
    else if code == 8 then ExcludedByLimit
    else if code == 9 then BelowThreshold
    else RejectedRecord
  }

  function WorkloadStateCode(s: WorkloadState): (code: nat)
    ensures code <= 2
  {
    match s
    case WorkloadDeclared => 0
    case WorkloadActive => 1
    case WorkloadRetired => 2
  }

  /** Every code is read back as the value it stands for. */
  lemma CodesRoundTrip()
    ensures forall x :: SourceOf(SourceCode(x)) == x
    ensures forall x :: EvidenceStateOf(EvidenceStateCode(x)) == x
    ensures forall x :: SemanticOf(SemanticCode(x)) == x
    ensures forall x :: TransportOf(TransportCode(x)) == x
    ensures forall x :: ClassificationStateOf(ClassificationStateCode(x)) == x
    ensures forall x :: DispositionOf(DispositionCode(x)) == x
  {
  }

  function GetSource(s: Bytes): Parsed<EvidenceSource> {
    var (code, s) :- GetU8(s);
    Ok((SourceOf(code), s))
  }

  function GetEvidenceState(s: Bytes): Parsed<EvidenceState> {
    var (code, s) :- GetU8(s);
    Ok((EvidenceStateOf(code), s))
  }

  function GetSemantic(s: Bytes): Parsed<SemanticClass> {
    var (code, s) :- GetU16(s);
    Ok((SemanticOf(code), s))
  }

  function GetTransport(s: Bytes): Parsed<Transport> {
    var (code, s) :- GetU8(s);
    Ok((TransportOf(code), s))
  }

  function GetClassificationState(s: Bytes): Parsed<ClassificationState> {
    var (code, s) :- GetU8(s);
    Ok((ClassificationStateOf(code), s))
  }

  function GetDisposition(s: Bytes): Parsed<Disposition> {
    var (code, s) :- GetU8(s);
    Ok((DispositionOf(code), s))
  }

  function GetWorkloadState(s: Bytes): Parsed<WorkloadState> {
    var (code, s) :- GetU8(s);
    if code == 0 then Ok((WorkloadDeclared, s))
    else if code == 1 then Ok((WorkloadActive, s))
    else if code == 2 then Ok((WorkloadRetired, s))
    else Err(CorruptState)
  }

  function GetContractState(s: Bytes): Parsed<ContractState> {
    var (code, s) :- GetU8(s);
    if code == 0 then Ok((ContractPending, s))
    else if code == 1 then Ok((ContractActive, s))
    else if code == 2 then Ok((ContractRetired, s))
    else Err(CorruptState)
  }

  lemma SourceRoundTrip(x: EvidenceSource, rest: Bytes)
    ensures GetSource(PutU8(SourceCode(x), rest)) == Ok((x, rest))
  {
    hide PutU8, GetU8;
    U8RoundTrip(SourceCode(x), rest);
  }

  lemma EvidenceStateRoundTrip(x: EvidenceState, rest: Bytes)
    ensures GetEvidenceState(PutU8(EvidenceStateCode(x), rest)) == Ok((x, rest))
  {
    hide PutU8, GetU8;
    U8RoundTrip(EvidenceStateCode(x), rest);
  }

  lemma SemanticRoundTrip(x: SemanticClass, rest: Bytes)
    ensures GetSemantic(PutU16(SemanticCode(x), rest)) == Ok((x, rest))
  {
    hide PutU16, GetU16;
    U16RoundTrip(SemanticCode(x), rest);
  }

  lemma TransportRoundTrip(x: Transport, rest: Bytes)
    ensures GetTransport(PutU8(TransportCode(x), rest)) == Ok((x, rest))
  {
    hide PutU8, GetU8;
    U8RoundTrip(TransportCode(x), rest);
  }

  lemma ClassificationStateRoundTrip(x: ClassificationState, rest: Bytes)
    ensures GetClassificationState(PutU8(ClassificationStateCode(x), rest)) == Ok((x, rest))
  {
    hide PutU8, GetU8;
    U8RoundTrip(ClassificationStateCode(x), rest);
  }

  lemma DispositionRoundTrip(x: Disposition, rest: Bytes)
    ensures GetDisposition(PutU8(DispositionCode(x), rest)) == Ok((x, rest))
  {
    hide PutU8, GetU8;
    U8RoundTrip(DispositionCode(x), rest);
  }

  lemma WorkloadStateRoundTrip(x: WorkloadState, rest: Bytes)
    ensures GetWorkloadState(PutU8(WorkloadStateCode(x), rest)) == Ok((x, rest))
  {
    hide PutU8, GetU8;
    U8RoundTrip(WorkloadStateCode(x), rest);
  }

  lemma ContractStateRoundTrip(x: ContractState, rest: Bytes)
    ensures GetContractState(PutU8(ContractStateCode(x), rest)) == Ok((x, rest))
  {
    hide PutU8, GetU8;
    U8RoundTrip(ContractStateCode(x), rest);
  }

  function GetConfidence(s: Bytes): Parsed<Confidence> {
    var (points, s) :- GetU32(s);
    if points > CONFIDENCE_SCALE then Err(MalformedRecord) else Ok((points, s))
  }

  lemma ConfidenceRoundTrip(x: Confidence, rest: Bytes)
    ensures GetConfidence(PutU32(x, rest)) == Ok((x, rest))
  {
    hide PutU32, GetU32;
    U32RoundTrip(x, rest);
  }

  /** A record's schema version. */
  function GetVersion(expected: nat, s: Bytes): Parsed<()> {
    var (version, s) :- GetU8(s);
    if version != expected then Err(UnsupportedVersion) else Ok(((), s))
  }

  lemma VersionRoundTrip(version: nat, rest: Bytes)
    requires IsU8(version)
    ensures GetVersion(version, PutU8(version, rest)) == Ok(((), rest))
  {
    hide PutU8, GetU8;
    U8RoundTrip(version, rest);
  }

  /** A generation that must not be zero. */
  function GetGeneration(s: Bytes): Parsed<nat> {
    var (generation, s) :- GetU64(s);
    if generation == 0 then Err(CorruptState) else Ok((generation, s))
  }

  lemma GenerationRoundTrip(generation: nat, rest: Bytes)
    requires IsU64(generation)
    ensures GetGeneration(PutU64(generation, rest)) == if generation > 0 then Ok((generation, rest)) else Err(CorruptState)
  {
    hide PutU64, GetU64;
    U64RoundTrip(generation, rest);
  }

  // ---- collections --------------------------------------------------------

  function PutEach<T>(put: (T, Bytes) -> Bytes, xs: seq<T>, rest: Bytes): Bytes {
    if xs == [] then rest else put(xs[0], PutEach(put, xs[1..], rest))
  }

  function GetEach<T>(get: Bytes -> Parsed<T>, n: nat, s: Bytes): Parsed<seq<T>> {
    if n == 0 then Ok(([], s))
    else
      var (x, s) :- get(s);
      var (xs, s) :- GetEach(get, n - 1, s);
      Ok(([x] + xs, s))
  }

  /** What `get` reads back after `put`, for this element. */
  ghost predicate Inverse<T>(put: (T, Bytes) -> Bytes, get: Bytes -> Parsed<T>, x: T) {
    forall rest: Bytes :: get(put(x, rest)) == Ok((x, rest))
  }

  /** `get` refuses what `put` wrote for this element. */
  ghost predicate Refused<T>(put: (T, Bytes) -> Bytes, get: Bytes -> Parsed<T>, x: T) {
    forall rest: Bytes :: get(put(x, rest)).Err?
  }

  ghost predicate Readable<T(!new)>(put: (T, Bytes) -> Bytes, get: Bytes -> Parsed<T>, xs: seq<T>) {
    forall x | x in xs :: Inverse(put, get, x)
  }

  /** Every element is read back as it was, or refused. */
  ghost predicate Faithful<T(!new)>(put: (T, Bytes) -> Bytes, get: Bytes -> Parsed<T>, xs: seq<T>) {
    forall x | x in xs :: Inverse(put, get, x) || Refused(put, get, x)
  }

  lemma {:induction false} EachRoundTrip<T(!new)>(put: (T, Bytes) -> Bytes, get: Bytes -> Parsed<T>, xs: seq<T>, rest: Bytes)
    requires Faithful(put, get, xs)
    ensures Restores(GetEach(get, |xs|, PutEach(put, xs, rest)), Readable(put, get, xs), xs, rest)
  {
    hide Inverse, Refused;
    if xs != [] {
      var tail := xs[1..];
      assert xs[0] in xs && xs == [xs[0]] + tail;
      EachRoundTrip(put, get, tail, rest);
      if Inverse(put, get, xs[0]) {
        InverseAt(put, get, xs[0], PutEach(put, tail, rest));
        assert Readable(put, get, xs) <==> Readable(put, get, tail);
      } else {
        RefusedAt(put, get, xs[0], PutEach(put, tail, rest));
      }
    }
  }

  lemma NeverBoth<T(!new)>(put: (T, Bytes) -> Bytes, get: Bytes -> Parsed<T>, xs: seq<T>)
    ensures forall x | x in xs :: !(Inverse(put, get, x) && Refused(put, get, x))
  {
    forall x | x in xs && Inverse(put, get, x)
      ensures !Refused(put, get, x)
    {
      assert get(put(x, [])) == Ok((x, []));
    }
  }

  /** A collection of elements that are each restored or refused as `fits` says. */
  lemma Judged<T(!new)>(put: (T, Bytes) -> Bytes, get: Bytes -> Parsed<T>, fits: T -> bool, xs: seq<T>)
    requires forall x, rest: Bytes | x in xs :: Restores(get(put(x, rest)), fits(x), x, rest)
    ensures Faithful(put, get, xs)
    ensures Readable(put, get, xs) <==> forall x | x in xs :: fits(x)
  {
    forall x | x in xs
      ensures if fits(x) then Inverse(put, get, x) else Refused(put, get, x)
    {
      assert forall rest: Bytes :: Restores(get(put(x, rest)), fits(x), x, rest);
    }
    NeverBoth(put, get, xs);
  }

  lemma InverseAt<T(!new)>(put: (T, Bytes) -> Bytes, get: Bytes -> Parsed<T>, x: T, rest: Bytes)
    requires Inverse(put, get, x)
    ensures get(put(x, rest)) == Ok((x, rest))
  {
  }

  lemma RefusedAt<T(!new)>(put: (T, Bytes) -> Bytes, get: Bytes -> Parsed<T>, x: T, rest: Bytes)
    requires Refused(put, get, x)
    ensures get(put(x, rest)).Err?
  {
  }

  function PutCollection<T>(put: (T, Bytes) -> Bytes, xs: seq<T>, rest: Bytes): Bytes {
    PutU32(|xs|, PutEach(put, xs, rest))
  }

  function GetCollection<T>(get: Bytes -> Parsed<T>, bound: nat, s: Bytes): Parsed<seq<T>> {
    var (count, s) :- GetU32(s);
    if count > bound then Err(CapacityExceeded) else GetEach(get, count, s)
  }

  lemma CollectionRoundTrip<T(!new)>(put: (T, Bytes) -> Bytes, get: Bytes -> Parsed<T>, bound: nat, xs: seq<T>, rest: Bytes)
    requires IsU32(|xs|) && Faithful(put, get, xs)
    ensures Restores(GetCollection(get, bound, PutCollection(put, xs, rest)), |xs| <= bound && Readable(put, get, xs), xs, rest)
  {
    hide PutU32, GetU32, PutEach, GetEach, Readable, Faithful;
    EachRoundTrip(put, get, xs, rest);
    U32RoundTrip(|xs|, PutEach(put, xs, rest));
  }

  /** Writing this element takes at least one byte. */
  ghost predicate Grows<T>(put: (T, Bytes) -> Bytes, x: T) {
    forall rest: Bytes :: |put(x, rest)| > |rest|
  }

  lemma {:induction false} EachGrows<T(!new)>(put: (T, Bytes) -> Bytes, xs: seq<T>, rest: Bytes)
    requires forall x | x in xs :: Grows(put, x)
    ensures |PutEach(put, xs, rest)| >= |xs| + |rest|
  {
    if xs != [] {
      assert xs[0] in xs;
      EachGrows(put, xs[1..], rest);
    }
  }

  lemma CollectionGrows<T(!new)>(put: (T, Bytes) -> Bytes, xs: seq<T>, rest: Bytes)
    requires forall x | x in xs :: Grows(put, x)
    ensures |PutCollection(put, xs, rest)| >= 4 + |xs| + |rest|
  {
    EachGrows(put, xs, rest);
  }
}
