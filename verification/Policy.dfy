/**
 * The classifier policy: validation into a canonical form, and the heuristic lookups.
 */
module Policy {
  import opened Domain
  import opened Sorting

  const MAX_COLLECTION_COUNT: nat := 4096
  const MAX_IDENTITY_BYTES: nat := 128

  // ---- limits -------------------------------------------------------------

  function Clamp(value: nat, lower: nat, upper: nat): nat
    requires lower <= upper
  {
    if value < lower then lower else if value > upper then upper else value
  }

  function AtLeastOneTick(value: nat): nat {
    if value == 0 then 1 else value
  }

  /** The limits after the structural bounds have been applied. */
  function Effective(l: ResourceLimits): ResourceLimits {
    ResourceLimits(
      Clamp(l.maxFlows, 0, 0x40_0000),
      Clamp(l.maxPublishers, 0, 0x10_0000),
      Clamp(l.maxWorkloads, 0, 0x10_0000),
      Clamp(l.maxContracts, 0, 0x10_0000),
      Clamp(l.maxPendingContracts, 0, 0x10_0000),
      Clamp(l.maxSessions, 0, 0x1_0000),
      Clamp(l.maxConfigOverrides, 0, 0x1_0000),
      Clamp(l.maxEvidencePerFlow, 0, 4096),
      Clamp(l.maxEvidenceRecords, 0, 0x100_0000),
      Clamp(l.maxDecisionsPerFlow, 0, 1024),
      Clamp(l.maxContradictionsPerFlow, 0, 4096),
      Clamp(l.maxContradictions, 0, 0x100_0000),
      Clamp(l.maxSupersessions, 0, 0x100_0000),
      Clamp(l.maxRevocations, 0, 0x100_0000),
      Clamp(l.maxFlowKeyIndex, 0, 0x100_0000),
      Clamp(l.maxFramePayload, 64, 0x40_0000),
      Clamp(l.maxStringBytes, 1, 512),
      Clamp(l.maxBlobBytes, 1, 0x1_0000),
      Clamp(l.maxCollectionCount, 1, 4096),
      Clamp(l.maxBatchKeys, 1, 4096),
      Clamp(l.maxWorkers, 0, 256),
      Clamp(l.maxQueueDepth, 0, 0x10_0000),
      Clamp(l.maxInflightRequests, 0, 0x10_0000),
      Clamp(l.maxRetryAttempts, 0, 64),
      AtLeastOneTick(l.defaultFreshnessWindow),
      AtLeastOneTick(l.maxSessionIdleTicks))
  }

  lemma EffectiveIdempotent(l: ResourceLimits)
    ensures Effective(Effective(l)) == Effective(l)
  {
  }

  // ---- identities ---------------------------------------------------------

  predicate IsIdentityChar(c: char) {
    || 'a' <= c <= 'z'
    || '0' <= c <= '9'
    || c == '.' || c == '_' || c == ':' || c == '-'
  }

  predicate IsCanonicalIdentity(s: string) {
    && s != ""
    && |s| <= MAX_IDENTITY_BYTES
    && forall i | 0 <= i < |s| :: IsIdentityChar(s[i])
  }

  // ---- what canonicalisation computes -------------------------------------

  predicate AdapterBefore(a: HeuristicAdapter, b: HeuristicAdapter) {
    TextLess(a.name, b.name)
  }

  predicate HintBefore(a: PortHint, b: PortHint) {
    if a.transport != b.transport then TransportCode(a.transport) < TransportCode(b.transport)
    else if a.port != b.port then a.port < b.port
    else SemanticCode(a.semantic) < SemanticCode(b.semantic)
  }

  predicate SameHint(a: PortHint, b: PortHint) {
    a.transport == b.transport && a.port == b.port && a.semantic == b.semantic
  }

  function AdapterFault(a: HeuristicAdapter): Option<ErrorCode> {
    if !IsCanonicalIdentity(a.name) then Some(MalformedInput)
    else if a.maxBasisPoints > CONFIDENCE_SCALE then Some(InvalidArgument)
    else None
  }

  function FirstAdapterFault(adapters: seq<HeuristicAdapter>): Option<ErrorCode> {
    if adapters == [] then None
    else if AdapterFault(adapters[0]).Some? then AdapterFault(adapters[0])
    else FirstAdapterFault(adapters[1..])
  }

  predicate AdapterTwice(adapters: seq<HeuristicAdapter>) {
    exists i | 1 <= i < |adapters| :: adapters[i - 1].name == adapters[i].name
  }

  predicate HintTwice(hints: seq<PortHint>) {
    exists i | 1 <= i < |hints| :: SameHint(hints[i - 1], hints[i])
  }

  predicate Overconfident(hints: seq<PortHint>) {
    exists i | 0 <= i < |hints| :: hints[i].basisPoints > CONFIDENCE_SCALE
  }

  predicate DeclaresAdapter(adapters: seq<HeuristicAdapter>, name: string) {
    exists i | 0 <= i < |adapters| :: adapters[i].name == name
  }

  predicate Dangling(adapters: seq<HeuristicAdapter>, hints: seq<PortHint>) {
    exists i | 0 <= i < |hints| :: !DeclaresAdapter(adapters, hints[i].adapter)
  }

  predicate AnyEnabled(adapters: seq<HeuristicAdapter>) {
    exists i | 0 <= i < |adapters| :: adapters[i].enabled
  }

  function ScalarFault(p: ClassifierPolicy): Option<ErrorCode> {
    if p.defaultFreshnessWindow == 0 then Some(InvalidArgument)
    else if p.minimumPublishableConfidence > CONFIDENCE_SCALE then Some(InvalidArgument)
    else if p.contradictionPenalty > CONFIDENCE_SCALE then Some(InvalidArgument)
    else if p.maxEvidenceConsidered == 0 then Some(InvalidArgument)
    else if |p.heuristicAdapters| > MAX_COLLECTION_COUNT then Some(CapacityExceeded)
    else if |p.portHints| > MAX_COLLECTION_COUNT then Some(CapacityExceeded)
    else None
  }

  /** Faults of a policy whose adapters and hints are already sorted. */
  function ListFault(p: ClassifierPolicy): Option<ErrorCode> {
    if FirstAdapterFault(p.heuristicAdapters).Some? then FirstAdapterFault(p.heuristicAdapters)
    else if AdapterTwice(p.heuristicAdapters) then Some(DuplicateIdentity)
    else if Overconfident(p.portHints) then Some(InvalidArgument)
    else if HintTwice(p.portHints) then Some(DuplicateIdentity)
    else if Dangling(p.heuristicAdapters, p.portHints) then Some(InvalidArgument)
    else if !p.allowHeuristicEvidence && (AnyEnabled(p.heuristicAdapters) || p.portHints != []) then Some(InvalidArgument)
    else None
  }

  function Sorted(p: ClassifierPolicy): ClassifierPolicy {
    p.(limits := Effective(p.limits),
       heuristicAdapters := Sort(AdapterBefore, p.heuristicAdapters),
       portHints := Sort(HintBefore, p.portHints))
  }

  function Canonicalized(p: ClassifierPolicy): Result<ClassifierPolicy> {
    if ScalarFault(p).Some? then Err(ScalarFault(p).value)
    else if ListFault(Sorted(p)).Some? then Err(ListFault(Sorted(p)).value)
    else Ok(Sorted(p))
  }

  /** The policy a classifier is built with unless it is told otherwise. */
  function InitialPolicy(): ClassifierPolicy {
    ClassifierPolicy(
      1,
      ResourceLimits(65536, 1024, 4096, 4096, 1024, 64, 256, 32, 262144, 8, 16, 65536, 65536, 65536, 131072, 0x40_0000, 512,
                     0x1_0000, 4096, 4096, 8, 1024, 256, 3, 4096, 65536),
      false, 4096, 2000, 1000, 32, [], [])
  }

  lemma InitialIsCanonical()
    ensures Canonicalized(InitialPolicy()) == Ok(InitialPolicy())
  {
  }

  // ---- the two orders -----------------------------------------------------

  lemma AdapterOrder()
    ensures StrictWeakOrder(AdapterBefore)
  {
    forall a: HeuristicAdapter, b | AdapterBefore(a, b)
      ensures !AdapterBefore(b, a)
    {
      TextLessAsymmetric(a.name, b.name);
    }
    forall a: HeuristicAdapter, b, c | AdapterBefore(a, b) && AdapterBefore(b, c)
      ensures AdapterBefore(a, c)
    {
      TextLessTransitive(a.name, b.name, c.name);
    }
    forall a: HeuristicAdapter, b, c | !AdapterBefore(b, a) && !AdapterBefore(c, b)
      ensures !AdapterBefore(c, a)
    {
      if AdapterBefore(c, a) && a.name != b.name {
        TextLessTotal(a.name, b.name);
        TextLessTransitive(c.name, a.name, b.name);
      }
    }
  }

  lemma CodesInjective()
    ensures forall s, t | TransportCode(s) == TransportCode(t) :: s == t
    ensures forall c, d | SemanticCode(c) == SemanticCode(d) :: c == d
  {
  }

  lemma HintOrder()
    ensures StrictWeakOrder(HintBefore)
    ensures forall a, b | !HintBefore(a, b) && !HintBefore(b, a) :: SameHint(a, b)
  {
    CodesInjective();
  }

  lemma NamesWithoutTies(adapters: seq<HeuristicAdapter>)
    requires WeaklySorted(AdapterBefore, adapters) && !AdapterTwice(adapters)
    ensures Ascending(AdapterBefore, adapters)
  {
    AdapterOrder();
    forall i | 1 <= i < |adapters|
      ensures AdapterBefore(adapters[i - 1], adapters[i])
    {
      assert adapters[i - 1].name != adapters[i].name;
      TextLessTotal(adapters[i - 1].name, adapters[i].name);
    }
    NoTiesAscending(AdapterBefore, adapters);
  }

  lemma HintsWithoutTies(hints: seq<PortHint>)
    requires WeaklySorted(HintBefore, hints) && !HintTwice(hints)
    ensures Ascending(HintBefore, hints)
  {
    HintOrder();
    forall i | 1 <= i < |hints|
      ensures HintBefore(hints[i - 1], hints[i])
    {
      assert !SameHint(hints[i - 1], hints[i]);
    }
    NoTiesAscending(HintBefore, hints);
  }

  // ---- canonicalisation is idempotent -------------------------------------

  lemma SortedWeakly(p: ClassifierPolicy)
    ensures WeaklySorted(AdapterBefore, Sorted(p).heuristicAdapters)
    ensures WeaklySorted(HintBefore, Sorted(p).portHints)
  {
    AdapterOrder();
    HintOrder();
    SortWeaklySorted(AdapterBefore, p.heuristicAdapters);
    SortWeaklySorted(HintBefore, p.portHints);
  }

  lemma SortedAgain(p: ClassifierPolicy)
    requires Ascending(AdapterBefore, p.heuristicAdapters) && Ascending(HintBefore, p.portHints)
    ensures Sort(AdapterBefore, p.heuristicAdapters) == p.heuristicAdapters
    ensures Sort(HintBefore, p.portHints) == p.portHints
  {
    AdapterOrder();
    HintOrder();
    SortOfAscending(AdapterBefore, p.heuristicAdapters);
    SortOfAscending(HintBefore, p.portHints);
  }

  lemma SortedTwice(p: ClassifierPolicy)
    requires ListFault(Sorted(p)).None?
    ensures Sorted(Sorted(p)) == Sorted(p)
  {
    var c := Sorted(p);
    SortedWeakly(p);
    NamesWithoutTies(c.heuristicAdapters);
    HintsWithoutTies(c.portHints);
    SortedAgain(c);
    EffectiveIdempotent(p.limits);
  }

  lemma SameScalars(p: ClassifierPolicy)
    ensures ScalarFault(Sorted(p)) == ScalarFault(p)
  {
  }

  lemma CanonicalizeIdempotent(p: ClassifierPolicy)
    requires Canonicalized(p).Ok?
    ensures Canonicalized(Canonicalized(p).value) == Canonicalized(p)
  {
    SortedTwice(p);
    SameScalars(p);
  }

  // ---- canonicalisation forgets declaration order -------------------------

  /** The same policy, its adapters and hints declared in another order. */
  ghost predicate Redeclared(p: ClassifierPolicy, q: ClassifierPolicy) {
    && q == p.(heuristicAdapters := q.heuristicAdapters, portHints := q.portHints)
    && multiset(p.heuristicAdapters) == multiset(q.heuristicAdapters)
    && multiset(p.portHints) == multiset(q.portHints)
  }

  /** The reported adapter fault belongs to a faulty adapter with the least name. */
  lemma {:induction false} FaultOfLeastName(adapters: seq<HeuristicAdapter>)
    requires WeaklySorted(AdapterBefore, adapters)
    ensures FirstAdapterFault(adapters).None? <==> forall a | a in adapters :: AdapterFault(a).None?
    ensures FirstAdapterFault(adapters).Some? ==>
              exists a :: && a in adapters
                          && AdapterFault(a) == FirstAdapterFault(adapters)
                          && forall b | b in adapters && AdapterFault(b).Some? :: !AdapterBefore(b, a)
  {
    if adapters != [] {
      var a, rest := adapters[0], adapters[1..];
      assert adapters == [a] + rest;
      FaultOfLeastName(rest);
      if AdapterFault(a).Some? {
        assert a in adapters;
        forall b | b in adapters && AdapterFault(b).Some?
          ensures !AdapterBefore(b, a)
        {
          var i :| 0 <= i < |adapters| && adapters[i] == b;
          if i == 0 {
            TextLessIrreflexive(a.name);
          }
        }
      } else if FirstAdapterFault(adapters).Some? {
        var c :| && c in rest && AdapterFault(c) == FirstAdapterFault(rest)
                 && forall b | b in rest && AdapterFault(b).Some? :: !AdapterBefore(b, c);
        assert c in adapters && forall b | b in adapters && AdapterFault(b).Some? :: b in rest;
      }
    }
  }

  lemma SameNameSameFault(a: HeuristicAdapter, b: HeuristicAdapter)
    requires a.name == b.name && AdapterFault(a).Some? && AdapterFault(b).Some?
    ensures AdapterFault(a) == AdapterFault(b)
  {
  }

  lemma PermutedFault(a: seq<HeuristicAdapter>, b: seq<HeuristicAdapter>)
    requires WeaklySorted(AdapterBefore, a) && WeaklySorted(AdapterBefore, b) && SameElements(a, b)
    ensures FirstAdapterFault(a) == FirstAdapterFault(b)
  {
    FaultOfLeastName(a);
    FaultOfLeastName(b);
    if FirstAdapterFault(a).Some? {
      var x :| && x in a && AdapterFault(x) == FirstAdapterFault(a)
               && forall c | c in a && AdapterFault(c).Some? :: !AdapterBefore(c, x);
      assert x in b;
      var y :| && y in b && AdapterFault(y) == FirstAdapterFault(b)
               && forall c | c in b && AdapterFault(c).Some? :: !AdapterBefore(c, y);
      assert y in a;
      if x.name != y.name {
        TextLessTotal(x.name, y.name);
      }
      SameNameSameFault(x, y);
    }
  }

  /** Sorted lists of the same elements agree on ties, and coincide when there are none. */
  lemma PermutedAdapters(a: seq<HeuristicAdapter>, b: seq<HeuristicAdapter>)
    requires WeaklySorted(AdapterBefore, a) && multiset(a) == multiset(b)
    requires WeaklySorted(AdapterBefore, b) && !AdapterTwice(a)
    ensures a == b
  {
    AdapterOrder();
    NamesWithoutTies(a);
    SortOfAscending(AdapterBefore, a);
    MultisetMembership(a, b);
    assert NoRepeats(b) by {
      NoRepeatsPermutation(a, b);
    }
    AscendingFromWeak(AdapterBefore, a, b);
    AscendingUnique(AdapterBefore, a, b);
  }

  lemma PermutedHints(a: seq<PortHint>, b: seq<PortHint>)
    requires WeaklySorted(HintBefore, a) && multiset(a) == multiset(b)
    requires WeaklySorted(HintBefore, b) && !HintTwice(a)
    ensures a == b
  {
    HintOrder();
    HintsWithoutTies(a);
    MultisetMembership(a, b);
    assert NoRepeats(b) by {
      NoRepeatsPermutation(a, b);
    }
    AscendingFromWeak(HintBefore, a, b);
    AscendingUnique(HintBefore, a, b);
  }

  /** A weakly sorted arrangement of distinct elements that can be strictly sorted is strictly sorted. */
  lemma AscendingFromWeak<T(!new)>(less: (T, T) -> bool, a: seq<T>, b: seq<T>)
    requires Ascending(less, a) && WeaklySorted(less, b) && NoRepeats(b) && SameElements(a, b)
    ensures Ascending(less, b)
  {
    forall i, j | 0 <= i < j < |b|
      ensures less(b[i], b[j])
    {
      assert b[i] in a && b[j] in a;
      var k :| 0 <= k < |a| && a[k] == b[i];
      var m :| 0 <= m < |a| && a[m] == b[j];
      assert k != m;
    }
  }

  lemma SameElementsSameHints(a: seq<PortHint>, b: seq<PortHint>)
    requires SameElements(a, b)
    ensures Overconfident(a) <==> Overconfident(b)
  {
    forall i | 0 <= i < |a|
      ensures exists j | 0 <= j < |b| :: b[j] == a[i]
    {
      assert a[i] in b;
    }
    forall i | 0 <= i < |b|
      ensures exists j | 0 <= j < |a| :: a[j] == b[i]
    {
      assert b[i] in a;
    }
  }

  lemma RedeclaredSorted(p: ClassifierPolicy, q: ClassifierPolicy)
    requires Redeclared(p, q)
    ensures Redeclared(Sorted(p), Sorted(q))
  {
  }

  lemma RedeclaredScalars(p: ClassifierPolicy, q: ClassifierPolicy)
    requires Redeclared(p, q)
    ensures ScalarFault(p) == ScalarFault(q)
  {
    MultisetMembership(p.heuristicAdapters, q.heuristicAdapters);
    MultisetMembership(p.portHints, q.portHints);
  }

  /** Declaration order changes neither the verdict on a policy nor its canonical form. */
  lemma CanonicalizeIgnoresOrder(p: ClassifierPolicy, q: ClassifierPolicy)
    requires Redeclared(p, q)
    ensures Canonicalized(p) == Canonicalized(q)
  {
    RedeclaredScalars(p, q);
    RedeclaredSorted(p, q);
    SortedWeakly(p);
    SortedWeakly(q);
    SortedAlike(Sorted(p), Sorted(q));
  }

  lemma SortedAlike(x: ClassifierPolicy, y: ClassifierPolicy)
    requires Redeclared(x, y)
    requires WeaklySorted(AdapterBefore, x.heuristicAdapters) && WeaklySorted(AdapterBefore, y.heuristicAdapters)
    requires WeaklySorted(HintBefore, x.portHints) && WeaklySorted(HintBefore, y.portHints)
    ensures ListFault(x) == ListFault(y)
    ensures ListFault(x).None? ==> x == y
  {
    var a, b := x.heuristicAdapters, y.heuristicAdapters;
    MultisetMembership(a, b);
    MultisetMembership(x.portHints, y.portHints);
    PermutedFault(a, b);
    if !AdapterTwice(a) {
      PermutedAdapters(a, b);
    } else if !AdapterTwice(b) {
      PermutedAdapters(b, a);
    }
    SameElementsSameHints(x.portHints, y.portHints);
    if !HintTwice(x.portHints) {
      PermutedHints(x.portHints, y.portHints);
    } else if !HintTwice(y.portHints) {
      PermutedHints(y.portHints, x.portHints);
    }
  }

  // ---- canonicalisation as it runs ----------------------------------------

  method CheckAdapters(adapters: seq<HeuristicAdapter>) returns (fault: Option<ErrorCode>)
    ensures fault == if FirstAdapterFault(adapters).Some? then FirstAdapterFault(adapters)
                     else if AdapterTwice(adapters) then Some(DuplicateIdentity) else None
  {
    var i := 0;
    while i < |adapters|
      invariant 0 <= i <= |adapters|
      invariant FirstAdapterFault(adapters[i..]) == FirstAdapterFault(adapters)
    {
      assert adapters[i..][0] == adapters[i] && adapters[i..][1..] == adapters[i + 1..];
      if !IsCanonicalIdentity(adapters[i].name) {
        return Some(MalformedInput);
      }
      if adapters[i].maxBasisPoints > CONFIDENCE_SCALE {
        return Some(InvalidArgument);
      }
      i := i + 1;
    }
    i := 1;
    while i < |adapters|
      invariant 1 <= i
      invariant forall k | 1 <= k < i && k < |adapters| :: adapters[k - 1].name != adapters[k].name
    {
      if adapters[i - 1].name == adapters[i].name {
        return Some(DuplicateIdentity);
      }
      i := i + 1;
    }
    fault := None;
  }

  method CheckHints(hints: seq<PortHint>) returns (fault: Option<ErrorCode>)
    ensures fault == if Overconfident(hints) then Some(InvalidArgument)
                     else if HintTwice(hints) then Some(DuplicateIdentity) else None
  {
    for i := 0 to |hints|
      invariant forall k | 0 <= k < i :: hints[k].basisPoints <= CONFIDENCE_SCALE
    {
      if hints[i].basisPoints > CONFIDENCE_SCALE {
        return Some(InvalidArgument);
      }
    }
    var i := 1;
    while i < |hints|
      invariant 1 <= i
      invariant forall k | 1 <= k < i && k < |hints| :: !SameHint(hints[k - 1], hints[k])
    {
      if hints[i - 1].transport == hints[i].transport && hints[i - 1].port == hints[i].port
         && hints[i - 1].semantic == hints[i].semantic
      {
        return Some(DuplicateIdentity);
      }
      i := i + 1;
    }
    fault := None;
  }

  method CheckDeclared(adapters: seq<HeuristicAdapter>, hints: seq<PortHint>) returns (ok: bool)
    ensures ok <==> !Dangling(adapters, hints)
  {
    for i := 0 to |hints|
      invariant forall k | 0 <= k < i :: DeclaresAdapter(adapters, hints[k].adapter)
    {
      var declares := false;
      for j := 0 to |adapters|
        invariant declares <==> exists k | 0 <= k < j :: adapters[k].name == hints[i].adapter
      {
        if adapters[j].name == hints[i].adapter {
          declares := true;
        }
      }
      if !declares {
        return false;
      }
    }
    ok := true;
  }

  method FindEnabled(adapters: seq<HeuristicAdapter>) returns (any: bool)
    ensures any <==> AnyEnabled(adapters)
  {
    any := false;
    for i := 0 to |adapters|
      invariant any <==> exists k | 0 <= k < i :: adapters[k].enabled
    {
      if adapters[i].enabled {
        any := true;
      }
    }
  }

  method Canonicalize(policy: ClassifierPolicy) returns (r: Result<ClassifierPolicy>)
    ensures r == Canonicalized(policy)
  {
    var p := policy.(limits := Effective(policy.limits));
    if p.defaultFreshnessWindow == 0 {
      return Err(InvalidArgument);
    }
    if p.minimumPublishableConfidence > CONFIDENCE_SCALE || p.contradictionPenalty > CONFIDENCE_SCALE
       || p.maxEvidenceConsidered == 0
    {
      return Err(InvalidArgument);
    }
    if |p.heuristicAdapters| > MAX_COLLECTION_COUNT || |p.portHints| > MAX_COLLECTION_COUNT {
      return Err(CapacityExceeded);
    }
    p := p.(heuristicAdapters := Sort(AdapterBefore, p.heuristicAdapters));
    var adapterFault := CheckAdapters(p.heuristicAdapters);
    if adapterFault.Some? {
      return Err(adapterFault.value);
    }
    p := p.(portHints := Sort(HintBefore, p.portHints));
    var hintFault := CheckHints(p.portHints);
    if hintFault.Some? {
      return Err(hintFault.value);
    }
    var declared := CheckDeclared(p.heuristicAdapters, p.portHints);
    if !declared {
      return Err(InvalidArgument);
    }
    if !p.allowHeuristicEvidence {
      var enabled := FindEnabled(p.heuristicAdapters);
      if enabled || p.portHints != [] {
        return Err(InvalidArgument);
      }
    }
    r := Ok(p);
  }

  // ---- heuristic lookups --------------------------------------------------

  /** Whether the first adapter of this name is enabled. */
  predicate NamedEnabled(adapters: seq<HeuristicAdapter>, name: string) {
    && adapters != []
    && if adapters[0].name == name then adapters[0].enabled else NamedEnabled(adapters[1..], name)
  }

  predicate HeuristicEnabled(p: ClassifierPolicy, adapter: string) {
    p.allowHeuristicEvidence && NamedEnabled(p.heuristicAdapters, adapter)
  }

  /** The transport code and port that a binding cites. */
  function ClaimOf(binding: nat): (nat, nat) {
    ((binding / 0x1_0000) % 0x100, binding % 0x1_0000)
  }

  function HintBindingOf(transport: Transport, port: nat): nat {
    TransportCode(transport) * 0x1_0000 + port
  }

  lemma ClaimRoundTrip(transport: Transport, port: nat)
    requires port < 0x1_0000
    ensures ClaimOf(HintBindingOf(transport, port)) == (TransportCode(transport), port)
  {
  }

  /** Some declared hint for this transport code and port hangs on an enabled adapter. */
  predicate HintUsable(p: ClassifierPolicy, transportCode: nat, port: nat) {
    exists i | 0 <= i < |p.portHints| ::
      && TransportCode(p.portHints[i].transport) == transportCode
      && p.portHints[i].port == port
      && HeuristicEnabled(p, p.portHints[i].adapter)
  }

  method FindPortHint(p: ClassifierPolicy, transportCode: nat, port: nat) returns (found: bool)
    ensures found <==> p.allowHeuristicEvidence && HintUsable(p, transportCode, port)
  {
    if !p.allowHeuristicEvidence {
      return false;
    }
    for i := 0 to |p.portHints|
      invariant forall k | 0 <= k < i ::
                  !(TransportCode(p.portHints[k].transport) == transportCode && p.portHints[k].port == port
                    && HeuristicEnabled(p, p.portHints[k].adapter))
    {
      if TransportCode(p.portHints[i].transport) == transportCode && p.portHints[i].port == port
         && HeuristicEnabled(p, p.portHints[i].adapter)
      {
        return true;
      }
    }
    found := false;
  }
}
