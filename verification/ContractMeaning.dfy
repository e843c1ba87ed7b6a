/** Which contracts speak about a flow, and what they say, spelled out. */
module ContractMeaning {
  import opened Domain
  import opened DecisionEngine
  import opened DecisionTheorems
  import opened DecisionMeaning

  /** The flow lies within everything the contract declares about its scope. */
  ghost predicate InScope(c: WorkloadContract, key: FlowKey) {
    && (c.transport != UnknownTransport ==> key.transport == c.transport)
    && (c.remotePort != 0 ==> key.remotePort == c.remotePort)
    && (!c.matchAnyRemoteAddress ==> exists i | 0 <= i < |c.remoteScope| :: c.remoteScope[i] == key.remoteAddress)
    && (c.localPortScope != [] ==> exists i | 0 <= i < |c.localPortScope| :: c.localPortScope[i] == key.localPort)
  }

  /** The first workload record of that name is at this generation. */
  ghost predicate AtGeneration(ws: seq<WorkloadRecord>, id: string, generation: nat) {
    exists k | 0 <= k < |ws| ::
      && ws[k].id == id && ws[k].generation == generation
      && forall j | 0 <= j < k :: ws[j].id != id
  }

  /** In force, covering the flow, and bound to its workload's present generation. */
  ghost predicate Speaks(input: DecisionInput, c: WorkloadContract) {
    && c.state == ContractActive
    && InScope(c, input.flow.key)
    && AtGeneration(input.workloads, c.workload, c.workloadGeneration)
  }

  /** What a contract says of the flow. */
  ghost predicate Statement(input: DecisionInput, c: WorkloadContract, r: EvidenceRecord) {
    && r.semantic == c.declaredClass && r.source == c.derivedSource && r.confidence == BasisPoints(c.derivedSource)
    && r.contract == c.id && r.workload == c.workload && r.workloadGeneration == c.workloadGeneration && r.publisher == c.owner
    && r.flowId == input.flow.id && r.flowGeneration == input.flow.generation
    && r.state == EvidenceCurrent && r.acceptedEpoch == input.authority.epoch && r.acceptedSeq == 0
    && r.acceptedTick == input.authority.tick
    && (input.authority.tick == 0 ==> r.freshUntil == 0)
    && (input.authority.tick != 0 ==>
          r.freshUntil == input.authority.tick
                          + if input.policy.defaultFreshnessWindow == 0 then 1 else input.policy.defaultFreshnessWindow)
  }

  lemma {:induction false} GenerationFound(ws: seq<WorkloadRecord>, id: string, generation: nat)
    ensures WorkloadGeneration(ws, id) == Some(generation) <==> AtGeneration(ws, id, generation)
  {
    if ws != [] {
      GenerationFound(ws[1..], id, generation);
      if ws[0].id == id {
        assert ws[0].generation == generation ==> AtGeneration(ws, id, generation);
      } else {
        if AtGeneration(ws[1..], id, generation) {
          var k :| 0 <= k < |ws[1..]| && ws[1..][k].id == id && ws[1..][k].generation == generation
                   && forall j | 0 <= j < k :: ws[1..][j].id != id;
          assert ws[k + 1].id == id;
          assert forall j | 0 < j < k + 1 :: ws[j] == ws[1..][j - 1];
        }
        if AtGeneration(ws, id, generation) {
          var k :| 0 <= k < |ws| && ws[k].id == id && ws[k].generation == generation && forall j | 0 <= j < k :: ws[j].id != id;
          assert ws[1..][k - 1].id == id;
        }
      }
    }
  }

  lemma CoversIsInScope(c: WorkloadContract, key: FlowKey)
    ensures ContractCovers(c, key) <==> InScope(c, key)
  {
  }

  lemma AppliesIsSpeaks(input: DecisionInput, c: WorkloadContract)
    ensures ContractApplies(input, c) <==> Speaks(input, c)
  {
    hide ContractCovers, InScope, WorkloadGeneration, AtGeneration;
    CoversIsInScope(c, input.flow.key);
    GenerationFound(input.workloads, c.workload, c.workloadGeneration);
  }

  lemma DerivedIsStatement(o: Oracles, input: DecisionInput, c: WorkloadContract)
    ensures Statement(input, c, DerivedRecord(o, input, c))
  {
    TablesAgree(c.derivedSource);
  }

  /** Every record derived for a question is the statement of a contract that speaks about the flow. */
  lemma {:induction false} DerivedMeans(o: Oracles, input: DecisionInput, n: nat, r: EvidenceRecord)
    requires n <= |input.contracts| && r in DerivedRecords(o, input, n)
    ensures exists c | c in input.contracts[..n] :: Speaks(input, c) && Statement(input, c, r)
  {
    hide ContractApplies, Speaks, Statement, DerivedRecord, DerivedId, IdIn;
    if n > 0 {
      var c := input.contracts[n - 1];
      if r in DerivedRecords(o, input, n - 1) {
        DerivedMeans(o, input, n - 1, r);
        var d :| d in input.contracts[..n - 1] && Speaks(input, d) && Statement(input, d, r);
        assert d in input.contracts[..n];
      } else {
        AppliesIsSpeaks(input, c);
        DerivedIsStatement(o, input, c);
        assert input.contracts[..n][n - 1] == c;
      }
    }
  }

  /** Every contract that speaks about the flow is heard, unless its statement is already stored. */
  lemma SpeakersAreHeard(o: Oracles, input: DecisionInput, c: WorkloadContract)
    requires DistinctDerivedIds(o) && DistinctContracts(input.contracts)
    requires c in input.contracts && Speaks(input, c) && !IdIn(input.evidence, DerivedId(o, c, input.flow))
    ensures exists r | r in DerivedRecords(o, input, |input.contracts|) :: Statement(input, c, r)
  {
    hide DistinctDerivedIds, DistinctContracts, Speaks, Statement, DerivedRecord, DerivedId, IdIn, DerivedRecords,
         ContractApplies;
    AppliesIsSpeaks(input, c);
    DerivedIsStatement(o, input, c);
    DerivedMembership(o, input, |input.contracts|, DerivedRecord(o, input, c));
    var k :| 0 <= k < |input.contracts| && input.contracts[k] == c;
    assert Yields(o, input, input.contracts[k]);
  }
}
