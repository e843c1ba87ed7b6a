# AI Flow Classifier: a verified model

The classifier answers one question about a network flow: which class of AI traffic is it, on
whose word, and how sure is that. Publishers submit evidence under sessions; the coordinator
fences it by coordinator epoch and boot, publisher boot, session, flow generation, workload
generation and evidence generation, and a deterministic engine decides over what is current,
behind a memo. This project models that state machine and proves what every run of it keeps, from
the first state through any number of restarts, together with the parts it stands on: the stores,
the decision engine, the policy, the CRC-32 and SHA-256 hashes, the wire frames and their stream,
the record codecs and the durable image, the accept/queue/stop protocol of the service, and the
text form of addresses.

`dafny verify dfyconfig.toml` checks all of it.

## How it is laid out

Each store and the classifier itself appear twice. A value type with one function per operation
says what an operation does, refusals and partial effects included; a class with the program's
fields runs the operation in place, and its method is proved to end in the state and with the
answer that the function gives. Invariants and theorems about runs are proved about the functions,
and so is what each operation means: the `Meaning` files and `WireLayout` say it in words of their
own, so that an operation that swapped two values or skipped a step would not satisfy them.

| files | what they hold |
|---|---|
| `RunTheorems`, `RevocationRuns`, `RestartRuns`, `ClassifierRuns`, `RestartSafety`, `StartConditions`, `FileRestart` | theorems about whole runs: a `Life` is any sequence of operations and restarts |
| `DecisionMeaning`, `CitationMeaning`, `ContractMeaning`, `ClassifyMeaning`, `SubmissionMeaning`, `DisplacementMeaning`, `SessionMeaning`, `LifecycleMeaning`, `FlowMeaning`, `AuthorityMeaning`, `StoreMeaning`, `RestartMeaning`, `Sweeps` | what each operation does, spelled out over its arguments and the states before and after, apart from the functions that compute it |
| `MemoLives` | two runs in which the memo and the engine disagree |
| `ClassifierState`, `ClassifierInvariant`, `ClassifierSteps`, `ClassifierSubmission`, `ClassifierPublication`, `ClassifierMemo`, `Restart` | the state, its invariant, and every step keeping it |
| `ClassifierObject`, `ClassifierPersistence` | the classifier as a class |
| `DecisionEngine`, `DecisionOrder`, `DecisionTheorems`, `DecisionCoherence`, `DecisionDigest`, `DigestExactness`, `DecisionMethod` | the engine as a function, its theorems, the evidence-set digest and what it determines, and the engine as it runs |
| `EvidenceStore`, `PublisherRegistry`, `WorkloadRegistry`, `FlowRegistry`, `ClassificationIndex`, `Policy` | the stores and the policy |
| `Crc32`, `Sha256`, `Sha256Meaning`, `Frame`, `FrameStream` | hashes and framing |
| `Wire`, `Records`, `BufferIo`, `RecordIo`, `DigestEncoders`, `SnapshotBody`, `Snapshot`, `SnapshotFile`, `WireLayout` | codecs and the durable image, as functions and as they run |
| `Service` | the accept, queue and stop protocol |
| `Address`, `EvidenceMaterial`, `Numerals` | text renderings |
| `Domain`, `Sorting`, `Enumeration`, `LittleEndian`, `Words`, `Buffers` | shared types and helpers |
| `Consistency` | a choice of identities and digests that meets the hypotheses about them |

## What is assumed

- Identities and digests derived by SHA-256 are functions in the parameter `o` of type `Oracles`,
  and so is the rendering of explanatory text. `DistinctIdentities` says that the flow and evidence
  identities do not collide; the statements about the order of records and contracts ask for distinct
  derived identities. `CollisionFree` adds that digests of different contents differ, and from zero,
  and is asked for only by the statements about the memo. It speaks of contents within the 65536
  bytes of their encoders; beyond them a contract or a record has the zero digest, as in the program.
  `CollisionFreeExists` in `Consistency` shows that these hypotheses can be met together. The SHA-256
  of the durable image is not an oracle but the function computed by the hasher.
- Clock readings are parameters that do not decrease within one process. They are unbounded, so
  that `tick + window` does not wrap. A submission reads the clock twice, as the program does.
- The revocation and supersession rings have positive bounds where a statement says so.
- The memo agrees with the engine on two conditions that a caller can check: the encoded evidence
  set is within 65536 bytes (`Fits`), and so is the content of every record and the definition of
  every contract in it (`Legible`). `DigestDecidesExactlyWhen` shows that exactly these are needed,
  and `FitsExactlyWhen` counts the first. `WireRecordsFit` shows that the second concerns contracts
  only, for records whose texts the wire admits. Both can fail in a run: `CrowdedMemoDisagrees`
  reaches 1770 contracts under the initial policy, `WideDefinitionsDisagree` with `BroadRivals`
  replaces one contract of 3300 addresses by another, and each time a query is answered from the
  memo with what the engine no longer decides.
- The statements about the file take for granted what the program's types give: numbers within
  their widths, byte texts, 32-byte digests, and a canonical policy.

## Where the code and its documentation differ

The model follows the code.

- `include/ai_flow_classifier/classify/classifier.hpp:147` says that advancing the epoch clears
  decisions and memo; the code keeps the history and the memo, whose entries can no longer be hit.
- `src/runtime/coordinator.cpp:73-76` says that the persisted policy is installed first so that it
  sizes the stores; the code sizes them once, when the classifier is built.
- `include/ai_flow_classifier/state/snapshot.hpp:20` describes eight bytes of CRC-32 over bytes 0 to
  79; the code stores four bytes, computed over all 88 header bytes with those four zeroed.
- `Sha256::finish` is documented as leaving the hasher usable for intermediate digests; the code
  leaves the padding absorbed.
- `encode_frame` does not check the version that decoding insists on, hence the condition in
  `FrameRoundTrip`.

## Model

| member | source | states |
|---|---|---|
| `RunTheorems.AuthorityLossIsPermanent` | src/classify/classifier.cpp:82-280 | in every run, restarts included, a stored record that once fails the currentness test of its own flow generation fails it at every later point, whatever reconnects, heartbeats, epoch or boot advances and publications follow |
| `RunTheorems.StandsIsTheEngineTest` | src/classify/decision_engine.cpp:264-325 | the currentness test of the run theorems is exactly the one by which the engine leaves a non-heuristic candidate selectable |
| `RunTheorems.MemoAgreesInEveryLife` | src/classify/classifier.cpp:795-872 | in every reachable state a classification, memo hit or not, is what the engine would decide now, provided the encoded evidence set fits and every record and contract in it was digested within its encoder's bound; `DigestDecidesExactlyWhen` says that nothing less will do |
| `RunTheorems.AcceptedGenerationsIncrease` | src/classify/classifier.cpp:590-595 | over every run with any number of restarts, accepted evidence generations of one publisher boot strictly increase |
| `RunTheorems.AcceptedNumbersIncrease` | src/classify/classifier.cpp:631-637 | over every run with any number of restarts, acceptance numbers strictly increase, so none is reused |
| `RunTheorems.NothingReturnsAfterRestart` | src/runtime/coordinator.cpp:71-119 | at any point after a restart, an envelope of an epoch reached before it is refused by submission, withdrawal and revocation with nothing changed, and a generation used before it is refused even under a new session of the same boot |
| `RunTheorems.CurrentRecordsAreGrounded` | src/classify/classifier.cpp:387-407 | in every reachable state a CURRENT stored record was accepted in the present epoch, its publisher is live under its boot or has since moved to a later one, and it carries the current generation of its flow |
| `RunTheorems.OneCurrentPerTopic` | src/classify/classifier.cpp:648-690 | in every reachable state, of two records reachable from a flow with one publisher boot and topic at most one is CURRENT, and it has the higher generation |
| `ClassifierRuns.LivesAreSound` | src/classify/classifier.cpp:82-1001 | the state invariant and the backing of every memo entry hold in every reachable state, restarts included |
| `ClassifierRuns.LivesMoveForward` | src/classify/classifier.cpp:82-1139 | epochs, sequence numbers, publisher marks, flow generations and contract stages never move back over a run |
| `RestartSafety.RestartIsSafe` | src/runtime/coordinator.cpp:71-119 | restoring the image of any state in which the invariant holds and advancing the epoch re-establishes the invariant, with a higher epoch and sequence, the same records and none of them CURRENT or of the new epoch, no live incarnation, an empty memo and no durable mark moved back |
| `RestartSafety.EarlierEnvelopeRefused` | src/classify/classifier.cpp:434-436 | an envelope of an earlier epoch is refused by submission, withdrawal and revocation with the state unchanged |
| `RestartSafety.UsedGenerationRefused` | src/classify/classifier.cpp:590-595 | a generation already used by a publisher boot is refused in every state in which the invariant holds |
| `FileRestart.RestartThroughFile` | src/runtime/coordinator.cpp:71-119 | any sound state written out, whatever it holds: the file is refused exactly when some record or collection is beyond the reader's bounds, and otherwise is read as what was written; a process then starts from it exactly when `Startable` holds, soundly and with nothing durable moved back |
| `FileRestart.WideDecisionIsRefused` | src/codec/record_codec.cpp:674-862 | a recorded decision with more citations than a collection may hold is written but makes the file unreadable |
| `StartConditions.StartsExactlyWhen` | src/runtime/coordinator.cpp:71-119 | a coordinator starts from the image of a sound state if and only if it has a boot identifier, neither counter is at its last value and each of the five durable tables fits the configured capacity |
| `RestartRuns.RestartsUnlessExhausted` | src/runtime/coordinator.cpp:71-119 | at every point of every run, a restart under limits no narrower than those in force succeeds if and only if there is a boot identifier and neither counter is exhausted |
| `RestartRuns.LivesStayWithin` | src/classify/classifier.cpp:55-78 | at every point of every run each store has the capacity its process was configured with, and the publisher, workload, contract and flow tables keep to it, restarts and policy changes included |
| `RevocationRuns.RevocationOutlivesRestarts` | src/classify/classifier.cpp:972-1001 | a generation once revoked is decided REVOKED at every later point of a run, across restarts, as long as fewer revocations were filed since than each process on the way keeps and no policy was installed |
| `DecisionMeaning.DecisionMeans` | src/classify/decision_engine.cpp:200-562 | on every question with distinct record identities, said without the engine's ranking, tables or stages: a revoked generation is REVOKED; otherwise, if some considered record is current and names a class, the one that decides has the highest source in the listed order declared, contract-derived, coordinator-correlated, topology-correlated, then the highest workload generation, then the latest acceptance, then the least identity, and class, evidence, source, corroboration, the contradictions one by one and the confidence (the lesser of its own and its source's ceiling, less the penalty if it is opposed) are reported from it, or INSUFFICIENT below the policy's threshold; otherwise STALE or INSUFFICIENT, spelled out |
| `DecisionMeaning.RanksAboveIsAhead` | src/classify/decision_engine.cpp:36-52 | the comparator is that listed order, the four sources written out |
| `DecisionMeaning.TextLessIsAlphabetical` | src/classify/decision_engine.cpp:36-43 | the comparison of identities is by the first character in which they differ, a prefix first |
| `CitationMeaning.CitationsMean` | src/classify/decision_engine.cpp:385-540 | every citation is of a considered record, carries that record's source, class, confidence and numbers, and names the part it played: selected, corroborating, contradicting, subordinate, below the threshold, or the reason it was not current; or it is excluded by the limit |
| `ContractMeaning.CoversIsInScope` | src/domain/workload.cpp:102-130 | a contract covers a flow exactly when transport, remote port, remote address and local port each lie within what it declares |
| `ContractMeaning.DerivedMeans` | src/classify/decision_engine.cpp:215-262 | every derived record is the statement of a contract that is ACTIVE, covers the flow and is bound to its workload's present generation; so a contract says nothing about a flow outside its scope |
| `ContractMeaning.SpeakersAreHeard` | src/classify/decision_engine.cpp:215-262 | every such contract has its statement among the derived records, unless that is already stored |
| `ClassifyMeaning.SubjectMeans` | src/classify/classifier.cpp:795-824 | a query is about the generation it names if that is current or in the key's history, about the current one if it names none and accepts that, and is otherwise refused with the code that says why |
| `ClassifyMeaning.QuestionMeans` | src/classify/classifier.cpp:777-843 | the engine is asked about exactly the stored records the flow's list names, exactly the ACTIVE contracts, the declared workloads, the live incarnations, and whether the whole generation was revoked |
| `ClassifyMeaning.AnswersMean` | src/classify/classifier.cpp:795-872 | in every reachable state every query is refused unchanged, or answered, memo hit or not, with a classification that says what `DecisionMeans` spells out about that question; a miss files it as the youngest of its flow and changes nothing else |
| `SubmissionMeaning.AdmittedExactlyWhen` | src/classify/classifier.cpp:431-588 | a submission passes the checks exactly when epoch, boots and session are those of a live registration, the source it is given is usable under the policy, it names a class, and the workload and contract it names are its publisher's and current |
| `SubmissionMeaning.InadmissibleIsRefused` | src/classify/classifier.cpp:431-588 | and is otherwise refused with nothing changed |
| `SubmissionMeaning.AcceptedRecord` | src/classify/classifier.cpp:596-646 | an accepted record's source is never above the claim, the envelope's ceiling or the registration's, and is one of the three; its confidence is that source's, its class, workload, contract, publisher and flow are those submitted, and it is fresh until the tick plus the window asked for, or the default one |
| `SubmissionMeaning.AcceptedStore` | src/classify/classifier.cpp:648-719 | an accepted submission stores that record and disturbs no other but those the fence or the record itself overtakes |
| `DisplacementMeaning.AcceptedReplaces` | src/classify/classifier.cpp:648-719 | it displaces exactly the older records of its publisher boot and topic that its flow lists: each once, marked SUPERSEDED, with one notice in the ring naming both identities and generations; the last is reported, and so is the fence with the generation before it; the sequence moves by one |
| `SubmissionMeaning.OnlySubmissionStores` | src/classify/classifier.cpp:431-719 | no operation but an accepted submission brings in a record |
| `SubmissionMeaning.EveryRecordWasSubmitted` | src/classify/classifier.cpp:431-719 | over every run with any number of restarts, every stored record descends from an accepted submission, so its source was within the ceilings in force then |
| `SessionMeaning.SessionEnds` | src/store/publisher_registry.cpp:143-178 | after a session is ended it is not among the live ones, the others remain in order, the incarnation leaves the live set exactly when none remains, and the records that go stale are exactly those of the session or of the incarnation |
| `SessionMeaning.SessionOpens` | src/store/publisher_registry.cpp:17-137 | binding is refused exactly for no boot, an earlier boot or no room; afterwards the session is the current one and live, the generation mark is kept for the same boot and zero for a later one, a known publisher keeps its registration's ceiling and its record the highest one bound |
| `SessionMeaning.ContactMeans` | src/store/publisher_registry.cpp:199-226 | contact brings back a publisher that fell idle and never one whose last session was closed |
| `SessionMeaning.SilenceMeans` | src/store/publisher_registry.cpp:180-197 | after expiry exactly the live publishers silent for more than the idle bound are idle, those within it stay live, and exactly the records nobody attends go stale |
| `SessionMeaning.EndedSessionIsRefused` | src/classify/classifier.cpp:209-253 | over every run, whatever else happens and across restarts, a submission under an ended session is refused until that session is bound again |
| `LifecycleMeaning.ContractIsRetired` | src/store/workload_registry.cpp:271-290 | a contract is retired exactly by its owner: it is RETIRED, no workload names it, every other contract and workload is as it was, and exactly the records that cite it go stale |
| `LifecycleMeaning.WorkloadIsRetired` | src/store/workload_registry.cpp:108-131 | a workload is retired exactly at its generation, together with its ACTIVE contracts and no other, and exactly the records that cite it go stale |
| `LifecycleMeaning.ContractIsActivated` | src/store/workload_registry.cpp:205-269 | a contract is activated exactly when it is its caller's, pending or active, and bound to its workload's present generation; it is then the one its workload names, and exactly the rivals of that workload are retired |
| `LifecycleMeaning.WorkloadIsDeclared` | src/store/workload_registry.cpp:18-98 | a declaration is accepted exactly when room, owner and generation allow; a later generation retires exactly the contracts in force for the workload |
| `LifecycleMeaning.ContractIsProposed` | src/store/workload_registry.cpp:133-203 | a proposal is accepted exactly when it is complete, its workload is its owner's at that generation and there is room; it is then pending with its digest, and nothing else changes |
| `LifecycleMeaning.OwnerRetires` | src/classify/classifier.cpp:336-344 | an owner's retirement leaves the contract RETIRED |
| `LifecycleMeaning.RetiredWithWorkload` | src/classify/classifier.cpp:346-354 | retiring a workload leaves its contracts in force RETIRED |
| `LifecycleMeaning.RetiredForGood` | src/classify/classifier.cpp:317-344 | over every run, restarts included, a RETIRED contract stays so, is not among the active ones, cannot be activated, and no question ever derives a record from it |
| `FlowMeaning.FlowRegisters` | src/classify/classifier.cpp:368-416 | every outcome of a registration: refused above the bound, below the current generation or without room; repeated at it; otherwise a new incarnation with its fields, the fenced one youngest in a history of eight, no record on the flow left CURRENT, and exactly the earlier generations' decisions STALE |
| `AuthorityMeaning.CanonicalMeans` | src/domain/policy.cpp:25-139 | a policy is accepted exactly when its numbers are in range, its adapters and hints well formed and distinct, every hint names an adapter, and nothing guesses unless guessing is allowed; only limits and order change |
| `AuthorityMeaning.PolicyIsInstalled` | src/classify/classifier.cpp:163-191 | installing is refused unchanged, leaves an equal policy in place, or takes the next generation and forgets every decision, revocation and memo entry |
| `AuthorityMeaning.EpochAdvances` | src/classify/classifier.cpp:82-107 | the epoch and the sequence move by one, the boot is the given one, every publisher loses its session and is idle, and exactly the CURRENT records of another epoch go stale |
| `AuthorityMeaning.EvidenceIsWithdrawn` | src/classify/classifier.cpp:721-763 | a record is withdrawn exactly by the incarnation that submitted it in this epoch, and marked SUPERSEDED with the reason; the notice joins the ring, unless the numbers are exhausted |
| `AuthorityMeaning.GenerationIsRevoked` | src/classify/classifier.cpp:972-1001 | a known generation is put on notice, records left as they are; the ring gives up its oldest notice only when it is full |
| `StoreMeaning.InsertionMeans` | src/store/evidence_store.cpp:18-80 | every outcome of an insertion: a known identity is confirmed or refused, a full ring gives up its oldest record and no other, a flow's list its oldest identities |
| `StoreMeaning.MemoMeans` | src/store/classification_index.cpp:105-129 | the memo replaces an answer, adds it, or gives up exactly its oldest for it |
| `RestartMeaning.RestartMeans` | src/classify/classifier.cpp:1085-1139 | what a restarted process holds, table by table: the same workloads, contracts and current flows, every record with those that were CURRENT now STALE, every publisher known by its marks and unattended, the youngest notices and decisions that fit, an empty memo, the next epoch and sequence, and the persisted policy installed over the configured one |
| `ClassifierSteps.InitialInv` | src/classify/classifier.cpp:55-78 | a newly built classifier satisfies the invariant |
| `ClassifierSteps.AdvanceEpochKeepsInv` | src/classify/classifier.cpp:82-107 | an epoch advance keeps the invariant, only ages records and never adds to the memo |
| `ClassifierSteps.NoneCurrentAfterAdvance` | src/classify/classifier.cpp:95-104 | after an epoch advance no stored record is CURRENT and every one belongs to an earlier epoch |
| `ClassifierSteps.SetPolicyKeepsInv` | src/classify/classifier.cpp:163-191 | installing a policy keeps the invariant, moves no durable mark back and adds nothing to the memo |
| `ClassifierSteps.RegisterPublisherKeepsInv` | src/classify/classifier.cpp:195-207 | registering a publisher keeps the invariant, and the authority sequence moves whenever the live set does |
| `ClassifierSteps.EndSessionKeepsInv` | src/classify/classifier.cpp:209-253 | ending a session keeps the invariant: records of an incarnation that is no longer live stop being CURRENT |
| `ClassifierSteps.HeartbeatKeepsInv` | src/classify/classifier.cpp:255-260 | a heartbeat keeps the invariant and revives nothing |
| `ClassifierSteps.ExpireLivenessKeepsInv` | src/classify/classifier.cpp:262-280 | expiring liveness keeps the invariant: records left without a live incarnation stop being CURRENT |
| `ClassifierSteps.DeclareWorkloadKeepsInv` | src/classify/classifier.cpp:289-310 | declaring a workload keeps the invariant: records only age, no contract's stage moves back, nothing is added to the memo |
| `ClassifierSteps.ProposeContractKeepsInv` | src/classify/classifier.cpp:312-315 | proposing a contract keeps the invariant: records only age and no contract's content or stage moves back |
| `ClassifierSteps.ActivateContractKeepsInv` | src/classify/classifier.cpp:317-334 | activating a contract keeps the invariant: records only age, no contract's stage moves back, nothing is added to the memo |
| `ClassifierSteps.RetireContractKeepsInv` | src/classify/classifier.cpp:336-344 | retiring a contract keeps the invariant: records only age and no contract's content or stage moves back |
| `ClassifierSteps.RetireWorkloadKeepsInv` | src/classify/classifier.cpp:346-354 | retiring a workload keeps the invariant: records only age and no contract's content or stage moves back |
| `ClassifierSubmission.RegisterFlowKeepsInv` | src/classify/classifier.cpp:368-416 | registering a flow keeps the invariant: every record of a fenced generation stops being CURRENT |
| `ClassifierSubmission.FenceStales` | src/classify/classifier.cpp:387-407 | a new incarnation leaves no record of its flow CURRENT |
| `ClassifierSubmission.RevokeGenerationKeepsInv` | src/classify/classifier.cpp:972-1001 | revoking a generation keeps the invariant: the revocation is numbered and no stored record is revived |
| `ClassifierSubmission.WithdrawEvidenceKeepsInv` | src/classify/classifier.cpp:721-763 | withdrawing evidence keeps the invariant and only ages the record |
| `ClassifierPublication.ObservedIsNewest` | src/classify/classifier.cpp:590-595 | a generation that passes the replay fence is above that of every stored record of its publisher boot and was never used before |
| `ClassifierPublication.DisplaceMarks` | src/classify/classifier.cpp:657-690 | every reachable older record of the same publisher boot and topic is marked SUPERSEDED |
| `ClassifierPublication.DisplacedClears` | src/classify/classifier.cpp:657-690 | after the supersession pass no reachable record of the topic is CURRENT |
| `ClassifierPublication.SubmitEvidenceKeepsInv` | src/classify/classifier.cpp:431-719 | a submission, accepted or refused at any stage, keeps the invariant, only ages stored records, and any new record carries a generation its publisher boot never used before |
| `ClassifierMemo.QuestionSealed` | src/classify/classifier.cpp:825-843 | every question the classifier asks has what the digest argument needs: distinct identities, digests that match their content, and active contracts in order whose workloads are at the generation they name |
| `ClassifierMemo.MemoHitAgrees` | src/classify/classifier.cpp:845-856 | a memo hit equals the engine's decision on the present question when its evidence set fits and its digests were within bound, although workload generations, acceptance numbers and the live set are not in the key |
| `ClassifierMemo.ClassifyKeepsInv` | src/classify/classifier.cpp:795-872 | classifying keeps the invariant and changes no stored record other than by ageing |
| `ClassifierMemo.ClassifyKeepsMemo` | src/classify/classifier.cpp:855-866 | every memo entry stored by a classification is backed by the question it answered |
| `ClassifierMemo.ClassifyAgreesWithEngine` | src/classify/classifier.cpp:795-872 | one classification answers with the engine's decision on the present question, under the same two conditions |
| `ClassifierMemo.OversizedAnswerGoesStale` | src/classify/classifier.cpp:845-866 | in any state with a usable memo and sequence numbers left, a question that does not fit, is not yet revoked and not yet remembered is answered, remembered, revoked, and answered again from the memo with what the engine would no longer decide |
| `MemoLives.CrowdedMemoDisagrees` | src/classify/classifier.cpp:845-866 | a whole run under the initial policy in which that happens: 1770 contracts come into force, a query is answered, its generation revoked, and the query still answered from the memo as if it were not |
| `MemoLives.WideDefinitionsDisagree` | src/classify/classifier.cpp:317-334 | a whole run in which the other condition fails: for any two contracts of one workload whose definitions exceed their encoder, the second replaces the first and the query is still answered with the first one's class, although the evidence set fits |
| `MemoLives.BroadRivals` | src/domain/workload.cpp:71-101 | two contracts with 3300 addresses each are such a pair |
| `EvidenceMaterial.MaterialInjective` | src/classify/classifier.cpp:605-620 | the bar-joined text an evidence identity is hashed from determines all six of its parts, although the topic may itself contain bars |
| `ClassifierObject.Classifier.constructor` | src/classify/classifier.cpp:55-78 | builds the stores in the initial state |
| `ClassifierObject.Classifier.AdvanceEpoch` | src/classify/classifier.cpp:82-107 | the fields and stores afterwards, and the answer, are those of the epoch-advance step on the state before |
| `ClassifierObject.Classifier.SetPolicy` | src/classify/classifier.cpp:163-191 | the fields and stores afterwards, and the answer, are those of the specified step on the state before: the policy is canonicalised; one with the digest in force is answered with its generation and installs nothing, any other takes the next generation and empties the decision index, and only an invalid policy or an exhausted generation is refused |
| `ClassifierObject.Classifier.RegisterPublisher` | src/classify/classifier.cpp:195-207 | the fields and stores afterwards, and the answer, are those of the specified step on the state before: binding a session |
| `ClassifierObject.Classifier.EndSession` | src/classify/classifier.cpp:209-253 | the fields and stores afterwards, and the answer, are those of the specified step on the state before: ending a session, with the sweep over its records |
| `ClassifierObject.Classifier.Heartbeat` | src/classify/classifier.cpp:255-260 | the fields and stores afterwards, and the answer, are those of the specified step on the state before: a heartbeat |
| `ClassifierObject.Classifier.ExpireLiveness` | src/classify/classifier.cpp:262-280 | the fields and stores afterwards are those of the specified step on the state before: expiry, with the sweep over records left unattended; the count returned is the number of registrations that expired |
| `ClassifierObject.Classifier.DeclareWorkload` | src/classify/classifier.cpp:289-310 | the fields and stores afterwards, and the answer, are those of the specified step on the state before: declaring a workload, with the sweep over retired contracts |
| `ClassifierObject.Classifier.ProposeContract` | src/classify/classifier.cpp:312-315 | the fields and stores afterwards, and the answer, are those of the specified step on the state before: proposing a contract |
| `ClassifierObject.Classifier.ActivateContract` | src/classify/classifier.cpp:317-334 | the fields and stores afterwards, and the answer, are those of the specified step on the state before: activating a contract |
| `ClassifierObject.Classifier.RetireContract` | src/classify/classifier.cpp:336-344 | the fields and stores afterwards, and the answer, are those of the specified step on the state before: retiring a contract |
| `ClassifierObject.Classifier.RetireWorkload` | src/classify/classifier.cpp:346-354 | the fields and stores afterwards, and the answer, are those of the specified step on the state before: retiring a workload |
| `ClassifierObject.Classifier.RegisterFlow` | src/classify/classifier.cpp:368-416 | the fields and stores afterwards, and the answer, are those of the specified step on the state before: registering a flow, with the fencing of its records and decisions |
| `ClassifierObject.Classifier.CheckAdmission` | src/classify/classifier.cpp:434-575 | the admission checks in order give the first fault of the specification, or none |
| `ClassifierObject.Classifier.MintRecord` | src/classify/classifier.cpp:597-646 | the record minted for an admitted submission is the specified one |
| `ClassifierObject.Classifier.SupersedeOlder` | src/classify/classifier.cpp:648-690 | the loop over the flow's records leaves the store and the supersession ring as specified |
| `ClassifierObject.Classifier.PublishEvidence` | src/classify/classifier.cpp:597-719 | numbering, minting, supersession, insertion and the refresh of liveness together are the publication step |
| `ClassifierObject.Classifier.SubmitEvidence` | src/classify/classifier.cpp:695-719 | a submission is the specified step, with the partial effects of one that is refused late |
| `ClassifierObject.Classifier.WithdrawEvidence` | src/classify/classifier.cpp:721-763 | a withdrawal is the specified step |
| `ClassifierObject.Classifier.RevokeGeneration` | src/classify/classifier.cpp:972-1001 | a revocation is the specified step |
| `ClassifierObject.Classifier.BuildAuthorityContext` | src/classify/classifier.cpp:777-793 | the collected context holds exactly the live and the known incarnations |
| `ClassifierObject.Classifier.CollectEvidence` | src/classify/classifier.cpp:836-843 | the records collected for a flow are exactly those of its list |
| `ClassifierObject.Classifier.BuildQuestion` | src/classify/classifier.cpp:825-843 | the question put to the engine is the specified one |
| `ClassifierObject.Classifier.Classify` | src/classify/classifier.cpp:795-872 | a classification is the specified step: memo first, then the engine, then recording and remembering |
| `ClassifierPersistence.DurableImage` | src/classify/classifier.cpp:137-156 | the lists written out hold each table entry once and every recorded decision as often as it was recorded, ordered by flow and generation, with counters, policy and rings as they are |
| `ClassifierPersistence.ListHistory` | src/store/classification_index.cpp:206-218 | the gathering loop followed by the sort lists every recorded decision, ordered by flow identity and generation |
| `ClassifierPersistence.RestoreInto` | src/classify/classifier.cpp:1085-1139 | restoring record by record in the program's order is the specified restore, stopping at the first refusal |
| `DecisionTheorems.DecisionIgnoresOrder` | src/classify/decision_engine.cpp:200-562 | every field of a decision is unchanged under every permutation of records, contracts and workloads |
| `DecisionTheorems.WinnerIsUniqueMaximum` | src/classify/decision_engine.cpp:327-349 | the candidate that wins before the threshold is the unique maximum of precedence over the current, authoritative records that name a class, and there is none exactly when no such record exists |
| `DecisionTheorems.NonInterference` | src/classify/decision_engine.cpp:264-494 | adding a record that is heuristic, not current or of another generation changes no part of the verdict, except the state when there is no winner |
| `DecisionTheorems.DerivedMembership` | src/classify/decision_engine.cpp:234-261 | the derived records are exactly those of the contracts that apply and whose identity is unused, each once |
| `DecisionCoherence.DecisionNonInterference` | src/classify/decision_engine.cpp:200-562 | the same for the whole decision, after the cap and the final guard |
| `DecisionCoherence.CitationsCoverCandidates` | src/classify/decision_engine.cpp:351-391 | citations and candidates correspond one to one, whatever the cap does |
| `DecisionCoherence.CapIsExact` | src/classify/decision_engine.cpp:496-538 | with `d` decisive citations of `total`, exactly max(d, min(total, cap)) are not excluded by the limit |
| `DecisionCoherence.SelectedIsWinner` | src/classify/decision_engine.cpp:401-467 | a published winner has exactly one SELECTED citation, its own; otherwise there is none |
| `DecisionCoherence.GuardNeverFires` | src/classify/decision_engine.cpp:540-558 | the final guard never changes a verdict |
| `DecisionCoherence.DecisionIsCoherent` | src/classify/decision_engine.cpp:401-558 | a decision either reports nothing at all or a class carried by one selected, current citation, with the confidence between the threshold and the bound of its source, and state, penalty and contradictions agreeing |
| `DecisionCoherence.ContradictingAreOpponents` | src/classify/decision_engine.cpp:412-437 | the CONTRADICTING citations are those of the reported opponents |
| `DecisionCoherence.ContradictionsAreOutranked` | src/classify/decision_engine.cpp:420-437 | every reported contradiction sets the selected record against an authoritative one of another class that it outranks |
| `DecisionOrder.RanksAboveTotal` | src/classify/decision_engine.cpp:36-43 | precedence relates every two records of different identity |
| `DecisionOrder.RanksAboveTransitive` | src/classify/decision_engine.cpp:36-43 | precedence is transitive |
| `DecisionOrder.RanksAboveAsymmetric` | src/classify/decision_engine.cpp:36-43 | precedence is asymmetric |
| `DecisionOrder.RankedProperties` | src/classify/decision_engine.cpp:327-349 | the ranked candidates are a strictly ascending arrangement of the pool |
| `DecisionMethod.CollectEvidence` | src/classify/decision_engine.cpp:215-232 | the loop that admits stored records gives the specified candidates |
| `DecisionMethod.CollectDerived` | src/classify/decision_engine.cpp:234-261 | the loop over contracts with its growing set of identities gives the specified derived candidates |
| `DecisionMethod.CiteCandidates` | src/classify/decision_engine.cpp:351-391 | the citation loop gives the specified dispositions and counts every other agreeing record |
| `DecisionMethod.CollectContradictions` | src/classify/decision_engine.cpp:412-437 | the contradictions are the opponents in order of precedence |
| `DecisionMethod.ApplyCap` | src/classify/decision_engine.cpp:496-538 | splitting, re-admitting and excluding citations gives the specified list |
| `DecisionMethod.Guard` | src/classify/decision_engine.cpp:540-558 | the search for a justifying citation gives the specified verdict |
| `DecisionMethod.Decide` | src/classify/decision_engine.cpp:200-562 | the engine run stage by stage computes the specified decision |
| `DecisionDigest.FitsExactlyWhen` | src/classify/decision_engine.cpp:139-198 | with n records and m contracts the encoded evidence set fits exactly when 74 + 45n + 37m <= 65536 |
| `DecisionDigest.EqualDigestsEqualDecisions` | src/classify/decision_engine.cpp:139-198 | equal evidence-set digests mean equal decisions when one of the questions fits and its records and contracts were digested within bound |
| `DecisionDigest.OversizedDigestIsBlind` | src/classify/decision_engine.cpp:192-193 | every question that does not fit shares its digest with one that is decided differently |
| `DigestExactness.DigestDecidesExactlyWhen` | src/classify/decision_engine.cpp:139-198 | a question's evidence-set digest determines its decision among all questions it could be confused with if and only if the evidence set fits and every record and contract in it was digested within its encoder's bound |
| `DigestExactness.IllegibleIsBlind` | src/classify/decision_engine.cpp:139-198 | a question with a record or contract beyond its encoder's bound shares its digest with one that is decided differently |
| `DigestEncoders.ComputeContractDigest` | src/domain/workload.cpp:71-101 | filling the bounded encoder field by field gives the specified digest of a contract's definition, zero when it does not fit |
| `DigestEncoders.ComputeEvidenceDigest` | src/domain/evidence.cpp:133-168 | filling the bounded encoder field by field gives the specified digest of a record's content, zero when it does not fit |
| `DigestEncoders.DefinitionsDetermine` | src/domain/workload.cpp:71-101 | contracts whose definitions encode alike have the same definition |
| `DigestEncoders.ContentsDetermine` | src/domain/evidence.cpp:133-168 | records whose contents encode alike have the same content |
| `DigestEncoders.DefinitionIsWide` | src/domain/workload.cpp:71-101 | the encoding of a definition is as long as the width its bound is checked against |
| `DigestEncoders.ContentIsWide` | src/domain/evidence.cpp:133-168 | the encoding of a record's content is as long as the width its bound is checked against |
| `DigestEncoders.WireRecordsFit` | src/domain/evidence.cpp:133-168 | the content of a record whose texts are within 512 bytes always fits its encoder |
| `DecisionDigest.ComputeEvidenceSetDigest` | src/classify/decision_engine.cpp:139-198 | filling the bounded encoder field by field gives the specified digest, zero exactly when it does not fit |
| `EvidenceStore.InsertKeepsIndex` | src/store/evidence_store.cpp:18-80 | insertion keeps the index: the ring lists the stored identities once each and within the bound, and each flow list is a suffix of the ring restricted to that flow within its bound |
| `EvidenceStore.EvictOldestKeepsIndex` | src/store/evidence_store.cpp:248-258 | eviction keeps the index and makes room |
| `EvidenceStore.MarkStaleKeepsIndex` | src/store/evidence_store.cpp:144-158 | marking stale keeps the index |
| `EvidenceStore.WithStateKeepsIndex` | src/store/evidence_store.cpp:115-142 | changing one record's state keeps the index |
| `EvidenceStore.MarkEpochStaleKeepsIndex` | src/store/evidence_store.cpp:160-175 | marking an epoch stale keeps the index |
| `EvidenceStore.RestoreKeepsIndex` | src/store/evidence_store.cpp:187-236 | restoring a record keeps the index |
| `EvidenceStore.FlowReachesItsList` | src/store/evidence_store.cpp:90-113 | the records reached from a flow are exactly those of its list, so the skip over missing records is never taken |
| `EvidenceStore.Store.constructor` | include/ai_flow_classifier/store/evidence_store.hpp:50-54 | an empty store with its bounds |
| `EvidenceStore.Store.Insert` | src/store/evidence_store.cpp:18-80 | insertion in place is the specified one, refusals included |
| `EvidenceStore.Store.EvidenceForFlow` | src/store/evidence_store.cpp:90-113 | the sorted identities of the stored records of a flow |
| `EvidenceStore.Store.EvictOldestRecords` | src/store/evidence_store.cpp:248-258 | the eviction loop is the specified eviction |
| `EvidenceStore.Store.UnindexFlow` | src/store/evidence_store.cpp:238-246 | an identity leaves its flow's list and nothing else changes |
| `EvidenceStore.Store.SetState` | src/store/evidence_store.cpp:115-142 | a state change is the specified one, refusals included |
| `EvidenceStore.Store.MarkStaleByPredicate` | src/store/evidence_store.cpp:144-158 | exactly the CURRENT records that meet the predicate become STALE |
| `EvidenceStore.Store.MarkEpochStaleRecords` | src/store/evidence_store.cpp:160-175 | exactly the CURRENT records of an earlier epoch become STALE |
| `EvidenceStore.Store.IndexFlow` | src/store/evidence_store.cpp:213-236 | an identity is appended to its flow's list within the bound |
| `EvidenceStore.Store.RestoreRecord` | src/store/evidence_store.cpp:187-211 | a restored record is never CURRENT, and the index is extended as specified |
| `PublisherRegistry.BoundKeepsInvariant` | src/store/publisher_registry.cpp:17-137 | binding a session keeps durable and volatile entries in agreement on boot and high-water mark, moves no mark back and changes nothing when it refuses |
| `PublisherRegistry.EndedKeepsInvariant` | src/store/publisher_registry.cpp:143-178 | ending a session keeps that agreement |
| `PublisherRegistry.ExpireKeepsInvariant` | src/store/publisher_registry.cpp:180-197 | expiry keeps that agreement |
| `PublisherRegistry.TouchedKeepsInvariant` | src/store/publisher_registry.cpp:199-226 | contact keeps that agreement |
| `PublisherRegistry.ObservedIsFresh` | src/store/publisher_registry.cpp:257-292 | a generation that is accepted was not used before and is used from then on |
| `PublisherRegistry.UsedIsRefused` | src/store/publisher_registry.cpp:257-292 | a used generation is refused |
| `PublisherRegistry.ClearedKeepsInvariant` | src/store/publisher_registry.cpp:348-355 | dropping all sessions keeps the agreement and leaves no live incarnation |
| `PublisherRegistry.RestoredRecordsKeepInvariant` | src/store/publisher_registry.cpp:319-346 | restoring records keeps the agreement |
| `PublisherRegistry.Registry.BindSession` | src/store/publisher_registry.cpp:17-137 | binding in place is the specified one, refusals included |
| `PublisherRegistry.Registry.EndSpecificSession` | src/store/publisher_registry.cpp:143-178 | ending in place is the specified one |
| `PublisherRegistry.Registry.ExpireLiveness` | src/store/publisher_registry.cpp:180-197 | the expiry loop is the specified one, and counts the registrations it moved |
| `PublisherRegistry.Registry.Touch` | src/store/publisher_registry.cpp:199-226 | contact in place is the specified one |
| `PublisherRegistry.Registry.IsLive` | src/store/publisher_registry.cpp:248-255 | reports exactly the live incarnations |
| `PublisherRegistry.Registry.ObserveEvidenceGeneration` | src/store/publisher_registry.cpp:257-292 | observing in place is the specified one |
| `PublisherRegistry.Registry.RestoreRecords` | src/store/publisher_registry.cpp:319-346 | the restore loop is the specified one, stopping at the first refusal |
| `PublisherRegistry.Registry.ClearSessions` | src/store/publisher_registry.cpp:348-355 | clearing in place is the specified one |
| `WorkloadRegistry.AtMostOneActive` | src/store/workload_registry.cpp:205-269 | a workload has at most one ACTIVE contract |
| `WorkloadRegistry.DeclaringRetiresAll` | src/store/workload_registry.cpp:18-98 | a new generation retires every ACTIVE contract of its workload |
| `WorkloadRegistry.DeclaredKeepsInvariant` | src/store/workload_registry.cpp:18-98 | declaring keeps the contract invariant: an ACTIVE contract names an existing, unretired workload of the same owner and generation and is its active contract |
| `WorkloadRegistry.WorkloadRetirementKeepsInvariant` | src/store/workload_registry.cpp:108-131 | retiring a workload keeps the contract invariant |
| `WorkloadRegistry.ProposedKeepsInvariant` | src/store/workload_registry.cpp:133-203 | proposing keeps the contract invariant |
| `WorkloadRegistry.ActivationRetiresAtMostOne` | src/store/workload_registry.cpp:205-269 | activation retires at most one contract, the workload's active one, so its single output is complete |
| `WorkloadRegistry.ActivatedKeepsInvariant` | src/store/workload_registry.cpp:205-269 | activation keeps the contract invariant |
| `WorkloadRegistry.ContractRetirementKeepsInvariant` | src/store/workload_registry.cpp:271-290 | retiring a contract keeps the contract invariant |
| `WorkloadRegistry.ActivatedForward` | src/store/workload_registry.cpp:205-269 | activation changes no contract's content and moves no stage back |
| `WorkloadRegistry.DeclaredForward` | src/store/workload_registry.cpp:18-98 | declaring changes no contract's content and moves no stage back |
| `WorkloadRegistry.Registry.DeclareWorkload` | src/store/workload_registry.cpp:18-98 | declaring in place, with its sweep over contracts, is the specified one |
| `WorkloadRegistry.Registry.RetireWorkload` | src/store/workload_registry.cpp:108-131 | retiring in place is the specified one |
| `WorkloadRegistry.Registry.ProposeContract` | src/store/workload_registry.cpp:133-203 | proposing in place is the specified one |
| `WorkloadRegistry.Registry.ActivateContract` | src/store/workload_registry.cpp:205-269 | activating in place is the specified one |
| `WorkloadRegistry.Registry.RetireContract` | src/store/workload_registry.cpp:271-290 | retiring a contract in place is the specified one |
| `WorkloadRegistry.Registry.ActiveContractList` | src/store/workload_registry.cpp:314-322 | lists exactly the ACTIVE contracts in order of identity |
| `WorkloadRegistry.Registry.RestoreWorkload` | src/store/workload_registry.cpp:342-350 | restoring a workload in place is the specified one |
| `WorkloadRegistry.Registry.RestoreContract` | src/store/workload_registry.cpp:352-368 | restoring a contract in place is the specified one |
| `FlowRegistry.RegistrationIsFenced` | src/store/flow_registry.cpp:36-165 | for a registered key: a generation above the acceptable maximum or past the last one is refused with nothing changed; otherwise a higher or automatic generation fences the previous one and strictly rises, the same one renews, a lower one is refused with nothing changed |
| `FlowRegistry.RegisteredKeepsInvariant` | src/store/flow_registry.cpp:36-165 | registration keeps every history generation below the current one, and no flow moves back |
| `FlowRegistry.HistoryBelowCurrent` | src/store/flow_registry.cpp:36-60 | the highest known generation of a registered key is its current one |
| `FlowRegistry.TrimmingIsHarmless` | src/store/flow_registry.cpp:15-20 | registries that differ only in how far their history was trimmed answer every registration alike |
| `FlowRegistry.RestoredFlowKeepsInvariant` | src/store/flow_registry.cpp:237-259 | restoring a flow keeps the invariant, whether its key is absent or present with an earlier, the same or a later generation |
| `FlowRegistry.Registry.RegisterFlow` | src/store/flow_registry.cpp:36-165 | registration in place is the specified one |
| `FlowRegistry.Registry.PushHistory` | src/store/flow_registry.cpp:15-20 | history grows by one record and is trimmed to the youngest eight |
| `FlowRegistry.Registry.FindGeneration` | src/store/flow_registry.cpp:184-200 | finds the current incarnation or one in history, as specified |
| `FlowRegistry.Registry.RestoreFlow` | src/store/flow_registry.cpp:237-259 | restoring in place is the specified one |
| `ClassificationIndex.MemoStoredKeepsInvariant` | src/store/classification_index.cpp:105-129 | the memo's keys and its order list stay in step and within the bound, and what was stored is found |
| `ClassificationIndex.MemoStoredContents` | src/store/classification_index.cpp:105-129 | storing adds or replaces one memo entry and otherwise only drops entries |
| `ClassificationIndex.RingIsYoungest` | src/store/classification_index.cpp:144-160 | a bounded ring holds exactly the youngest entries pushed |
| `ClassificationIndex.RevocationLasts` | src/store/classification_index.cpp:153-160 | a revocation is remembered exactly while fewer than `bound` others followed it |
| `ClassificationIndex.Index.Record` | src/store/classification_index.cpp:37-75 | recording a decision in place is the specified one |
| `ClassificationIndex.Index.MemoStore` | src/store/classification_index.cpp:105-129 | storing in place with its eviction loop is the specified one |
| `ClassificationIndex.Index.RecordRevocation` | src/store/classification_index.cpp:153-160 | pushes on the bounded ring |
| `ClassificationIndex.Index.RecordSupersession` | src/store/classification_index.cpp:144-151 | pushes on the bounded ring |
| `ClassificationIndex.Index.FindRevocation` | src/store/classification_index.cpp:178-189 | finds a revocation of the generation exactly when the ring holds one |
| `ClassificationIndex.Index.SupersedeGeneration` | src/store/classification_index.cpp:191-204 | marks exactly the recorded decisions of lower generations of the flow |
| `ClassificationIndex.Index.Clear` | src/store/classification_index.cpp:248-255 | empties every part of the index |
| `ClassificationIndex.Index.RestoreClassification` | src/store/classification_index.cpp:220-230 | restoring a decision in place is the specified one |
| `Policy.CanonicalizeIdempotent` | src/domain/policy.cpp:25-139 | canonicalising a canonical policy changes nothing |
| `Policy.CanonicalizeIgnoresOrder` | src/domain/policy.cpp:25-139 | policies that declare the same adapters and hints in different orders canonicalise alike, faults included |
| `Policy.EffectiveIdempotent` | src/foundation/config.cpp:36-77 | clamping the limits twice is clamping them once |
| `Policy.Canonicalize` | src/domain/policy.cpp:25-139 | sorting and checking in place gives the specified policy or the specified fault |
| `Policy.ClaimRoundTrip` | src/domain/policy.cpp:149-159 | the binding of a transport and port is read back as that transport and port |
| `Policy.InitialIsCanonical` | src/domain/policy.cpp:16-23 | the policy a new classifier starts from is canonical |
| `Policy.FindPortHint` | src/domain/policy.cpp:161-170 | finds a hint exactly when heuristics are allowed and an enabled adapter has one for the port |
| `Sha256Meaning.ChooseSelects` | src/foundation/hash.cpp:90 | the choice takes the bits of its second operand where the first has ones and of the third elsewhere |
| `Sha256Meaning.MajorityOfTwo` | src/foundation/hash.cpp:93 | the majority has exactly the bits that at least two operands have |
| `Sha256Meaning.BigSigma0Bits` | src/foundation/hash.cpp:92 | bit i is the exclusive-or of the bits 2, 13 and 22 places above it, around the word |
| `Sha256Meaning.BigSigma1Bits` | src/foundation/hash.cpp:89 | bit i is the exclusive-or of the bits 6, 11 and 25 places above it |
| `Sha256Meaning.SmallSigma0Bits` | src/foundation/hash.cpp:73-74 | bit i is the exclusive-or of the bits 7 and 18 places above it and of the word shifted down by 3 |
| `Sha256Meaning.SmallSigma1Bits` | src/foundation/hash.cpp:75 | bit i is the exclusive-or of the bits 17 and 19 places above it and of the word shifted down by 10 |
| `Sha256Meaning.ConstantsFrom0` | src/foundation/hash.cpp:13-23 | round constants 0 to 3 are the first 32 bits of the fractions of the cube roots of their primes |
| `Sha256Meaning.ConstantsFrom4` | src/foundation/hash.cpp:13-23 | round constants 4 to 7 are the first 32 bits of the fractions of the cube roots of their primes |
| `Sha256Meaning.ConstantsFrom8` | src/foundation/hash.cpp:13-23 | round constants 8 to 11 are the first 32 bits of the fractions of the cube roots of their primes |
| `Sha256Meaning.ConstantsFrom12` | src/foundation/hash.cpp:13-23 | round constants 12 to 15 are the first 32 bits of the fractions of the cube roots of their primes |
| `Sha256Meaning.ConstantsFrom16` | src/foundation/hash.cpp:13-23 | round constants 16 to 19 are the first 32 bits of the fractions of the cube roots of their primes |
| `Sha256Meaning.ConstantsFrom20` | src/foundation/hash.cpp:13-23 | round constants 20 to 23 are the first 32 bits of the fractions of the cube roots of their primes |
| `Sha256Meaning.ConstantsFrom24` | src/foundation/hash.cpp:13-23 | round constants 24 to 27 are the first 32 bits of the fractions of the cube roots of their primes |
| `Sha256Meaning.ConstantsFrom28` | src/foundation/hash.cpp:13-23 | round constants 28 to 31 are the first 32 bits of the fractions of the cube roots of their primes |
| `Sha256Meaning.ConstantsFrom32` | src/foundation/hash.cpp:13-23 | round constants 32 to 35 are the first 32 bits of the fractions of the cube roots of their primes |
| `Sha256Meaning.ConstantsFrom36` | src/foundation/hash.cpp:13-23 | round constants 36 to 39 are the first 32 bits of the fractions of the cube roots of their primes |
| `Sha256Meaning.ConstantsFrom40` | src/foundation/hash.cpp:13-23 | round constants 40 to 43 are the first 32 bits of the fractions of the cube roots of their primes |
| `Sha256Meaning.ConstantsFrom44` | src/foundation/hash.cpp:13-23 | round constants 44 to 47 are the first 32 bits of the fractions of the cube roots of their primes |
| `Sha256Meaning.ConstantsFrom48` | src/foundation/hash.cpp:13-23 | round constants 48 to 51 are the first 32 bits of the fractions of the cube roots of their primes |
| `Sha256Meaning.ConstantsFrom52` | src/foundation/hash.cpp:13-23 | round constants 52 to 55 are the first 32 bits of the fractions of the cube roots of their primes |
| `Sha256Meaning.ConstantsFrom56` | src/foundation/hash.cpp:13-23 | round constants 56 to 59 are the first 32 bits of the fractions of the cube roots of their primes |
| `Sha256Meaning.ConstantsFrom60` | src/foundation/hash.cpp:13-23 | round constants 60 to 63 are the first 32 bits of the fractions of the cube roots of their primes |
| `Sha256Meaning.InitialWords` | src/foundation/hash.cpp:25-27 | the initial words are the first 32 bits of the fractions of the square roots of the first eight primes |
| `Sha256Meaning.HashOfAbc` | src/foundation/hash.cpp:58-187 | the hash of "abc" is the digest the standard publishes |
| `WireLayout.PaddingIsLaid` | src/foundation/hash.cpp:133-168 | the padding is a one bit, the fewest zeros that fill the block, and the length in bits, highest byte first |
| `WireLayout.CheckValue` | src/foundation/hash.cpp:189-211 | the checksum of the digits one to nine is the published check value |
| `WireLayout.CheckTag` | src/protocol/frame.cpp:98-126 | the checksum is stored low byte first |
| `WireLayout.FrameIsLaid` | src/protocol/frame.cpp:98-126 | every field of a frame at its offset, the tag over the frame with the tag zeroed |
| `Crc32.TableStepIsSerial` | src/foundation/hash.cpp:195-203 | one table-driven update is eight bit-serial steps of the reflected polynomial, for every state and byte |
| `Crc32.SerialInjectiveInState` | src/foundation/hash.cpp:195-203 | the update by a byte is injective in the state |
| `Crc32.SerialInjectiveInByte` | src/foundation/hash.cpp:195-203 | the update of a state is injective in the byte |
| `Crc32.OneByteChangesChecksum` | src/foundation/hash.cpp:189-211 | changing any one byte of data of any length changes its checksum |
| `Crc32.BuildTable` | src/foundation/hash.cpp:35-44 | the table loop fills every entry with eight shifts of its index |
| `Crc32.Hasher.Update` | src/foundation/hash.cpp:195-203 | updating byte by byte through the table is the bit-serial register |
| `Crc32.ComputeChecksum` | src/foundation/hash.cpp:205-211 | the one-shot checksum is the bit-serial one |
| `Sha256.Hasher.CompressBlock` | src/foundation/hash.cpp:65-113 | compressing a block in place is the function of section 6.2.2 of FIPS 180-4 |
| `Sha256.Hasher.Update` | src/foundation/hash.cpp:115-131 | whole blocks are folded into the state and the rest waits, however the message is cut |
| `Sha256.Hasher.Finish` | src/foundation/hash.cpp:133-168 | the digest is that of the message padded as in section 5.1.1 of FIPS 180-4, and the padding ends exactly on a block boundary |
| `Sha256.FillsToLength` | src/foundation/hash.cpp:143-155 | the zero bytes counted from the buffer bring the message to 56 bytes past a block |
| `Sha256.HashInPieces` | src/foundation/hash.cpp:115-181 | any split of a message under 2^61 bytes into updates gives the hash of the whole |
| `Frame.FrameRoundTrip` | src/protocol/frame.cpp:98-212 | decoding an encoded frame with anything after it gives the frame back if and only if its header names the supported version |
| `Frame.DecodedReencodes` | src/protocol/frame.cpp:128-212 | a decoded frame encodes to exactly the bytes it was decoded from |
| `Frame.VerdictIsFinal` | src/protocol/frame.cpp:128-212 | an error or a completed frame found on a prefix is unchanged by any extension |
| `Frame.OneAlteredByteIsRefused` | src/protocol/frame.cpp:128-212 | a valid frame of any payload length with one byte changed outside the length field is refused |
| `FrameStream.EncodeInto` | src/protocol/frame.cpp:98-126 | writing the header at its offsets, then the tag over the zeroed field, gives the specified bytes or refusal |
| `FrameStream.DecodeFrom` | src/protocol/frame.cpp:128-212 | the checks in order give the specified verdict |
| `FrameStream.Accumulator.Append` | src/protocol/frame.cpp:214-228 | bytes are appended within the bound or refused with nothing changed |
| `FrameStream.Accumulator.Next` | src/protocol/frame.cpp:230-244 | a complete frame is taken off the front and the rest shifted down; otherwise nothing changes |
| `FrameStream.StreamConserves` | src/protocol/frame.cpp:214-244 | frames yielded, re-encoded, followed by the bytes still buffered are always the bytes appended |
| `FrameStream.StreamYieldsWhatWasSent` | src/protocol/frame.cpp:214-244 | for every list of frames and every chunking, what was yielded and what is still buffered are those frames in order |
| `FrameStream.WaitingIsTheRest` | src/protocol/frame.cpp:214-244 | at every point the frames yielded are a prefix of those sent, and the buffer with what is still to come encodes the rest |
| `FrameStream.GoodStreamNeverBreaks` | src/protocol/frame.cpp:230-244 | a stream of encoded frames is never refused, however it is cut |
| `FrameStream.Drive` | src/protocol/frame.cpp:214-244 | the accumulator driven by appends and takes behaves as the stream model |
| `Records.FlowKeyRoundTrip` | src/codec/record_codec.cpp:187-221 | decoding an encoded flow key gives it back and leaves exactly what followed it |
| `Records.FlowRoundTrip` | src/codec/record_codec.cpp:400-455 | decoding an encoded flow record gives it back and leaves exactly what followed it if it is within the reader's bounds, and is refused if it is not |
| `Records.PublisherRoundTrip` | src/codec/record_codec.cpp:457-500 | decoding an encoded publisher record gives it back and leaves exactly what followed it if it is within the reader's bounds, and is refused if it is not |
| `Records.WorkloadRoundTrip` | src/codec/record_codec.cpp:502-555 | decoding an encoded workload record gives it back and leaves exactly what followed it if it is within the reader's bounds, and is refused if it is not |
| `Records.ContractRoundTrip` | src/codec/record_codec.cpp:557-672 | decoding an encoded contract gives it back and leaves exactly what followed it if it is within the reader's bounds, and is refused if it is not |
| `Records.EvidenceRoundTrip` | src/codec/record_codec.cpp:275-398 | decoding an encoded evidence record gives it back and leaves exactly what followed it if it is within the reader's bounds, and is refused if it is not |
| `Records.ClassificationRoundTrip` | src/codec/record_codec.cpp:674-862 | decoding an encoded classification with its citations and contradictions gives it back and leaves exactly what followed it if it is within the reader's bounds, and is refused if it is not |
| `Records.RevocationRoundTrip` | src/codec/record_codec.cpp:864-916 | decoding an encoded revocation gives it back and leaves exactly what followed it if it is within the reader's bounds, and is refused if it is not |
| `Records.SupersessionRoundTrip` | src/codec/record_codec.cpp:918-960 | decoding an encoded supersession gives it back and leaves exactly what followed it if it is within the reader's bounds, and is refused if it is not |
| `Records.PolicyRoundTrip` | src/codec/record_codec.cpp:962-1145 | decoding an encoded policy with its limits, adapters and hints gives it back and leaves exactly what followed it if it is within the reader's bounds, and is refused if it is not |
| `RecordIo.EncodeFlowKey` | src/codec/record_codec.cpp:187-195 | writing field by field appends the encoding of the flow key to the writer, and is refused exactly when the whole does not fit its bound |
| `RecordIo.DecodeFlowKey` | src/codec/record_codec.cpp:197-221 | reading field by field, with every check in its place, returns what the specification decodes or the fault it reports, and leaves the reader behind the record |
| `RecordIo.EncodeFlow` | src/codec/record_codec.cpp:400-411 | writing field by field appends the encoding of the flow record to the writer, and is refused exactly when the whole does not fit its bound |
| `RecordIo.DecodeFlow` | src/codec/record_codec.cpp:413-455 | reading field by field, with every check in its place, returns what the specification decodes or the fault it reports, and leaves the reader behind the record |
| `RecordIo.EncodePublisher` | src/codec/record_codec.cpp:457-468 | writing field by field appends the encoding of the publisher record to the writer, and is refused exactly when the whole does not fit its bound |
| `RecordIo.DecodePublisher` | src/codec/record_codec.cpp:470-500 | reading field by field, with every check in its place, returns what the specification decodes or the fault it reports, and leaves the reader behind the record |
| `RecordIo.EncodeWorkload` | src/codec/record_codec.cpp:502-514 | writing field by field appends the encoding of the workload record to the writer, and is refused exactly when the whole does not fit its bound |
| `RecordIo.DecodeWorkload` | src/codec/record_codec.cpp:516-555 | reading field by field, with every check in its place, returns what the specification decodes or the fault it reports, and leaves the reader behind the record |
| `RecordIo.EncodeContract` | src/codec/record_codec.cpp:557-585 | writing field by field appends the encoding of the contract to the writer, and is refused exactly when the whole does not fit its bound |
| `RecordIo.DecodeContract` | src/codec/record_codec.cpp:587-672 | reading field by field, with every check in its place, returns what the specification decodes or the fault it reports, and leaves the reader behind the record |
| `RecordIo.EncodeEvidence` | src/codec/record_codec.cpp:275-303 | writing field by field appends the encoding of the evidence record to the writer, and is refused exactly when the whole does not fit its bound |
| `RecordIo.DecodeEvidence` | src/codec/record_codec.cpp:305-398 | reading field by field, with every check in its place, returns what the specification decodes or the fault it reports, and leaves the reader behind the record |
| `RecordIo.EncodeClassification` | src/codec/record_codec.cpp:674-722 | writing field by field appends the encoding of the classification with its citations and contradictions to the writer, and is refused exactly when the whole does not fit its bound |
| `RecordIo.DecodeClassification` | src/codec/record_codec.cpp:724-862 | reading field by field, with every check in its place, returns what the specification decodes or the fault it reports, and leaves the reader behind the record |
| `RecordIo.EncodeRevocation` | src/codec/record_codec.cpp:864-876 | writing field by field appends the encoding of the revocation to the writer, and is refused exactly when the whole does not fit its bound |
| `RecordIo.DecodeRevocation` | src/codec/record_codec.cpp:878-916 | reading field by field, with every check in its place, returns what the specification decodes or the fault it reports, and leaves the reader behind the record |
| `RecordIo.EncodeSupersession` | src/codec/record_codec.cpp:918-928 | writing field by field appends the encoding of the supersession to the writer, and is refused exactly when the whole does not fit its bound |
| `RecordIo.DecodeSupersession` | src/codec/record_codec.cpp:930-960 | reading field by field, with every check in its place, returns what the specification decodes or the fault it reports, and leaves the reader behind the record |
| `RecordIo.EncodePolicy` | src/codec/record_codec.cpp:962-1021 | writing field by field appends the encoding of the policy with its limits, adapters and hints to the writer, and is refused exactly when the whole does not fit its bound |
| `RecordIo.DecodePolicy` | src/codec/record_codec.cpp:1023-1145 | reading field by field, with every check in its place, returns what the specification decodes or the fault it reports, and leaves the reader behind the record |
| `Wire.CollectionRoundTrip` | src/foundation/bytes.cpp:186-195 | a counted collection is read back, leaving what followed, exactly when it is within its bound and its elements are readable, and refused otherwise |
| `Wire.TextRoundTrip` | src/foundation/bytes.cpp:94-96 | a length-prefixed text is read back exactly when it is within the bound, and refused otherwise |
| `Wire.CodesRoundTrip` | src/codec/record_codec.cpp:99-172 | every enumeration code is read back as the value it stands for |
| `LittleEndian.LoadStored` | include/ai_flow_classifier/foundation/bytes.hpp:32-62 | loading a stored little-endian word gives its value back, at every width |
| `LittleEndian.StoreLoaded` | include/ai_flow_classifier/foundation/bytes.hpp:32-62 | storing a loaded word gives its bytes back |
| `BufferIo.Writer.Ensure` | src/foundation/bytes.cpp:25-33 | room is reported exactly when the bytes fit the bound |
| `BufferIo.Writer.PutRaw` | src/foundation/bytes.cpp:87-92 | appends the bytes, or refuses with nothing changed exactly when they do not fit |
| `BufferIo.Writer.PutWord` | src/foundation/bytes.cpp:35-69 | appends the word's encoding, or refuses with nothing changed exactly when it does not fit |
| `BufferIo.Writer.PutBlob` | src/foundation/bytes.cpp:75-85 | appends length and bytes, or refuses with nothing changed exactly when they do not fit together |
| `BufferIo.Writer.PutText` | src/foundation/bytes.cpp:94-96 | appends a text as a blob of its bytes, or refuses it exactly when it does not fit |
| `BufferIo.Reader.GetWord` | src/foundation/bytes.cpp:107-146 | reads the word and advances over it, or refuses a truncated one with the cursor where it was |
| `BufferIo.Reader.GetFlag` | src/foundation/bytes.cpp:115-122 | reads a flag and refuses a byte that is neither zero nor one |
| `BufferIo.Reader.GetBlob` | src/foundation/bytes.cpp:154-170 | reads a blob after checking its declared length against the bound and the bytes that remain |
| `BufferIo.Reader.GetText` | src/foundation/bytes.cpp:179-184 | reads a text within the reader's bound |
| `BufferIo.Reader.GetCount` | src/foundation/bytes.cpp:186-195 | reads a count and refuses one over the bound |
| `SnapshotBody.RecordsRoundTrip` | src/state/snapshot.cpp:41-65 | a collection of records passes the check of its count against the bytes that remain, and is read back exactly when it is within its bound and every record is readable |
| `SnapshotBody.BodyRoundTrip` | src/state/snapshot.cpp:69-126 | the policy and the eight collections are read back, leaving exactly what followed, if and only if every record fits; otherwise the body is refused and never read as anything else |
| `Snapshot.SnapshotRoundTrip` | src/state/snapshot.cpp:69-321 | whatever image was written, reading its file gives that image if it names the supported format and generation and every record fits, and an error if not |
| `Snapshot.TruncationIsRefused` | src/state/snapshot.cpp:154-229 | every proper prefix of an accepted image is refused |
| `Snapshot.AppendingIsRefused` | src/state/snapshot.cpp:222-229 | an accepted image with anything appended is refused |
| `Snapshot.AlteredHeaderIsRefused` | src/state/snapshot.cpp:193-206 | an accepted image with any one byte of its 88-byte header changed is refused |
| `Snapshot.SameHeaderSameBody` | src/state/snapshot.cpp:208-215 | two accepted images that share a header and differ hold a SHA-256 collision |
| `SnapshotFile.DecodeEvidenceRecords` | src/state/snapshot.cpp:41-65 | the loop that reads counted records after checking the count against the bytes that remain is the specified one, stopping at the first refusal; the other seven collections likewise |
| `SnapshotFile.EncodeEvidenceRecords` | src/state/snapshot.cpp:99-103 | the loop that writes counted records appends their encoding, or reports that it does not fit the bound; the other seven collections likewise |
| `SnapshotFile.WriteBody` | src/state/snapshot.cpp:69-126 | writing the body part by part appends its encoding, and is refused exactly when the whole does not fit the writer's bound |
| `SnapshotFile.ReadBody` | src/state/snapshot.cpp:239-318 | reading the body part by part gives the specified state or refusal |
| `SnapshotFile.CheckEnvelope` | src/state/snapshot.cpp:154-229 | the checks of sizes, versions and both seals in order give the specified fault |
| `SnapshotFile.ReadSnapshot` | src/state/snapshot.cpp:154-321 | reading an image gives the specified snapshot or refusal |
| `SnapshotFile.WriteSnapshot` | src/state/snapshot.cpp:69-152 | storing the header fields at their offsets, the digest and the checksum gives the specified bytes or refusal |
| `WireLayout.StoreIsNumeral` | include/ai_flow_classifier/foundation/bytes.hpp:47-61 | byte i of a stored word is its digit at 256 to the i |
| `WireLayout.ElementsInOrder` | src/codec/record_codec.cpp:557-585 | a collection is its count and its elements, first to last |
| `WireLayout.FlowKeyIsLaid` | src/codec/record_codec.cpp:187-195 | the fields of a flow key as written, in wire order and with their widths |
| `WireLayout.EvidenceIsLaid` | src/codec/record_codec.cpp:275-303 | the fields of a evidence record as written, in wire order and with their widths |
| `WireLayout.FlowIsLaid` | src/codec/record_codec.cpp:400-411 | the fields of a flow record as written, in wire order and with their widths |
| `WireLayout.PublisherIsLaid` | src/codec/record_codec.cpp:457-468 | the fields of a publisher record as written, in wire order and with their widths |
| `WireLayout.WorkloadIsLaid` | src/codec/record_codec.cpp:502-514 | the fields of a workload record as written, in wire order and with their widths |
| `WireLayout.ContractIsLaid` | src/codec/record_codec.cpp:557-585 | the fields of a contract as written, in wire order and with their widths |
| `WireLayout.CitationIsLaid` | src/codec/record_codec.cpp:674-722 | the fields of a citation as written, in wire order and with their widths |
| `WireLayout.ContradictionIsLaid` | src/codec/record_codec.cpp:674-722 | the fields of a contradiction as written, in wire order and with their widths |
| `WireLayout.ClassificationIsLaid` | src/codec/record_codec.cpp:674-722 | the fields of a classification as written, in wire order and with their widths |
| `WireLayout.RevocationIsLaid` | src/codec/record_codec.cpp:864-876 | the fields of a revocation as written, in wire order and with their widths |
| `WireLayout.SupersessionIsLaid` | src/codec/record_codec.cpp:918-928 | the fields of a supersession as written, in wire order and with their widths |
| `WireLayout.PolicyIsLaid` | src/codec/record_codec.cpp:962-1021 | the fields of a policy as written, in wire order and with their widths |
| `WireLayout.AdapterIsLaid` | src/codec/record_codec.cpp:962-1021 | the fields of a heuristic adapter as written, in wire order and with their widths |
| `WireLayout.HintIsLaid` | src/codec/record_codec.cpp:962-1021 | the fields of a port hint as written, in wire order and with their widths |
| `WireLayout.LimitsAreLaid` | src/codec/record_codec.cpp:962-1021 | the limits are twenty-six words in this order |
| `WireLayout.DefinitionIsLaid` | src/domain/workload.cpp:70-101 | the fields a contract digest is computed over, in order |
| `WireLayout.ContentIsLaid` | src/domain/evidence.cpp:133-165 | the fields a record digest is computed over, in order |
| `WireLayout.BodyIsLaid` | src/state/snapshot.cpp:69-152 | the parts of a durable image, in order |
| `WireLayout.SnapshotIsLaid` | src/state/snapshot.cpp:69-152 | every field of the image header at its offset, the digest of the body and the checksum over the header with the checksum zeroed |
| `WireLayout.EvidenceCodes` | include/ai_flow_classifier/domain/evidence.hpp:35-116 | the codes of sources and evidence states |
| `WireLayout.DecisionCodes` | include/ai_flow_classifier/domain/classification.hpp:31-80 | the codes of classification states and of the parts records play |
| `WireLayout.ClassCodes` | include/ai_flow_classifier/domain/semantic_class.hpp:27-45 | the codes of the classes |
| `WireLayout.TransportCodes` | include/ai_flow_classifier/domain/flow_key.hpp:56-62 | the codes of the transports |
| `WireLayout.StageCodes` | include/ai_flow_classifier/domain/workload.hpp:29-56 | the codes of the stages of workloads and contracts |
| `Service.StepKeepsInvariant` | src/runtime/coordinator_service.cpp:34-293 | every enabled step of the acceptor, a worker, the starter creating its threads one by one, or the stopper keeps the invariant |
| `Service.EarlyStopIsLost` | src/runtime/coordinator_service.cpp:34-96 | a stop that arrives before a start has published changes nothing, and the start goes on to serve |
| `Service.RunsAreSafe` | src/runtime/coordinator_service.cpp:98-293 | over all interleavings queued connections are active, both bounds hold, no connection was handed out twice, and accepted = served + active + dropped by a stop |
| `Service.NothingServedTwice` | src/runtime/coordinator_service.cpp:147-166 | no two takes of a run hand out the same connection |
| `Service.StoppingNeverQueues` | src/runtime/coordinator_service.cpp:107-123 | while the stop flag is set no step adds to the queue |
| `Service.QueueOnlyShrinks` | src/runtime/coordinator_service.cpp:252-293 | from the moment the stop flag is set until the next start the queue only loses entries from its front |
| `Service.QuietNeverQueues` | src/runtime/coordinator_service.cpp:252-293 | between a stop and the next start nothing is queued |
| `Address.RenderInjective` | src/domain/flow.cpp:79-127 | different addresses have different texts, over all 16-byte addresses, IPv4-mapped ones included |
| `Address.CompressedIsLeftmostLongest` | src/domain/flow.cpp:96-115 | the run that is compressed is the leftmost longest run of at least two zero groups, as in section 4.2 of RFC 5952, and no other run is |
| `Address.DoubleColonAtMostOnce` | src/domain/flow.cpp:116-126 | a double colon appears at most once in a text |
| `Address.HexText` | src/domain/flow.cpp:33-44 | the digit loop writes the group in lower-case hexadecimal without leading zeros |
| `Address.LongestZeroRun` | src/domain/flow.cpp:96-115 | the scan finds the run that is compressed |
| `Address.GroupsText` | src/domain/flow.cpp:116-126 | the writing loop gives the specified text |
| `Address.ToText` | src/domain/flow.cpp:79-127 | the rendering loop gives the specified text |

## Left out

- Sockets, channels, files, threads, condition variables, timeouts, logging, counters and statistics, JSON and the command line are not modelled.
- Coordinator message handlers and the request and response payloads of `src/protocol/messages.cpp` repeat the codec pattern and are not modelled.
- `classify_batch`, `explain`, `stats`, the finders that only copy out, and `retire_flow`, which the classifier never calls, are not modelled.
- BufferIo.Reader.GetWord: the reader holds the bytes that remain instead of an address and an offset into them.
- Service: each critical section is one step, and creating a thread is one; a stop that reads the list of threads while a start is still adding to it is undefined in the program and not a step, and how promptly a stop returns is not modelled.
- Policy: extension class codes outside the built-in ones decode to UNKNOWN and are not otherwise modelled.
- The authority sequence is unbounded, where the program increments a 64-bit number; the sequence counter that refuses at its last value is modelled.
- A restart starts from the image of the last state before it; what a crash loses after the last image was written is not modelled.
- A refused submission may leave a flow fenced and older records superseded; that is part of the step function and of the invariant, and no statement says that a refusal changes nothing.
- Revocations are remembered within the ring's bound and between policy changes only, as `RevocationOutlivesRestarts` and `RevocationLasts` state.
- Which runs write images within the reader's bounds is not characterised by their inputs; each image is judged by `BodyFits`, which `SnapshotRoundTrip` shows to be exact.
- Collision resistance of SHA-256 is assumed where it is named and is not a subject of the model.
- Sequence order of eviction after a restore, and which of several decisions of one generation is the latest after a restore, are not fixed by the program and not stated.
- Error codes of refused submissions, bindings, declarations, proposals and activations are those of the step functions; the statements about them say when there is a refusal and that nothing changes.
