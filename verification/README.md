# A verified model of ProjectOS's control plane

ProjectOS runs a plan of WorkItems, persists every step and recovers after crashes, retries and
provider stalls. This project models that logic in Dafny and proves what it guarantees. Code that
changes state is written as classes and loops, each proved to compute a function or a relation on
values; the theorems are about those.

| file | models | main results |
|---|---|---|
| `Graphs.dfy` | reachability in finite graphs | a set with no way out holds a cycle; `Dependents` is a least, `Kept` a greatest closed set |
| `WorkItems.dfy` | WorkItem, references, statuses | |
| `DeliveryRegistry.dfy` | contract table, claimed staged outputs | accepted iff every contract is met and no output is claimed twice |
| `PlanAdmission.dfy` | `ExecutionPlan` validation | accepted iff admissible; the worklist finds exactly the transitive producers |
| `PlanRuns.dfy` | runs of an admitted plan | acyclic iff never stuck; exactly when all ancestors of a starting item have completed |
| `Invalidation.dfy` | pruning loop, both invalidation loops | order-independent: greatest closed subset, exact dependents |
| `Resume.dfy`, `ResumeTheorems.dfy` | retry recovery, evidence check, resume pipeline | sound and exact: which results survive, for every input |
| `ResumeInputs.dfy` | the same pipeline, said of records, log, evidence and items | each record obeyed, exact contexts, exact log outcomes |
| `ResumeTwice.dfy` | the second load of what the first one saved | exactly when it gives the same results |
| `RepairReload.dfy` | a load right after a scheduled code-wave repair | exactly which reruns survive it |
| `Checkpoints.dfy`, `RunCheckpoints.dfy` | code-wave repair, checkpoint format, checkpoints of a run | exactly which states can be read back |
| `CycleCheck.dfy` | circular-dependency rule | sound, complete, terminating, with shared `visited` |
| `DeliveryContract.dfy` | `DeliveryContract.validate_plan` | `depends_on` is transitive dependency, with shared `seen` |
| `Repository.dfy`, `RepositoryHistory.dfy`, `RepositoryEvidence.dfy` | staged output, receipt, candidate, promotion, with crash points | invariants and round trips over every history |
| `StreamHandoff.dfy`, `SseReader.dfy` | the two thread protocols of the SSE client | no lost, doubled or reordered item in any interleaving |
| `ProgressStore.dfy`, `Watchdog.dfy` | monitoring snapshot and coordinator loop | exact stall windows, exact deadline and what moves it |
| `SchemaEvolution.dfy` | schema diff and upgrade check | when "no breaking change" means that old data stays valid |

Places where the code does not keep what its text promises are stated as exact conditions, each
with an input that shows the failure:

- Work is promised to start only after its dependencies. The runner, however, records the environment
  item as completed as soon as the environment is prepared, whatever that item waits for
  (app/orchestration/runner.py:684-706). `AncestorsCompleteBeforeStart` and
  `IntegrationStartsAfterProducers` give the exact condition, and `CodeStartsBeforeTasks` is a run of an
  admitted plan in which code can start before the tasks have completed.
- A transport-only signal is documented not to renew the Worker deadline (app/application/runs.py:140-145).
  It does when the snapshot can no longer be read, because `_current` then starts from a snapshot
  stamped with the present (app/orchestration/progress.py:272-300). `TransportRenewsDeadlineIff` shows,
  over every history of operations, looks and losses of the snapshot, that this is the only case.
  `TransportKeepsSilentWorkerInTime` is a run in which it happens. `NoiseNeverMovesDeadline` removes
  all heartbeats, and all transport activity that finds a snapshot, at once; transport signals of
  planning stay, because they change the lifecycle that `ensure_run` reads.
- `_sanitize_resume_state` records a diagnostic for an item whose code gate failed without marking
  the item for a forced rerun, while `RunState.from_checkpoint` rejects diagnostics that are not those
  of the marked items. `ResumedCheckpointReadableIff` states, on the loaded state, the records, the
  evidence and the diagnosis, exactly when the next checkpoint can be read;
  `FailedGateMakesUnreadable` is a trace for which it cannot, and `RunCheckpointReadableIff` says when
  the checkpoints of the run that follows can be read again.
- A resume saves its state and the Worker loads again from what was saved. The second load can bring
  back a result that a retry record had just taken away, because the record then counts as consumed
  and the state rebuilt from the log is richer (`SecondLoadCanUndoTheFirst`).
  `SecondLoadAgreesIff` says exactly when both loads agree.
- A code-wave repair writes only the delivery checkpoint. If the Worker dies before it records another
  result, the next load can bring the old results back without the marks (`LoadCanUndoTheRepair`).
  `RerunSurvivesLoadIff` says exactly which reruns survive.
- Artifact texts are digested as given, but read back in text mode, which turns `\r` and `\r\n` into
  `\n`. A staged text or a candidate with a carriage return can therefore never be loaded
  (`StagedThenRead`, `DescribedCandidatesLoad`), and one such candidate blocks the lookup of its artifact for
  good (`LookupStaysBlocked`, `CarriageReturnBlocks`).
- An upgrade can be called safe although a field gains a length bound. `SafeUpgradeKeepsDataIff` gives
  the exact condition under which old data stays valid (`SafeUpgradeCanLoseData` is a failing case), and
  `SafeUpgradesComposeIff` the exact condition under which two safe upgrades compare as one
  (`SafetyAloneDoesNotCompose` is a failing case).
- A normal end of the SSE iterator does not mean that the stream was exhausted: an iteration broken
  off by something that is not an `Exception` still publishes the end message. `AbortLooksLikeTheEnd`
  shows, for every source, that a normal return is proof of exhaustion if and only if the source does not abort.

Modelling conventions. SHA-256 is an injective constructor. Times and idle durations are integers
on one clock. Dictionaries and sets whose iteration order is irrelevant are iterated in arbitrary
order. Revision `rev-NNN` is its number. Files are written as on POSIX systems, without newline
translation, and read with universal newlines. A crash is a prefix of the file writes of an
operation. A wait with a timeout may time out at any step.

## Model

| member | source | states |
|---|---|---|
| Graphs.StuckSetHasCycle | app/orchestration/plan.py:138-148 | when no remaining item is ready, some item reaches itself: the reason a stuck layer is reported as a cycle |
| Graphs.KeptIsGreatestClosed | app/application/runs.py:522-530 | the items all of whose transitive dependencies are in a set form its greatest dependency-closed subset |
| Graphs.DependentsIsLeast | app/application/runs.py:610-617 | the transitive dependents of seeds are the least set that holds the seeds and every item depending on a member |
| Graphs.RemovingDependentsKeepsClosed | app/application/runs.py:618-622 | removing the dependents of any seeds from a dependency-closed set leaves it closed |
| DeliveryRegistry.BareSlotsNeverPass | app/orchestration/delivery_registry.py:50-82 | of the slots that select a partition contract, exactly the bare names `module` and `implementation` are then rejected by that contract's own slot pattern |
| DeliveryRegistry.PartitionContractIff | app/orchestration/delivery_registry.py:48-82 | which partitions have a contract, by agent and slot |
| DeliveryRegistry.IntegrationContractIff | app/orchestration/delivery_registry.py:84-108 | which integrations have a contract, by stage, name and target |
| DeliveryRegistry.ClaimOutputs | app/orchestration/delivery_registry.py:189-207 | an item's claims are reported exactly where another item holds the output, and the table afterwards keeps old owners and adds this item's free outputs |
| DeliveryRegistry.ValidatePlan | app/orchestration/delivery_registry.py:181-208 | no errors if and only if every item meets its contract and no staged output is claimed by two items |
| DeliveryRegistry.ContractsRespectedIff | app/orchestration/delivery_registry.py:189-207 | a plan respects the registry exactly when no item is in error and no two differently named partitions of one artifact and stage deliver one file or slot |
| DeliveryRegistry.ToolErrorIff | app/orchestration/delivery_registry.py:47-105 | an item with a contract is in error exactly if it does not list the input tool and the tool of its role |
| PlanAdmission.EnsureAcyclic | app/orchestration/plan.py:132-152 | terminates and accepts exactly the dependency relations without a cycle whose dependencies are all items |
| PlanAdmission.StuckMeansCyclic | app/orchestration/plan.py:144-148 | with no ready item left, the relation has a cycle or an unknown dependency |
| PlanAdmission.Ancestors | app/orchestration/plan.py:76-84 | the worklist terminates, on cyclic plans too, and returns exactly the transitive dependencies |
| PlanAdmission.CheckInput | app/orchestration/plan.py:110-122 | no error if and only if the input's producer is in the plan, awaited transitively, delivers that output, and shares the protocol |
| PlanAdmission.CheckItemEdges | app/orchestration/plan.py:93-122 | no error if and only if a gate's producer is an integration with its target and every staged input of this trace is produced |
| PlanAdmission.EdgesRespectedIff | app/orchestration/plan.py:86-122 | what the edge checks ask for, said of the items' fields |
| PlanAdmission.CheckDependencies | app/orchestration/plan.py:54-67 | no error if and only if all dependencies are items and every gate depends on its candidate's item |
| PlanAdmission.ValidatePlan | app/orchestration/plan.py:29-70 | a plan is accepted if and only if it is admissible; duplicate ids, contract errors and cycles are reported exactly when no earlier check fails |
| PlanAdmission.HeaderValidIff | app/orchestration/plan.py:30-42 | an admitted plan is named, has a goal, a process and items, and one of the three scopes |
| PlanRuns.AcyclicIffNeverStuck | app/orchestration/plan.py:132-152 | for known dependencies, acyclic is the same as: every proper dependency-closed set of completed items leaves one that can start |
| PlanRuns.ReadyUnlessFinished | app/orchestration/state.py:194-205 | in an admitted plan, while all results are successes and some item has none, an item is ready |
| PlanRuns.StepKeepsConsistent | app/application/runs.py:2116-2137 | recording a ready item, recording the prepared environment item, invalidating dependents and loading each keep completion dependency-closed except at the environment item |
| PlanRuns.RunKeepsConsistent | app/orchestration/state.py:194-213 | completion is dependency-closed, except at the environment item, in every state of every run |
| PlanRuns.AncestorsCompleteBeforeStart | app/orchestration/state.py:194-205 | whatever is ready in a state of a run has all its ancestors completed if and only if it does not wait for the environment item or that item's ancestors are completed |
| PlanRuns.MissingOnlyThroughEnvironment | app/orchestration/runner.py:684-706 | what a ready item waits for and has not completed, it waits for through the environment item |
| PlanRuns.CodeStartsBeforeTasks | app/orchestration/runner.py:684-706 | a run of an admitted plan in which an item can start although one it waits for has not completed |
| PlanRuns.BatchStaysReady | app/orchestration/runner.py:792-824 | recording one item of a batch leaves the other items of the batch ready |
| PlanRuns.IntegrationStartsAfterProducers | app/orchestration/plan.py:103-118 | in every run, whenever a contracted integration can start, every same-trace staged input has a completed producer that delivers exactly it, if and only if that is so of the producers awaited through the environment item |
| PlanRuns.GateStartsAfterIntegration | app/orchestration/plan.py:94-98 | in every run, a gate can start only after its integration producer with the same publish target completed |
| Invalidation.PruneOnce | app/application/runs.py:784-787 | one pass removes only items that cannot be kept, and leaves the set unchanged only when every member has its dependencies |
| Invalidation.PruneToClosed | app/application/runs.py:781-787 | the `while changed` loop terminates with the greatest dependency-closed subset, whatever the item order |
| Invalidation.BuildChildTable | app/application/runs.py:582-585 | the table maps every id to exactly its direct dependents |
| Invalidation.MarkByWorklist | app/application/runs.py:610-617 | the worklist terminates with a set that holds the frontier, is closed under dependents, and stays within any such set |
| Invalidation.InvalidateByWorklist | app/application/runs.py:1312-1323 | the worklist computes exactly the seeds and their transitive dependents |
| Invalidation.InvalidateInRounds | app/application/runs.py:2123-2132 | the round-based loop computes the same set as the worklists |
| Resume.RunState.Drop | app/application/runs.py:618-622 | pops exactly the results of the given items and the artifact texts under their output keys |
| ResumeInputs.DroppingLeaves | app/application/runs.py:618-622 | popped items have no result and no text under their keys; every other result and text stays |
| Resume.RunState.Record | app/orchestration/state.py:207-222 | refuses a foreign or second result; only a completed one discharges the item's mark, diagnostic and retry context |
| Resume.RebuildDeliveryState | app/application/runs.py:499-556 | the rebuilt state holds exactly the greatest closed part of the items whose last terminal event is a completion |
| ResumeInputs.RebuiltTexts | app/application/runs.py:531-553 | a rebuilt result is of its item and carries the published text of its output key |
| ResumeInputs.RebuiltIff | app/application/runs.py:499-530 | the rebuilt state has a result exactly of the items that, with all they depend on, last completed according to the log |
| Resume.ApplyMonitorRetryRecovery | app/application/runs.py:559-644 | applies exactly the records the log did not list as applied at entry, in order, and logs each once |
| Resume.RecordsDropStale | app/application/runs.py:587-631 | a batch of records removes exactly the results that depend on an item some record blames, and touches no mark or diagnostic |
| Resume.RetryRecoveryIsIdempotent | app/application/runs.py:577-589 | with no new ledger record, a second application changes neither state nor log |
| ResumeInputs.RecordsAreObeyed | app/application/runs.py:587-619 | after a resume no result is, or depends on, an item that a record unconsumed at entry names as root or interrupted |
| ResumeInputs.ContextIsLastDueRecord | app/application/runs.py:623-631 | an item's retry context is the last due record that names it; other items keep what they were loaded with |
| Resume.SanitizeResumeState | app/application/runs.py:727-799 | keeps exactly the greatest closed part of the results whose own evidence holds, and rebuilds the texts from them |
| ResumeInputs.GateErrorIsDiagnostic | app/application/runs.py:768-779 | an item whose code gate failed gets the gate's error as its diagnostic, and nobody else's changes |
| ResumeInputs.TextIsOfLastResult | app/application/runs.py:788-797 | the text of a kept result stands under its output key unless a later item with that key has one |
| ResumeInputs.ResumedResultsHaveEvidence | app/application/runs.py:738-780 | every resumed result is of an item whose own evidence holds, by its agent, mode and target |
| Resume.PrepareArchitectureContractRecovery | app/application/runs.py:1300-1348 | invalidates the closure of at most one owner, marks it, and logs one event, only if it is the single owner, unmarked and completed |
| Resume.ArchitectureRecoveryIsIdempotent | app/application/runs.py:1303-1310 | with the same diagnosis or none, a second preparation changes nothing |
| ResumeInputs.ReschedulesIff | app/application/runs.py:1300-1310 | a rerun is scheduled exactly for an item that the diagnosis matches alone, that has completed and is not marked |
| Resume.ChosenIsRichest | app/application/runs.py:699-708 | no candidate state has more results than the chosen one, and the rebuilt state wins ties |
| ResumeInputs.TieOfCheckpoints | app/application/runs.py:676-708 | of two checkpoints with equally many results, more than the log gives, the live one is loaded, or the delivery one for a repair plan |
| ResumeInputs.RepairBranchIff | app/application/runs.py:652-665 | the repair branch is taken exactly for a pending plan whose id contains `-repair-` |
| Resume.MergeForcedReruns | app/application/runs.py:709-717 | takes over a checkpoint's marks and non-empty diagnostics exactly for items without a result, also when the checkpoint is the object merged into |
| Resume.MergeCheckpoints | app/application/runs.py:708-717 | merges all checkpoints in order into the chosen state, which may be one of them and then adds nothing on its own turn |
| ResumeInputs.MergingTakesOver | app/application/runs.py:709-717 | exactly which marks and diagnostics a merge takes over from a checkpoint |
| Resume.LoadDeliveryResume | app/application/runs.py:647-724 | composes loading, retry recovery, evidence check and architecture rerun as the branch demands, and appends exactly their log entries |
| ResumeTheorems.CheckedKeepsTrusted | app/application/runs.py:734-787 | after the check, exactly those trusted results remain whose transitive dependencies are all trusted |
| ResumeTheorems.ResumeIsSound | app/application/runs.py:647-724 | on both branches the results are dependency-closed, pass their evidence check, are the loaded ones, and depend on nothing an unconsumed record blames |
| ResumeTheorems.ResumeKeepsWhatItCan | app/application/runs.py:647-724 | exactly which results survive: nothing that could be kept is replayed |
| ResumeTheorems.ResumedIffSurvives | app/application/runs.py:647-724 | which results survive, as a condition on the loaded state, the records, the evidence and the diagnosis alone |
| ResumeTheorems.PreparedForOwner | app/application/runs.py:1312-1331 | the scheduled owner's dependents lose their results and only the owner is marked |
| ResumeTheorems.MarksAfterResume | app/application/runs.py:766-779 | marked items have no result; diagnostics are those of the marked items if and only if no code gate failed |
| ResumeTwice.ReadCheckpointIsSaved | app/application/runs.py:1668-1677 | every readable checkpoint of the first load's state reads back with its results |
| ResumeTwice.SecondLoadAgreesIff | app/application/runs.py:647-724 | the second load gives the first one's results if and only if the durable view holds them all, and each further result in it rests on an item that is missing, without evidence, or scheduled to run again |
| ResumeTwice.SavedStateWins | app/application/runs.py:699-708 | a readable saved state decides in a repair, and in a delivery when it is richer than the rebuilt state and the delivery checkpoint; an unreadable one loses everything in a repair |
| ResumeTwice.SecondLoadCanUndoTheFirst | app/application/runs.py:699-724 | a trace whose blamed result the first load drops and the second brings back |
| RepairReload.RerunSurvivesLoadIff | app/application/runs.py:699-717 | a scheduled code rerun survives the next load if and only if neither the log nor else the checkpoint from before the repair has a result of it |
| RepairReload.LoadCanUndoTheRepair | app/application/runs.py:2148-2150 | a repaired trace whose next load brings the code item's result back and forgets its mark |
| Checkpoints.ScheduleCodeReruns | app/application/runs.py:2110-2161 | drops exactly the dependents of the attributed code items, marks those items with their diagnostics, logs once; does nothing without one |
| Checkpoints.RerunIdsIff | app/application/runs.py:2110-2115 | what a code-wave repair runs again is the related code items of the plan |
| Checkpoints.CodeWaveRepairKeepsClosed | app/application/runs.py:2118-2137 | the code-wave repair keeps closed sets of results and of completed results closed, also with the failed integration's result still there |
| Checkpoints.CodeWaveRepairKeepsIndependent | app/application/runs.py:2121-2132 | exactly the results that depend on no rerun item are kept, unchanged |
| Checkpoints.CodeWaveRepairKeepsMarks | app/application/runs.py:2138-2147 | whatever had failed, no marked item is completed, diagnostics are those of the marked items, and no rerun item keeps a result |
| Checkpoints.AsCheckpoint | app/orchestration/state.py:26-68 | the checkpoint lists every result once without its content, one reference with contract digest per output key, marks and diagnostics |
| Checkpoints.FromCheckpoint | app/orchestration/state.py:70-192 | succeeds if and only if every check holds, contract digests and inline texts of old formats included, and returns the completed results with marks and texts |
| Checkpoints.ReadableIff | app/orchestration/state.py:70-192 | exactly which checkpoints can be read, said of the plan's items: rows, references with contract digests, texts, marks |
| Checkpoints.ReadStatesAreWellFormed | app/orchestration/state.py:83-180 | a state that was read back satisfies all that the resume pipeline relies on |
| Checkpoints.RefsCoverCompleted | app/orchestration/state.py:33-41 | the references name all completed items if and only if no two of them share an output key |
| Checkpoints.CheckpointReadableIff | app/orchestration/state.py:126-170 | exactly which states can be read back from their own checkpoint |
| Checkpoints.RoundTrip | app/orchestration/state.py:46-98 | what is read back is the completed part of the state with its marks and without the texts |
| Checkpoints.ResumedCheckpointReadableIff | app/application/runs.py:777-779 | the checkpoint of a resumed state is readable if and only if no code gate fails for a loaded result that the records leave alone, and no two survivors share an output key |
| Checkpoints.FailedGateMakesUnreadable | app/application/runs.py:768-779 | a trace whose resume writes a checkpoint that cannot be read |
| RunCheckpoints.RecordKeepsMarks | app/orchestration/state.py:213-222 | recording a result, completed or failed, keeps marks and diagnostics in step |
| RunCheckpoints.RunCheckpointReadableIff | app/orchestration/state.py:126-170 | at every moment of every run the checkpoint is readable if and only if outputs are distinct, no diagnostic is blank, and every item with an unmarked diagnostic at the start has since completed or been scheduled for repair |
| RunCheckpoints.ResumedStateStartsRun | app/application/runs.py:1442-1478 | the state a resume returns starts such a run, and its unmarked diagnostics are those of the failed gates |
| CycleCheck.GraphHasLastDesigns | app/orchestration/architecture_consistency_validator.py:308-320 | a module's edges are the providers of its last design's interfaces |
| CycleCheck.ProviderIff | app/orchestration/architecture_consistency_validator.py:315-318 | the provider of an interface is the one name without a dot that the interface is, or starts with before a dot |
| CycleCheck.BuildGraph | app/orchestration/architecture_consistency_validator.py:308-320 | the loops build exactly that graph |
| CycleCheck.CycleSearch.FindCycle | app/orchestration/architecture_consistency_validator.py:323-340 | a reported list is a real cycle; without one, the node is finished and on no cycle, though `visited` is shared and `path` copied |
| CycleCheck.CheckCircularDependencies | app/orchestration/architecture_consistency_validator.py:304-359 | a violation if and only if modules consume from each other in a circle, each from an interface that the next one names, alone or followed by a dot; at most one, carrying such a circle from a module that has a design |
| DeliveryContract.DependencySearch.DependsOn | app/orchestration/delivery_contract.py:95-103 | true means a path; false means every node seen in the call has no edge to the owner and none to an unseen node |
| DeliveryContract.DependsOn | app/orchestration/delivery_contract.py:95-112 | terminates on any graph and is true if and only if a path of one or more edges leads to the owner |
| DeliveryContract.ValidatePlan | app/orchestration/delivery_contract.py:57-115 | returns normally if and only if all owners and consumers resolve and, where enforced, each consumer depends on its owner |
| DeliveryContract.ContractHoldsIff | app/orchestration/delivery_contract.py:75-112 | a contract holds if and only if every owner and consumer stands for an item and, where enforced, each consumer's item reaches the owner's |
| DeliveryContract.ProjectDeliveryNeedsCanonicalItems | app/orchestration/delivery_contract.py:43-74 | without bindings the project contract asks for exactly the five canonical items |
| Repository.ArtifactRepository.VerifyInputVersions | app/artifact/repository.py:190-199 | passes if and only if every expected digest is that of the input's present content |
| Repository.ArtifactRepository.Stage | app/artifact/repository.py:275-326 | writes the content and then the manifest, exactly when ids, content and input versions allow it |
| RepositoryEvidence.StagingAllowedIff | app/artifact/repository.py:287-310 | exactly when an output may be staged: known artifact, restricted ids, a text that is not blank, inputs as expected or readable |
| Repository.ArtifactRepository.Verify | app/artifact/repository.py:367-420 | writes a receipt exactly when place, content, validator, provenance and contract check out |
| Repository.ArtifactRepository.Create | app/artifact/repository.py:445-522 | writes directory, content and description with all issues and source digests |
| RepositoryEvidence.CreationAllowedIff | app/artifact/repository.py:457-517 | exactly when a candidate may be created |
| Repository.ArtifactRepository.PromoteCandidate | app/artifact/repository.py:590-624 | result and file writes of a promotion, including the retry past `current.json` |
| Repository.ArtifactRepository.VerifyPublished | app/artifact/repository.py:626-639 | returns the current revision exactly when sources, report, pointer, revision and projection all agree |
| Repository.ArtifactRepository.CandidateForWorkItem | app/artifact/repository.py:524-557 | succeeds if and only if every described candidate loads and exactly one matches with current sources, which it returns |
| Repository.ReadBackKeepsPlain | app/artifact/repository.py:339-341 | a text survives writing and reading if and only if it has no carriage return |
| Repository.ReadBackStep | app/artifact/repository.py:339-341 | reading turns a carriage return, alone or before a line feed, into one line feed and keeps everything else |
| RepositoryHistory.RunKeepsInvariant | app/artifact/repository.py:590-624 | at every crash point of every history revisions are numbered without a gap and read as written, `current.json` names an existing revision with its digest, and clean candidates have staged sources of their own artifact |
| RepositoryHistory.CreatedSourcesHold | app/artifact/repository.py:463-515 | a candidate created without issues has at least one source, all staged and of its artifact, with the digests of their contents |
| RepositoryHistory.HistoryPreservesRevisions | app/artifact/repository.py:609-612 | no later step removes, reuses or changes a revision |
| RepositoryHistory.PinnedRevisionNeverChanges | app/artifact/repository.py:648-654 | a pinned revision reference reads the same content for the rest of every history |
| RepositoryHistory.FinishedPromotionIsEvident | app/artifact/repository.py:626-639 | after a finished promotion the publication evidence succeeds and names the returned revision |
| RepositoryHistory.RetriedPromotion | app/artifact/repository.py:597-612 | a retry as the next operation: past `current.json` it returns the same revision and writes only the projection; before it, the number is one no revision has had |
| RepositoryHistory.PromotingAgain | app/artifact/repository.py:597-608 | at any time after `current.json` named a candidate, promoting it again returns the current revision and writes only the projection, if and only if its sources are current; the digest check never fails |
| RepositoryEvidence.EvidenceIff | app/artifact/repository.py:626-639 | evidence names a revision if and only if `current.json` names this candidate with it, the revision and the projection read the candidate's content, its issues are empty and its sources current |
| RepositoryEvidence.EvidenceNeedsPromotion | app/artifact/repository.py:626-639 | a candidate that no step of the history promoted never has evidence of publication |
| RepositoryEvidence.PromotionSucceedsIff | app/artifact/repository.py:590-612 | a promotion succeeds if and only if the candidate is described, readable, free of issues and current, and returns the current revision or the next number |
| RepositoryEvidence.VerificationAcceptsIff | app/artifact/repository.py:367-410 | a verification accepts if and only if place, content and validator hold and the staging in force declared the expected inputs and contract, all of which read what they read then |
| RepositoryEvidence.FoundCandidateIsOwn | app/artifact/repository.py:538-557 | a candidate the lookup finds was created by an earlier step for that WorkItem, from the expected sources and contract, and its sources are current |
| RepositoryEvidence.MatchesIff | app/artifact/repository.py:538-552 | which described candidates the lookup for a WorkItem considers |
| RepositoryHistory.DescribedCandidatesLoad | app/artifact/repository.py:500-567 | in every history a described candidate was created by some step, and loads with that content if and only if it has no carriage return |
| RepositoryHistory.CreatedThenLoaded | app/artifact/repository.py:515-567 | a finished creation loads as created, or not at all if the content has a carriage return |
| RepositoryHistory.LookupStaysBlocked | app/artifact/repository.py:532-536 | one described candidate with a carriage return makes every later lookup of its artifact fail |
| RepositoryHistory.CarriageReturnBlocks | app/artifact/repository.py:517-519 | an input for which a described candidate cannot be loaded |
| RepositoryHistory.PromotionSourcesUnchanged | app/artifact/repository.py:582-596 | a promotion succeeds only for a candidate made by an earlier step from staged sources of its artifact, each of which still reads what it read then |
| RepositoryHistory.StagedReadFailsClosed | app/artifact/repository.py:328-342 | a staged read succeeds if and only if the slot's text reads back as the text of the staging that wrote the manifest in force |
| RepositoryHistory.StagedThenRead | app/artifact/repository.py:295-342 | a finished staging reads back as its text, or not at all if it has a carriage return |
| RepositoryHistory.ReceiptLoadsIffVerified | app/artifact/repository.py:422-443 | a receipt loads if and only if the content is readable and is what verification last accepted |
| StreamHandoff.StreamEndsInOnePlace | app/llm/responses.py:414-466 | in every interleaving the stream is in exactly one place; at the end it was returned or closed, once, and the queue holds none |
| StreamHandoff.CreatedInTimeReachesCaller | app/llm/responses.py:433-466 | from every state of every run in which the caller waits and something was created, the caller can get it: a stream is returned unclosed, an error raised |
| StreamHandoff.EveryOutcomeIsPossible | app/llm/responses.py:433-466 | each of the three outcomes is reached by some run, with both sides finished |
| StreamHandoff.SomeStepPossible | app/llm/responses.py:433-459 | the lock protocol never deadlocks |
| StreamHandoff.RunsFinish | app/llm/responses.py:427-466 | every run is finite and can only stop with both sides finished |
| SseReader.StepKeepsInvariant | app/llm/responses.py:479-566 | every step of either thread keeps the messages lined up and the buffering bounded |
| SseReader.YieldedInOrder | app/llm/responses.py:479-566 | yielded events are an in-order prefix; a normal return and a re-raised error come only after every event; at most three events are ahead |
| SseReader.ReaderEndsAfterStop | app/llm/responses.py:479-504 | once the consumer has stopped, every reader step brings it nearer to its end, at most five steps away |
| SseReader.ExchangeMovesOn | app/llm/responses.py:513-553 | no reachable state blocks: until the consumer stops, some step that gives nothing up makes progress |
| SseReader.RunsCanFinish | app/llm/responses.py:479-566 | from every state of every run both sides can come to their end without a timeout and without the caller closing |
| SseReader.ConsumerEndsAlone | app/llm/responses.py:513-545 | even if the reader blocks for ever, a waiting consumer can end in a timeout and a suspended one can be closed |
| SseReader.AbortLooksLikeTheEnd | app/llm/responses.py:490-499 | for every source some run returns normally if and only if the stream raises no `Exception`, and a normal return proves exhaustion if and only if the iteration is not broken off |
| SseReader.StreamErrorIsRaisedIff | app/llm/responses.py:495-497 | a stream error can be raised again if and only if the stream raises one |
| ProgressStore.WorkerProgressStore.RecordWorkItemActivity | app/orchestration/progress.py:479-543 | the new snapshot: which clocks of the item and of the run move for which signal |
| ProgressStore.WorkerProgressStore.Finalize | app/orchestration/progress.py:545-614 | every open item is closed, the run becomes terminal, and its progress clock stays |
| ProgressStore.FinalizingClosesOpenItems | app/orchestration/progress.py:566-600 | the end of a run closes just the items that were open, with their response if that was open too |
| ProgressStore.ClockMovesOnlyOnRenewal | app/orchestration/progress.py:299-374 | an operation stamps the run's clock with the present or leaves it alone |
| ProgressStore.MeaningfulSignalsRenew | app/orchestration/progress.py:536-538 | semantic and control signals always renew the run's clock |
| ProgressStore.RunOperationsRenewIff | app/orchestration/progress.py:299-374 | which of the run's own operations renew its clock |
| ProgressStore.ItemClocksAreExact | app/orchestration/progress.py:500-538 | over every sequence of operations an item's two clocks are the times of its last transport and its last semantic or control signal in this run |
| ProgressStore.TransportRenewsOnlyWithoutSnapshot | app/orchestration/progress.py:523-538 | heartbeats never renew the store's clock, and a transport signal does if and only if there is no readable snapshot |
| Watchdog.StallObservations | app/application/runs.py:407-483 | the observations are exactly those of the active, monitorable, idle WorkItems |
| Watchdog.StreamingIsObservedIff | app/application/runs.py:426-470 | an item with an open response stream is judged by its transport clock |
| Watchdog.OperationIsObservedIff | app/application/runs.py:426-482 | an item without an open response stream is judged by its semantic clock, and only inside a tool call or a file write |
| Watchdog.SilentStreamIsSeen | app/application/runs.py:453-470 | an open response stream is seen as stalled exactly from the threshold after its last chunk on, whatever else is recorded meanwhile |
| Watchdog.Monitor.UpdateWindows | app/application/runs.py:1840-1857 | a window survives exactly the same stall; a stall without one opens one at the present turn |
| Watchdog.Monitor.Turn | app/application/runs.py:1788-1943 | which of exit, deadline, cancellation and stall a turn ends in, and the windows and deadline it leaves |
| Watchdog.WindowIsUnbrokenStall | app/application/runs.py:1840-1857 | an item has a window if and only if it was just seen stalled, opened at the first turn of that unbroken stall |
| Watchdog.ExpiredIffStalledForGrace | app/application/runs.py:1901-1907 | a window is past its grace period if and only if that stall was seen at every turn over at least that time |
| Watchdog.Supervise | app/application/runs.py:1788-2010 | the report is true of the turns: it names the first turn that ends the supervision, and there the process is gone, a cancellation is requested, a stall has lasted the grace period, or the deadline has passed, in the source's order; of several stalls the longest is named |
| Watchdog.ReportIsDetermined | app/application/runs.py:1788-2010 | the turns determine how the supervision ends, up to which of equally long stalls is named |
| Watchdog.StallIsReported | app/application/runs.py:1901-1907 | the first turn with a stall that has lasted the grace period is reported as that stall, if nothing else ended the supervision up to then |
| Watchdog.SilenceEndsSupervision | app/application/runs.py:1803-1807 | a Worker past its deadline is stopped at the first such turn, if nothing ended the supervision before |
| Watchdog.LastProgressIsExact | app/application/runs.py:160-174 | over every mix of store operations, losses and looks, the deadline's clock is the last renewal that a look could read, or the monitor's start, and lies between start and now |
| Watchdog.DeadlineIsExact | app/application/runs.py:1803-1807 | the next look leaves the loop if and only if the timeout has passed since the last renewal that it or an earlier look could read, or since the start |
| Watchdog.TransportRenewsDeadlineIff | app/orchestration/progress.py:500-538 | in every history, losses included, a transport signal or heartbeat renews the deadline if and only if it is a signal, no snapshot can be read, and it comes after the known progress |
| Watchdog.NoiseNeverMovesDeadline | app/application/runs.py:137-174 | the deadline is that of the history without its heartbeats and without transport activity that finds a snapshot |
| Watchdog.TransportKeepsSilentWorkerInTime | app/application/runs.py:1788-1807 | a started Worker whose snapshot is lost is kept in time past its timeout by one transport signal |
| SchemaEvolution.CompareFields | app/orchestration/schema_evolution.py:207-267 | lists exactly the type, optionality and constraint changes with their compatibility |
| SchemaEvolution.CompareModels | app/orchestration/schema_evolution.py:159-205 | lists exactly the added, removed and changed fields |
| SchemaEvolution.CompareRegistries | app/orchestration/schema_evolution.py:120-157 | lists exactly the differences between two registries |
| SchemaEvolution.RegistryDiffBreaks | app/orchestration/schema_evolution.py:269-272 | the diff holds a breaking change if and only if a model or field goes, a required field comes, or a field breaks |
| SchemaEvolution.ZeroIsNoBound | app/orchestration/schema_evolution.py:245-255 | a bound of zero restricts nothing and makes no difference to the verdict |
| SchemaEvolution.RegistryDiffEmptyIff | app/orchestration/schema_evolution.py:120-267 | nothing is listed exactly when the registries have the same models with the same compared fields |
| SchemaEvolution.ValidateUpgradePath | app/orchestration/schema_evolution.py:329-365 | safe if and only if nothing breaks; warns about the major version exactly when it should; raises on a non-integer major |
| SchemaEvolution.InhabitedIffSomeRecord | app/orchestration/schema_evolution.py:159-205 | a model has records if and only if each required field can be filled |
| SchemaEvolution.SafeUpgradeKeepsDataIff | app/orchestration/schema_evolution.py:245-255 | a safe upgrade keeps all old data valid if and only if in no model that has records a fillable surviving field gains a length bound |
| SchemaEvolution.DataCompatibleIffSafe | app/orchestration/schema_evolution.py:121-267 | where fields can be filled and bounds matter, old data stays valid if and only if the upgrade is called safe and no bound is gained |
| SchemaEvolution.SafeUpgradesCompose | app/orchestration/schema_evolution.py:121-267 | two safe upgrades that gain no bound compose to a safe upgrade that gains none |
| SchemaEvolution.ChainKeepsData | app/orchestration/schema_evolution.py:329-365 | along any chain of such upgrades the ends compare as safe and all old data stays valid |
| SchemaEvolution.SafeUpgradesComposeIff | app/orchestration/schema_evolution.py:245-255 | two safe upgrades compare as one safe upgrade if and only if no surviving field lost a bound and got it back tighter |
| SchemaEvolution.SafeUpgradeCanLoseData | app/orchestration/schema_evolution.py:245-255 | an input: an upgrade called safe after which old data is refused |
| SchemaEvolution.SafetyAloneDoesNotCompose | app/orchestration/schema_evolution.py:250-252 | an input: a bound dropped and brought back tighter makes two safe upgrades add up to a breaking one |

## Left out

- Agents, LLM calls, tools, HTTP, Git, Docker, SQLite and subprocess control; their answers are parameters (evidence, diagnosis, validator results, clocks).
- The failure diagnosis of architecture recovery: its pattern matching and design parsing appear as the set of matching items.
- Plan patches, and the runner's own re-check of restored architecture results, which takes away a set of results and everything that depends on it.
- Plan expansion by the graph runner, batch selection and parallel execution limits; the items of a batch are recorded one at a time.
- Whether a repair plan is still pending is an input of the resume pipeline, as are the plan baseline check and the rewriting of repair plans.
- Resume.RebuildDeliveryState: saving the rebuilt state as a delivery checkpoint is not modelled; it changes no result.
- Checkpoints.FromCheckpoint: malformed JSON shapes, the schema version, and the capability request, failure signal and error text of a result are not modelled.
- Repository.ArtifactRepository.PromoteCandidate: a failing source check is one error kind, where the source raises the kind of the failing read.
- Repository: torn single-file writes, concurrent calls, issue reports, intermediate artifacts, and the legacy location of the architecture contract.
- StreamHandoff and SseReader: closing a stream is one step that does not block or fail, and the asynchronous variants of both are not modelled.
- SseReader.YieldedInOrder: says nothing about a reader that blocks for ever in the stream; reading the next event is one step.
- Watchdog.ExpiredIffStalledForGrace: time is that of the turns' starts, which the source stores in the windows; observations follow within the same turn.
- Watchdog: recording events and retry records, stopping the process, and the control file shared by cancellation and stall requests.
- ProgressStore: counters, summaries, error codes, evidence and batch details.
- SchemaEvolution: descriptions, warning texts and version suggestions; which field types have a length is a parameter of the data theorems.
- WorkItems: the contract digest of an item is a field, where the source computes it from the others.
- DeliveryRegistry: content validators; glob matching is modelled for the two pattern shapes the table uses.
- ResumeTwice.SecondLoadAgreesIff: the evidence, the diagnosis and the artifact store are those of the first load, and no item has an outcome in between.
- Worker leases, conversation routing, memory logs, aliases and configuration: no property of this kind to state.
