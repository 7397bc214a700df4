# TrustMap, modelled and proved in Dafny

TrustMap answers cross-chain verification requests. A block of one chain is
trusted by another either by verifying every block directly or by following
recorded dependencies through a graph of already verified trust roots. This
project models the parts of its Mapnode in which an error would go unnoticed,
and proves what they promise.

- **Replay engine.** A growing weighted graph over (chain, height) blocks with a
  treap of heights per chain, a cutoff-bounded search over it with reused
  scratch arrays, the Direct/TrustMap choice, and a durable log. Modules
  `Treap`, `HeightIndex`, `HeightIndexes`, `TrustView`, `TrustViewShape`,
  `ViewReady`, `DistanceNeutral`, `SearchSpec`, `SearchTotality`,
  `SearchInvariant`, `Scratch`, `TrustViewObject`, `Replay`,
  `ReplayCoordinator`, `ReplayLog`, `ReplaySession`, `PreparedTrace`,
  `WholeRuns`, `TraceCompletion`, `CheckpointFilter`.
- **Merkle and path proofs.** The frontier tree, witness folding, multi-hop
  verification, the proof builder and the two receipt checks. Modules `Merkle`,
  `PathProof`, `Receipt`.
- **Live planner.** Reachability and label setting under the order (cost, hops,
  edge-ID sequence), and the way from stored dependencies to an accepted proof.
  Modules `PlannerSpec`, `PlannerSearch`, `Planner`, `EndToEnd`, `PathInstances`.
- **Crash-safe protocols.** The submission executor, the confirmed-block indexer
  with the activation of remote dependencies, the request coordinator, and the
  worker that joins coordinator and executor. Modules `Executor`,
  `ExecutorProcess`, `CanonicalCursor`, `IndexerStore`, `Indexer`,
  `RequestStore`, `RequestCoordinator`, `RequestWork`.
- **Gossip codec.** Module `Envelope`.

How the model reads:

- Objects that the program updates in place are classes, and their methods are
  proved against functions and predicates on values; the theorems about whole
  runs are lemmas on those values.
- A database transaction is one atomic assignment that may also not happen, and
  a commit may happen without being reported. An error return stands for a
  crash at that point; the next call is the restarted process.
- RPC answers, the clock, and components outside a module are arbitrary values
  (`:= *`). Go map iteration is an arbitrary choice (`:|`).
- Hashes are function parameters. Nothing is assumed about them, except where a
  lemma says so: binding is stated for hash functions without a collision on
  the pairs actually hashed, and "byte-identical" as "identical, or two byte
  strings with one hash".
- `uint64` arithmetic is explicit: checked operations are proved exact, and
  wrap-around is written out where the program can meet it.

Main results, by name: `SearchSpec.AnswerUnique` and
`TrustViewObject.ReplayTrustView.ShortestPath` (exact, order- and
scratch-independent search), `DistanceNeutral.ActivationKeepsDistances`,
`WholeRuns.RunKeepsShape`, `WholeRuns.SettingsDominate`,
`ReplaySession.RunReplay` with `ReplaySession.InterruptionsDoNotShow` (resuming
equals an uninterrupted run), `TraceCompletion.AcceptedRunContinues`,
`TraceCompletion.RoomyRunCompletes`, `CheckpointFilter.CheckpointedRunsCompare`,
`Merkle.IncrementalTree.Append`, `Merkle.PathBinding`, `PathProof.Build`,
`PlannerSearch.ShortestPath`, `EndToEnd.IndexedPlansAreProvable`,
`Receipt.ValidatorsAgree`, `RequestWork.RequestWorker.Run`,
`Indexer.ConfirmedEventIndexer.Step`, `RequestCoordinator.Coordinator.Process`,
`Envelope.Parse`.

Where a promise holds only under a condition, the condition is part of the
statement:

- The graph keeps its shape exactly for dependencies between two chains; one
  inside a chain is accepted and destroys it
  (`TrustViewShape.ShapeSurvivesExactly`, `TrustViewShape.SameChainIsAccepted`).
- A run over a checked trace goes on exactly as long as no event's search meets
  an overflow (`TraceCompletion.AcceptedRunContinues`). A checked trace can stop
  in its second event (`TraceCompletion.AcceptedTraceCanStop`); it never does
  when twice the largest cost of the trace, less the update, fits in 64 bits
  (`TraceCompletion.RoomyRunCompletes`).
- B3, checkpoints with planning, costs no more than B2, planning alone, exactly
  when its narrower height filter is harmless: every way through the graph that
  beats B3's direct cost is matched by one the filter leaves
  (`CheckpointFilter.CheckpointedRunsCompare`). On one six-event trace B3 pays 10
  where B2 pays at most 5 (`CheckpointFilter.CheckpointsCanCostMore`).
- A planned path over stored dependencies, home and remote, is accepted by the
  proof builder exactly when all its witnesses have the builder's depth
  (`EndToEnd.IndexedPlansAreProvable`): remote activation admits any depth. For
  every length there are plans of both kinds (`PathInstances.PlansOfEveryLength`).
- A receipt the indexer records as a new dependency is accepted remotely exactly
  when none of its logs is marked removed (`Receipt.IndexedReceiptsTravel`);
  marking any log of such a receipt separates the two checks
  (`Receipt.RemovedLogSplitsThem`).
- The confirmation test guarantees the configured depth exactly when block number
  plus depth stays within 64 bits (`ExecutorProcess.DepthTestExact`); when it
  wraps, a receipt's own block passes as its own confirmation
  (`ExecutorProcess.WrappedTestIsShallow`).
- A legal transition of safe tables is safe exactly when it is not a confirmation
  without a receipt (`Executor.MoveIsSafeExactly`,
  `Executor.BareConfirmationIsUnsafe`).

## Model

| member | source | states |
|---|---|---|
| Treap.InsertValid | Mapnode/replay/replay_trust_view.go:226-264 | inserting keeps search order and the strict (priority, key) heap order through every rotation, and adds exactly the key |
| Treap.Canonical | Mapnode/replay/replay_trust_view.go:230-264 | two valid treaps with the same key set are the same tree |
| Treap.InsertionOrderIrrelevant | Mapnode/replay/replay_trust_view.go:226-246 | any two insertion sequences with the same keys build the same tree |
| Treap.ContainsIsMembership | Mapnode/replay/replay_trust_view.go:197-209 | lookup is membership in the key set |
| Treap.NeighboursExact | Mapnode/replay/replay_trust_view.go:211-224 | for an absent key, the exact predecessor and successor in the key set, and None exactly when there is none |
| HeightIndex.RotateHeightRight | Mapnode/replay/replay_trust_view.go:252-257 | the in-place rotation has the value of the rotated tree and touches only the node set it owns |
| HeightIndex.RotateHeightLeft | Mapnode/replay/replay_trust_view.go:259-264 | the mirror rotation, likewise |
| HeightIndex.InsertHeightNode | Mapnode/replay/replay_trust_view.go:230-246 | pointer insertion with rotations has exactly the value of the functional treap insertion |
| HeightIndex.OrderedHeightIndex.Contains | Mapnode/replay/replay_trust_view.go:197-209 | the pointer walk decides membership in the index's key set |
| HeightIndex.OrderedHeightIndex.Neighbours | Mapnode/replay/replay_trust_view.go:211-224 | the pointer walk returns the neighbours of the functional form |
| HeightIndex.OrderedHeightIndex.Insert | Mapnode/replay/replay_trust_view.go:226-228 | the index stays a valid treap and gains exactly the inserted height |
| HeightIndexes.InsertHeight | Mapnode/replay/replay_trust_view.go:226-246 | inserting into one chain's index changes that chain's tree only: all other indexes keep their trees, and no two ever share a node |
| HeightIndexes.EmptyIndexJoins | Mapnode/replay/replay_trust_view.go:52-56 | a chain seen first gets an empty index that meets no other and changes no tree |
| Costs.CheckedCost | Mapnode/replay/replay_cost_profile.go:44-49 | the division test succeeds exactly when the product fits in 64 bits, and then yields it |
| Costs.CheckedAdd | Mapnode/replay/replay_cost_profile.go:51-56 | the subtraction test succeeds exactly when the sum fits in 64 bits, and then yields it |
| TrustViewShape.ActivateRewires | Mapnode/replay/replay_trust_view.go:47-107 | after an activation every pair of blocks has the edge the two neighbours determine: the bridged pair none, the four new pairs their weights, all others what they had |
| TrustViewShape.ActivateCounts | Mapnode/replay/replay_trust_view.go:95-106 | the edge counter grows by two exactly when the chain had an active height |
| TrustViewShape.ActivateKeepsShape | Mapnode/replay/replay_trust_view.go:47-107 | intra-chain edges stay exactly the consecutive heights with delta times step weights, dependency edges stay, IDs stay a bijection, and the edge count formula holds |
| TrustViewShape.DependencyKeepsShape | Mapnode/replay/replay_trust_view.go:109-127 | a cross-chain dependency adds exactly its edge and keeps the whole shape |
| TrustViewShape.ShapeNeedsCrossChains | Mapnode/replay/replay_trust_view.go:109-127 | whatever dependency set is claimed afterwards, a view that has the shape after a dependency was added got it between different chains |
| TrustViewShape.ShapeSurvivesExactly | Mapnode/replay/replay_trust_view.go:109-127 | after a dependency some dependency set describes the view exactly when it joins two chains |
| TrustViewShape.SameChainIsAccepted | Mapnode/replay/replay_trust_view.go:109-127 | whatever the costs, a dependency between two neighbouring blocks of one chain is accepted, and no dependency set describes the view afterwards |
| DistanceNeutral.ActivationKeepsDistances | Mapnode/replay/replay_trust_view.go:47-107 | activating a block changes neither reachability nor the shortest distance between any two already active blocks, in both directions |
| ViewReady.ActivateKeepsReady | Mapnode/replay/replay_trust_view.go:47-107 | for every trace, same-chain rows included, activation keeps IDs a bijection, edges between active blocks and weights positive |
| ViewReady.DependencyKeepsReady | Mapnode/replay/replay_trust_view.go:109-127 | adding a dependency keeps the same |
| SearchSpec.AnswerIsExact | Mapnode/replay/replay_dijkstra.go:104-176 | without overflow a path is reported iff a filtered walk within the cutoff exists, and it is a cheapest one |
| SearchSpec.AnswerUnique | Mapnode/replay/replay_dijkstra.go:79-87 | graph and query determine the one answer, including which of several equally cheap paths and whether an overflow is reported |
| SearchTotality.AnswerExists | Mapnode/replay/replay_dijkstra.go:104-176 | every query has an answer, an overflow exactly when some edge of a block popped before the goal overflows |
| SearchInvariant.PoppedIsShortest | Mapnode/replay/replay_dijkstra.go:139-152 | a fresh least queue item carries the least weight of all filtered walks to its block |
| SearchInvariant.RelabelEdge | Mapnode/replay/replay_dijkstra.go:154-173 | relaxing an improved edge keeps the search invariant |
| SearchInvariant.NotFoundAnswers | Mapnode/replay/replay_dijkstra.go:139-176 | an exhausted queue means no admissible walk within the cutoff and no overflow met |
| SearchInvariant.OverflowAnswers | Mapnode/replay/replay_dijkstra.go:154-158 | an overflow is reported only for an edge of a block popped before the goal |
| SearchInvariant.FoundAnswers | Mapnode/replay/replay_dijkstra.go:151-152 | the predecessor walk from the popped goal is the canonical shortest path |
| Scratch.PopLeast | Mapnode/replay/replay_dijkstra.go:77-102 | removes an item no other item precedes, and only it |
| Scratch.SearchScratch.Begin | Mapnode/replay/replay_dijkstra.go:18-43 | whatever earlier searches left, and at the generation wrap, a begun scratch holds no distance and no predecessor |
| Scratch.SearchScratch.GetDistance | Mapnode/replay/replay_dijkstra.go:45-50 | a stamped slot reads as the abstract map entry, an unstamped one as absent |
| Scratch.SearchScratch.SetDistance | Mapnode/replay/replay_dijkstra.go:52-55 | updates exactly one entry of the abstract distance map |
| Scratch.SearchScratch.SetPredecessor | Mapnode/replay/replay_dijkstra.go:64-67 | updates exactly one entry of the abstract predecessor map |
| TrustViewObject.SearchOutcomeUnique | Mapnode/replay/replay_dijkstra.go:104-176 | two searches of one view and query have the same outcome, errors included |
| TrustViewObject.ReplayTrustView.IndexFor | Mapnode/replay/replay_trust_view.go:52-56 | every chain's index is an object of its own that holds the chain's tree; asking for a new chain's creates an empty one |
| TrustViewObject.ReplayTrustView.Activate | Mapnode/replay/replay_trust_view.go:41-107 | the in-place activation, through the chain's heap index, has exactly the outcome and new state of the functional one, and on an error changes nothing; the indexes stay disjoint |
| TrustViewObject.ReplayTrustView.AddVerifiedDependency | Mapnode/replay/replay_trust_view.go:109-127 | likewise, with the state an error leaves behind |
| TrustViewObject.ReplayTrustView.ShortestPath | Mapnode/replay/replay_dijkstra.go:104-176 | for every scratch and every neighbour order the result is the unique outcome the graph determines |
| TrustViewObject.ReplayTrustView.ReconstructPath | Mapnode/replay/replay_dijkstra.go:195-229 | the predecessor walk ends, its reversal runs from start to goal, and the segments are the edges along it |
| Replay.ProcessDeterministic | Mapnode/replay/replay_coordinator.go:75-133 | state and event determine the decision, the next state or the error |
| Replay.FoundIsRecordable | Mapnode/replay/replay_planner.go:12-22 | a path the planner reports starts at the destination, ends at the source, consists of edges, sums to its cost without overflow and fits the cutoff |
| Replay.ChoiceIsOptimal | Mapnode/replay/replay_planner.go:12-38 | the chosen cost is the minimum of the direct cost and every admissible path plus update; TrustMap is chosen iff strictly cheaper, so a saving never underflows |
| Replay.TotalNeverOverflows | Mapnode/replay/replay_coordinator.go:108-117 | adding the update cost to a reported path never overflows, for any trace |
| Replay.RestoreReproduces | Mapnode/replay/replay_coordinator.go:137-246 | restoring a decision that processing produced is accepted and reaches the same state |
| Replay.ProcessKeepsCoherent | Mapnode/replay/replay_coordinator.go:75-133 | processing keeps the view usable, and untouched in settings that do not plan |
| ReplayCoordinator.ReplayBaselines.Get | Mapnode/replay/replay_baseline.go:24-39 | returns and stores the pair's baseline, and nothing else changes |
| ReplayCoordinator.ReplayBaselines.Advance | Mapnode/replay/replay_baseline.go:41-57 | raises the pair's baseline to the height or leaves it |
| ReplayCoordinator.ReplayBaselines.EstimateDirect | Mapnode/replay/replay_baseline.go:67-92 | the estimate of the value-level specification, with the baseline touched |
| ReplayCoordinator.Coordinator.Process | Mapnode/replay/replay_coordinator.go:75-133 | the object's transition is the specified one and keeps its invariant |
| ReplayCoordinator.Coordinator.ValidateRestoredDecision | Mapnode/replay/replay_coordinator.go:178-246 | accepts exactly the decisions whose recorded fields agree with view, estimate and costs |
| ReplayCoordinator.Coordinator.Restore | Mapnode/replay/replay_coordinator.go:137-176 | accepts, rejects and changes state exactly as specified |
| ReplayLog.InsertKeepsConsistent | Mapnode/replay/replay_repository.go:212-246 | one commit keeps every table in agreement with the completed events |
| ReplayLog.ReplayRepository.CommitEvent | Mapnode/replay/replay_repository.go:171-251 | all rows of the event or none; success means the event and decision are stored, also on a repeated commit |
| ReplayLog.ReplayRepository.ScanRows | Mapnode/replay/replay_repository.go:382-468 | the scan accepts exactly the logs numbered from zero without a gap whose rows agree one by one |
| ReplayLog.ReplayRepository.BaselinesMatch | Mapnode/replay/replay_repository.go:492-516 | comparing rows and counting them decides equality with the expected baselines |
| ReplayLog.ReplayRepository.VerifyPersistedDerivedState | Mapnode/replay/replay_repository.go:376-517 | accepts iff the joined rows are exactly those below the progress counter, each agrees, no derived row is missing or surplus, and the baselines are those the events imply |
| ReplaySession.RunUnique | Mapnode/replay/run.go:128-154 | two runs over one trace pass through the same decisions and states as far as both go |
| ReplaySession.RestoreAllReproduces | Mapnode/replay/replay_repository.go:351-370 | restoring a committed run row by row reproduces every state it passed through |
| ReplaySession.RecoverReplayCoordinator | Mapnode/replay/replay_repository.go:336-374 | succeeds iff setting, derived state, row bound, trace events and every restore agree, and then holds the restored state |
| ReplaySession.CommittedIsRecoverable | Mapnode/replay/run.go:114-127 | every log a session can leave is recoverable |
| ReplaySession.FreshIsCommitted | Mapnode/replay/replay_repository.go:118-169 | a newly initialised run database is a log that a session can start from |
| ReplaySession.ProcessAndCommit | Mapnode/replay/run.go:133-146 | whether it succeeds, fails or is cut off, the log stays a run over the trace |
| ReplaySession.RunReplay | Mapnode/replay/run.go:103-154 | recovery never fails; every crash point leaves a log that is a run and extends the old one; success means the whole trace; an error is the one the next event has |
| ReplaySession.LogsAgree | Mapnode/replay/run.go:114-154 | of any two logs that sessions over one trace leave, one continues the other |
| ReplaySession.FailureIsFinal | Mapnode/replay/run.go:134-138 | a session stopped by an event's error stops where every other one does |
| ReplaySession.InterruptionsDoNotShow | Mapnode/replay/run.go:114-154 | two databases with the same number of committed events are equal in every table, however often they were interrupted |
| PreparedTrace.InitialHeights | Mapnode/replay/replay_trace.go:138-142 | maps exactly the occurring chains to their least height |
| PreparedTrace.ValidatePreparedTrace | Mapnode/replay/config.go:253-297 | accepts iff the profile is valid and every distance between two blocks of one chain, and every path step plus update, fits in 64 bits |
| PreparedTrace.EventFits | Mapnode/replay/replay_coordinator.go:75-133 | on an accepted trace an event either succeeds or fails with a search overflow, and the state mentions only blocks of the trace |
| PreparedTrace.AcceptedRunStopsOnlyInSearch | Mapnode/replay/config.go:253-297 | on an accepted trace, in any setting and at any event, a search overflow is the only error a run can stop with |
| TraceCompletion.EventOutcome | Mapnode/replay/replay_coordinator.go:75-133 | on an accepted trace an event fails exactly when its search meets an overflow, and otherwise succeeds |
| TraceCompletion.AcceptedRunContinues | Mapnode/replay/config.go:253-297 | a run over an accepted trace can be extended by the next event exactly when that event's search meets no overflow |
| TraceCompletion.RoomyRunContinues | Mapnode/replay/config.go:253-297 | if the largest direct cost less the update plus the largest edge fits in 64 bits, no event of an accepted trace fails, in any setting |
| TraceCompletion.RoomyRunCompletes | Mapnode/replay/config.go:253-297 | every such trace has a run over all of its events |
| TraceCompletion.AcceptedTraceCanStop | Mapnode/replay/config.go:253-297 | an accepted trace of two events, in the order preparing leaves, whose run stops at the second with a search overflow |
| WholeRuns.RunKeepsShape | Mapnode/replay/replay_trust_view.go:47-179 | in every planning run over a cross-chain trace, after every event, the graph has exactly the shape of the events so far |
| WholeRuns.PlanningViewsAgree | Mapnode/replay/replay_coordinator.go:75-133 | B2 and B3 build identical graphs, node IDs and counters |
| WholeRuns.CheckpointsOnlyHelp | Mapnode/replay/replay_baseline.go:67-92 | whenever the plain estimate exists the checkpointed one does and costs no more |
| WholeRuns.SettingsDominate | Mapnode/replay/config.go:35-36 | at every event baselines agree in all settings, B2 and B3 states are equal, and chosen costs satisfy B1 <= B0, B2 <= B0, B3 <= B1 |
| WholeRuns.TotalsDominate | Mapnode/replay/replay_coordinator.go:75-133 | the same order holds for the total cost of whole runs |
| CheckpointFilter.SmallerSearchSeesLess | Mapnode/replay/replay_dijkstra.go:126-134 | whatever the search finds at a smaller direct cost it finds at a larger one: lowering the direct cost only hides paths |
| CheckpointFilter.CheckpointedIsNoDearer | Mapnode/replay/replay_planner.go:12-38 | for one event in one state, B3 pays at most what B2 pays exactly when every graph cost at B2's estimate is no less than B3's estimate or than some graph cost that B3's filter leaves |
| CheckpointFilter.CheckpointedRunsCompare | Mapnode/replay/config.go:35-36 | the same at every event of two runs over one trace |
| CheckpointFilter.CheckpointsCanCostMore | Mapnode/replay/replay_dijkstra.go:126-134 | an accepted trace in the order preparing leaves, complete in both settings, whose last event costs B3 exactly 10 and B2 at most 5 |
| Merkle.ZeroHashes | internal/proof/merkle.go:19-31 | the hashes of empty subtrees for every level, and an error exactly for an invalid depth |
| Merkle.RootFromWitness | internal/proof/merkle.go:33-71 | each invalid witness has its error, every other folds to the specified root |
| Merkle.WitnessComplete | internal/proof/merkle.go:33-71 | for every leaf list, index and depth the siblings of the padded tree fold to its root |
| Merkle.FoldBinding | internal/proof/merkle.go:33-71 | without collision, equal roots at equal index and length mean equal leaf and siblings |
| Merkle.VerifyPath | internal/proof/merkle.go:75-120 | accepts exactly the paths of equal, positive length with fitting witnesses whose recursive root is the home root |
| Merkle.PathBinding | internal/proof/merkle.go:75-120 | two accepted paths of equal length, indices and home root have equal base root, block hashes and siblings, if no two hashed pairs collide |
| Merkle.NewIncrementalTree | internal/proof/incremental.go:16-28 | an error exactly for an invalid depth; otherwise a new tree whose root is the root of zero leaves |
| Merkle.IncrementalTree.Append | internal/proof/incremental.go:30-50 | up to capacity the root is the root of the full tree over the padded leaves, whatever stale frontier entries hold; a full tree is unchanged |
| Merkle.DependencyWitnessCloses | Mapnode/evidence/remote_dependency_validator.go:282-302 | anchor leaf followed by zero hashes always is a witness of the second leaf |
| Merkle.RebuildDependencyWitness | Mapnode/indexer/verification_receipt.go:163-186 | fails exactly on a root mismatch of one of the two appends; the rebuilt witness never fails to close |
| PathProof.Telescopes | Mapnode/proof/builder.go:83-105 | if every hop folds to its recording root and hops meet, the reversed hops fold from the target's root to the first hop's root, for any length |
| PathProof.FoldingPlansAreBuildable | Mapnode/proof/builder.go:34-117 | a bound plan whose materials fold meets the builder's exact acceptance condition |
| PathProof.LoadMaterials | Mapnode/proof/builder.go:63-81 | succeeds iff every hop has a stored, valid material that starts where the previous one ends |
| PathProof.Assemble | Mapnode/proof/builder.go:83-99 | hashes, witnesses and hops in target-to-home order, failing exactly on an empty witness |
| PathProof.Build | Mapnode/proof/builder.go:34-117 | accepts iff plan, snapshot, materials and verification agree, and the proof it returns verifies against the home root |
| Receipt.ScanReceipt | Mapnode/indexer/verification_receipt.go:54-122 | collects the Gateway events iff all logs lie in the transaction in strict order and each kind occurs as often as it may |
| Receipt.ScanRemoteReceipt | Mapnode/evidence/remote_dependency_validator.go:186-257 | the same, rejecting removed logs and a dependency at another log index |
| Receipt.VerifyVerificationReceipt | Mapnode/indexer/verification_receipt.go:42-188 | accepts exactly the ordered, bound and root-chained receipts of the request, with a witness that folds to the resolved home root |
| Receipt.ValidateReceipt | Mapnode/evidence/remote_dependency_validator.go:181-304 | accepts exactly the receipts of new dependencies at the locator, with such a witness |
| Receipt.IndexedReceiptsTravel | Mapnode/evidence/remote_dependency_validator.go:181-304 | a receipt the indexer records as a new dependency is accepted by the remote validator, for the locator naming it, exactly when no log is marked removed |
| Receipt.RemoteReceiptsIndex | Mapnode/indexer/verification_receipt.go:42-188 | a receipt the remote validator accepts is indexed for exactly the requests it is about |
| Receipt.ValidatorsAgree | Mapnode/evidence/remote_dependency_validator.go:181-304 | for every receipt, request and locator naming its dependency: accepted remotely and about the request iff indexed as new and without removed logs |
| Receipt.RemovedLogSplitsThem | Mapnode/evidence/remote_dependency_validator.go:197-201 | marking any one log of an indexed receipt removed leaves it indexed and makes the remote validator reject it |
| Receipt.HonestReceiptAccepted | Mapnode/indexer/verification_receipt.go:42-188 | a receipt with the five honest events in order passes both checks, for every hash, depth, request and root |
| PlannerSpec.PathLessTotal | Mapnode/planner/planner.go:343-362 | with unique edge IDs two different paths are never tied |
| PlannerSpec.LeastUnique | Mapnode/planner/planner.go:343-362 | the least path depends on the edge set only |
| PlannerSearch.DirectedReachability | Mapnode/planner/planner.go:257-282 | true iff a directed walk from start to target exists |
| PlannerSearch.CompareCandidate | Mapnode/planner/planner.go:343-362 | decides the order (cost, hops, edge IDs), zero only for the same candidate |
| PlannerSearch.PoppedIsLeast | Mapnode/planner/planner.go:316-323 | a fresh popped candidate is the least of all fitting walks to its node |
| PlannerSearch.ExhaustedResult | Mapnode/planner/planner.go:337-340 | an empty queue means no fitting walk after an overflow, and no walk at all without one |
| PlannerSearch.ShortestPath | Mapnode/planner/planner.go:310-341 | returns the least walk, or overflow only if every walk to the target overflows, or "disappeared" only if there is none |
| Planner.TrustedPathStepCost | Mapnode/planner/planner.go:364-378 | succeeds iff all edges carry one non-zero step cost |
| Planner.StepDividesPath | Mapnode/planner/planner.go:167-170 | a found path costs hops times step, the step is not zero, and the second overflow test never fires |
| Planner.MakePlan | Mapnode/planner/planner.go:104-191 | the decision in terms of walks: each fallback and error exactly under its condition, otherwise the one least path; "disappeared" never |
| Planner.PlannedPathsAreBuildable | Mapnode/proof/builder.go:34-117 | whatever path the planner decides on, the builder accepts it once its edges fold |
| EndToEnd.IndexedPlansAreProvable | Mapnode/proof/builder.go:34-117 | a path of any length planned over stored dependencies is accepted by the builder against the home root exactly when every witness on it has the builder's depth |
| EndToEnd.EqualDepthsAreProvable | Mapnode/proof/builder.go:34-117 | if every remote edge has the home depth, every planned path is accepted |
| PathInstances.PlansOfEveryLength | Mapnode/store/remote_dependency_repository.go:23-117 | for every hash, length and remote depth there are consistent tables, one edge recorded and the others remote, over which the planner decides on a path of that length; it is provable iff it has one hop or the depths agree |
| Executor.InsertKeeps | Mapnode/store/transaction_repository.go:24-63 | storing a prepared row keeps the tables and history safe, and exclusive if nothing is active and the request has no confirmed row |
| Executor.MoveKeeps | Mapnode/store/transaction_repository.go:106-168 | a legal transition keeps them too |
| Executor.MoveIsSafeExactly | Mapnode/store/transaction_repository.go:106-168 | a legal transition of safe tables leaves them safe exactly when its target is not Confirmed |
| Executor.BareConfirmationIsUnsafe | Mapnode/store/transaction_repository.go:106-168 | for every prepared submission: once submitted, its row may legally be moved to Confirmed without a receipt, and that is unsafe |
| Executor.ConfirmKeeps | Mapnode/store/transaction_repository.go:170-222 | confirming a submitted row with a durable bundle keeps them too |
| Executor.SendKeeps | Mapnode/executor/live_transaction_submitter.go:134-140 | sending bytes under a stored row's hash keeps every sent transaction stored beforehand |
| Executor.OneConfirmationPerRequest | Mapnode/store/transaction_repository.go:186-220 | a request is confirmed by at most one submission |
| ExecutorProcess.TransactionRepository.SavePrepared | Mapnode/store/transaction_repository.go:24-63 | inserts the row or nothing; success returns the stored row of that ID, request and hash |
| ExecutorProcess.TransactionRepository.Transition | Mapnode/store/transaction_repository.go:106-168 | moves exactly from the expected state by a legal change, once per change; afterwards the tables are safe exactly if nothing changed or the target is not Confirmed |
| ExecutorProcess.TransactionRepository.Confirm | Mapnode/store/transaction_repository.go:170-222 | only a submitted row with a matching durable receipt and resolution becomes confirmed |
| ExecutorProcess.TransactionRepository.NextRequest | Mapnode/store/execution_work_repository.go:21-37 | while a row is active nothing; else the oldest request, then least ID, among those neither rejected, resolved nor confirmed, and nothing only if there is none |
| ExecutorProcess.TransactionSubmitter.BroadcastPrepared | Mapnode/executor/live_transaction_submitter.go:134-155 | sends stored bytes only and ends in Submitted or leaves the row |
| ExecutorProcess.TransactionSubmitter.ReconcileReceipt | Mapnode/executor/live_transaction_submitter.go:206-245 | keeps everything, adds no row, and every row it confirms has the configured depth if block number plus depth stays within 64 bits |
| ExecutorProcess.DepthTestExact | Mapnode/executor/live_transaction_submitter.go:224-239 | every head that passes the depth test with a non-zero count has the configured depth, exactly when the test does not wrap |
| ExecutorProcess.WrappedTestIsShallow | Mapnode/executor/live_transaction_submitter.go:224-239 | whenever it wraps, the receipt's own block passes it with one confirmation, fewer than configured |
| ExecutorProcess.TransactionSubmitter.Recover | Mapnode/executor/live_transaction_submitter.go:159-172 | for every active row and every answer: keeps everything, adds no row, and confirms only at the configured depth |
| ExecutorProcess.TransactionSubmitter.Submit | Mapnode/executor/live_transaction_submitter.go:85-132 | whatever fails, what was sent was stored; a new row carries out the intent; called idle it leaves at most one active row |
| RequestWork.NextAttempt | Mapnode/store/execution_work_repository.go:39-55 | the latest attempt that has a plan, one more for a request sent back, zero before the first plan |
| RequestWork.RetriesAreNew | Mapnode/store/execution_work_repository.go:39-55 | the attempt of a request sent back is one that no plan of it has |
| RequestWork.DeliveredIsPlanned | Mapnode/executor/request_worker.go:76-101 | a submission built from what the coordinator delivers names a stored plan of its request, attempt and snapshot, and for a path a stored proof |
| RequestWork.PathSubmissionsAreProved | Mapnode/executor/request_worker.go:90-96 | a path submission's proof is stored and was accepted against the home root of the submission's snapshot |
| RequestWork.RequestWorker.Step | Mapnode/executor/request_worker.go:56-113 | one step over both databases, cut off anywhere: safe submissions, sound requests, every stored submission carries out a stored plan and proof, at most one active row, confirmations only at the configured depth |
| RequestWork.RequestWorker.Run | Mapnode/executor/request_worker.go:115-128 | the same over any number of steps and restarts, and every confirmed row of the run has the configured depth, or a block number within it of 2^64 |
| CanonicalCursor.AdvanceExtendsChain | Mapnode/reorg/canonical_cursor.go:43-59 | at the end of a chain, a healthy and still canonical cursor advances to a named block exactly when that block continues the chain, and then stands at it |
| CanonicalCursor.ChainHeight | Mapnode/reorg/canonical_cursor.go:43-59 | heights of an applied chain count up from its first block |
| IndexerStore.InsertDependencies | Mapnode/store/indexer_repository.go:437-530 | every stored edge is bound to its witness, which folds to the recording block's root; every new edge starts at the block being applied, with the deployment's depth and step cost |
| IndexerStore.AppliedKeeps | Mapnode/store/indexer_repository.go:237-250 | applying a block keeps the chain parent-linked from the deployment block, every edge either recorded by a block of that chain or remote, and all earlier rows |
| IndexerStore.ActivationKeeps | Mapnode/store/remote_dependency_repository.go:23-117 | activating a remote dependency whose witness folds keeps chain, cursor and every recorded edge, and every edge folding |
| IndexerStore.Repository.ApplyConfirmedBlock | Mapnode/store/indexer_repository.go:107-260 | all of the block after the cursor or nothing; applying the cursor's own block again changes nothing |
| IndexerStore.Repository.ActivateRemote | Mapnode/store/remote_dependency_repository.go:23-117 | stores the edge built from the validation once or changes nothing; refuses a witness that does not fold at its own depth, an improper edge and a conflicting one |
| IndexerStore.Repository.Initialize | Mapnode/store/canonical_cursor_repository.go:21-42 | for every cursor: a degraded or unnamed one is refused, an existing one kept, and the tables stay valid exactly if nothing changed or it is at the deployment block |
| IndexerStore.Repository.DegradeIndexer | Mapnode/app/app.go:565-585 | success means degraded; a partial failure leaves the applied chain alone |
| Indexer.ChunkEnd | Mapnode/indexer/confirmed_event_indexer.go:220-224 | in 64 bits, for every range size, the chunk stays between its start and the safe head |
| Indexer.ConfirmedEventIndexer.ApplyNext | Mapnode/indexer/confirmed_event_indexer.go:236-272 | success applies exactly the next block; any failure applies at most it |
| Indexer.ConfirmedEventIndexer.ApplyRanges | Mapnode/indexer/confirmed_event_indexer.go:219-277 | success visits cursor+1 to the safe head, each once and in order, without wrap-around |
| Indexer.ConfirmedEventIndexer.Step | Mapnode/indexer/confirmed_event_indexer.go:148-288 | an error-free step has visited exactly the pending blocks and ends at the safe head; a degraded cursor never moves |
| Indexer.ConfirmedEventIndexer.StepRemoteEvidence | Mapnode/app/app.go:683-742 | while degraded nothing is activated; otherwise at most the validated edge is added, and the applied chain stays |
| Indexer.ConfirmedEventIndexer.Run | Mapnode/indexer/confirmed_event_indexer.go:304-330 | over any steps, restarts and remote activations the chain stays linked from the deployment block, every stored edge folds, and degraded is never left |
| RequestStore.PlanKeeps | Mapnode/store/plan_repository.go:20-109 | a plan of a later attempt keeps one plan per attempt, the latest attempt current and every state backed |
| RequestStore.MoveKeeps | Mapnode/store/repository.go:237-301 | a transition into a backed state keeps every request backed |
| RequestStore.ProofKeeps | Mapnode/proof/builder.go:103-116 | storing a verified proof keeps all proofs verified |
| RequestStore.ObservedKeep | Mapnode/store/indexer_repository.go:345-366 | requests observed meanwhile join the table, and keep every earlier request, plan and backing |
| RequestStore.MoveFollows | Mapnode/store/repository.go:237-301 | no transition takes a request with a plan to Observed or Rejected |
| RequestCoordinator.RequestDatabase.SavePlan | Mapnode/store/plan_repository.go:20-109 | never an older attempt, never another plan for an attempt, and the branch that makes a stored plan current again is dead |
| RequestCoordinator.RequestDatabase.Transition | Mapnode/store/repository.go:237-301 | moves exactly from the expected state by a legal change, once per change |
| RequestCoordinator.RequestDatabase.MarkRetryable | Mapnode/store/execution_work_repository.go:61-80 | sending a request back keeps everything |
| RequestCoordinator.RequestDatabase.BuildProof | Mapnode/proof/builder.go:34-117 | a returned proof is stored and verifies against the expected home root |
| RequestCoordinator.Coordinator.Prove | Mapnode/coordinator/coordinator.go:157-178 | delivers a direct plan, or a path plan whose proof was stored before the state changed |
| RequestCoordinator.Coordinator.Advance | Mapnode/coordinator/coordinator.go:126-195 | the plan is durable before the state, and the state rank goes down |
| RequestCoordinator.Coordinator.Process | Mapnode/coordinator/coordinator.go:62-221 | terminates; a crash anywhere leaves every state backed by its artifact and plans unchanged; success delivers the durable current plan and, for a path, a verified stored proof |
| Envelope.DecodeEncoding | Mapnode/p2p/dependency_evidence_envelope.go:137-191 | decoding an encoding returns the message |
| Envelope.EncodingDecode | Mapnode/p2p/dependency_evidence_envelope.go:94-135 | encoding what was decoded returns the bytes |
| Envelope.EncodingInjective | Mapnode/p2p/dependency_evidence_envelope.go:94-113 | no two valid messages share an encoding |
| Envelope.MarshalBinary | Mapnode/p2p/dependency_evidence_envelope.go:115-135 | succeeds iff the message is valid under its own digest, with at most 364 bytes, so the 512-byte limit is never hit |
| Envelope.Parse | Mapnode/p2p/dependency_evidence_envelope.go:137-191 | accepts exactly the encodings of such messages and returns the message, never reading out of bounds |

## Left out

- `container/heap`: the two priority queues are modelled by the library's contract (remove an item none precedes), not by its sift loops.
- Chain names are taken as already canonical (trimmed and lower-cased); block records carry the original height only.
- `edgeCount` is an unbounded integer; error texts and timestamps are not part of the model.
- JSON and SQL encodings: rows are values, and two rows are equal when their stored bytes would be; values above the signed 64-bit range, which the SQL driver refuses, fall under a failed commit.
- `PrepareTrace`: CSV parsing, height rounding, the sort itself and the event-ID digest; the order it leaves is `PreparedTrace.InTraceOrder`, and theorems hold for every numbered sequence.
- NewTrustView (the planner's snapshot validation) is modelled by its acceptance condition, not by its loops.
- Planner.MakePlan: planning profiles are a calibrated flag and a direct cost; profile ID and fingerprint are not part of the plan record.
- Receipt: a nil log and the ABI decoding are not modelled; a log carries its decoded event or is unacceptable. The range query rejects removed logs separately, in `validateAndSortLogs`.
- IndexerStore.InsertDependencies: evidence locator, payload, receipt, log and active-node lookups may reject any dependency; the edge, witness, recording block and root checks are spelled out.
- Indexer.ConfirmedEventIndexer.ApplyNext: what `prepareBlock` extracts from a block is arbitrary; `validateAndSortLogs` may reject any range.
- ExecutorProcess.TransactionRepository.ListRecoverable: the rows come in some order instead of nonce order.
- RequestWork.RequestWorker.Step: endpoint observation, snapshot IDs and call data are arbitrary values.
- IndexerStore.Repository.ActivateRemote: inbox, evidence state, locator and active-node lookups may reject any validation; what `validateReceipt` checks before is in `Receipt`.
- RequestCoordinator.Coordinator.PlanFor: what the planner decides is arbitrary there; the table's own checks on a plan are modelled.
- Liveness of executor and coordinator: a repeated transition or a second row for an attempt fails by design, so only safety is claimed.
- Mutexes and `sync.Pool`: methods run one at a time, as their locks enforce.
- Keccak, SHA-256, ECDSA, ABI packing, JSON-RPC, libp2p, the HTTP API, keystores, the CLI, exports and the dataset scripts.
