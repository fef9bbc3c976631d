# A verified model of zkevm-node's stateful core

This project models the parts of the zkEVM node that keep state over long runs and proves what they keep.
`dafny verify dfyconfig.toml` checks all of it. The results are statements over all inputs, all reachable
states or all runs, beside seven concrete inputs on which a wished-for property fails.

**L1 info tree** (`MerkleSpec`, `L1InfoTree`, `MerkleProofs`, `L1InfoTreeRecursive`). One recursive
definition of the zero-padded tree, addressed by level and position, is the reference. The incremental
update, the level-by-level rebuild and the rebuild that collects a sibling path are loops over sequences and
an array, and each is proved to compute that reference. From this follow: growing a tree from any stored
prefix gives the rebuilt root after every leaf; a restarted tree gives the roots of an uninterrupted one for
every future; proofs are complete and binding, where binding hands the caller a hash collision instead of
assuming there is none; every past root opens the recursive root; and two histories of the recursive tree have one
root exactly when they are the same tree. The code cuts the size of a level to 32 bits before it compares a position with it, so of 2^32 - 1 leaves
or more it stores wrong siblings; the exact lengths are proved. The hash function is a parameter throughout.
Where hashing is required to be free, the term algebra `Digest` shows that the requirement can be met.

**L1 transaction manager** (`EthTxModel`, `EthTxManager`, `EthTxRuns`, `EthTxRounds`, `EthTxDuplicate`,
`EthTxCompletion`). `Client` is the imperative manager. `MonitorEffects` lists the writes and sends of one
monitoring round in order; a round of a run may stop after any number of them, which covers crashes and every
failing call. `EthTxRounds` says what a round achieves when no call fails. The run theorems hold for every answer
of the node, the database, the signer and the synchronizer, with the hypotheses named in the statement. Two wishes
fail of the code, and for both the exact condition is proved. The stated aim, never to send duplicated data to the
rollup, fails because a failing receipt lookup does not clear the flag that every history transaction was mined
(ethtxmanager/ethtxmanager.go:322-325): `LookupErrorDuplicates` is a complete run with two successes,
`NonceReviewExact` says that one more move of the chain can duplicate the data if and only if a failed lookup hid a
transaction that can still succeed, and `VisibleGuardExact` with `SeeingNoDuplicate` gives the guard the manager
could check, which is the best one for what it sees. The rule that a completed transaction has a block fails because
the caller completes what it once listed as confirmed without looking again
(ethtxmanager/ethtxmanager.go:660-678): `CompletionAfterReorg` is the run, and `CompletionExact` the condition.

**Aggregator** (`Aggregator`, `AggregatorRows`, `AggregatorClient`, `AggregatorDuplicates`). A state machine over the proof table,
what each worker is in the middle of, and what it has read of the last verified batch, which may be out of date by
the time it acts on it. Steps of any number of workers interleave freely with clean-ups, restarts and the
synchronizer taking verified batches back. A step is one statement or one database transaction, except that a
query and the lock of what it found are one step. For a batch that is at the insertion, which `SelectedStaysFree`
justifies; for stored proofs it is at the query, since a row deleted in between is as well deleted after. `Coordinator`
holds the source's methods, with their transactions staged on a copy of the table; each of them is one step, a
step whose worker is lost, or none. Nothing in the code keeps a clean-up, an L1 reorg or a discard on an old read
from exposing a batch that a worker is still proving. `RunGuardExact` says that a run never offers one batch to two
workers if and only if each of its steps respects a guard on the rows of live workers. `LockedHasWorker` says that
a lock is watched unless some worker went away and left it.

**L1 events and forks** (`Sequences`, `EthermanEvents`, `EthermanBlocks`, `EthermanForks`). The handlers extend a
list of blocks and an order map. Each list of each block is the data of its events, and replaying the order over the blocks is their inverse exactly when no block has two different etrog
updates, for which a block has one slot. The chunked query asks for every block once while its 64-bit position
does not wrap, and only then ends; the fork intervals partition the later batches exactly when batch numbers never
go back and none is the last 64-bit number.

**Filters, notifications, gas price** (`FilterStorage`, `Notifications`, `GasPrice`). Five maps that stand for
one; a work splitter whose chunks are the input; two log matchers and the exact filters on which they agree;
and decimal truncation as rounding down.

Where the code and what its text says differ, the model follows the code. The
clean-up of locked proofs reports what it removes as stale, while its query removes any row locked long enough
(aggregator/aggregator.go:533-550).
`filterLogs` accepts a log that is too short for trailing wildcard positions, which `Match` refuses.
`generateFilterID` gives no guarantee of a fresh identifier, so `CreateFilter` states when overwriting is
harmless.

## Model

| member | source | states |
|---|---|---|
| `MerkleSpec.AbsentNode` | l1infotree/hash.go:22-32 | every node past the last leaf, at any level, is that level's zero hash |
| `MerkleSpec.CompleteNode` | l1infotree/tree.go:139-169 | a subtree whose leaves are all stored keeps its hash under any appended leaves |
| `L1InfoTrees.GenerateZeroHashes` | l1infotree/hash.go:22-32 | one entry per level up to and including the root level, each the hash of an empty subtree of that height |
| `L1InfoTrees.BuildIntermediate` | l1infotree/tree.go:56-68 | half as many nodes, each the hash of its pair, in order |
| `L1InfoTrees.LevelStep` | l1infotree/tree.go:71-92 | padding an odd level with its own zero hash and pairing gives a prefix of the next level that still covers every leaf |
| `L1InfoTrees.L1InfoTree.BuildL1InfoRoot` | l1infotree/tree.go:71-92 | succeeds exactly for height at least 1 and at most 2^height leaves, and then returns the root of the zero-padded reference tree |
| `L1InfoTrees.L1InfoTree.ComputeMerkleProof` | l1infotree/tree.go:95-136 | same success condition and root; up to 2^32 - 2 leaves the siblings are the reference tree's nodes beside the path of any 32-bit index, present or absent; for any number they are those nodes cut off at the level size modulo 2^32 |
| `L1InfoTrees.ProofLengthsExact` | l1infotree/tree.go:103-115 | the stored siblings are the reference nodes for all lists of n leaves and all indices if and only if n is at most 2^32 - 2 |
| `L1InfoTrees.LongLeavesFail` | l1infotree/tree.go:106-107 | for every longer list of non-zero leaves, the index at which the code stores a zero hash beside a real leaf |
| `L1InfoTrees.ClimbFromNewLeaf` | l1infotree/tree.go:147-163 | the node above a new leaf is determined by the stored sibling at a set bit of the count and by the zero hash at a clear one |
| `L1InfoTrees.FrontierStep` | l1infotree/tree.go:147-163 | the frontier at each level after an append: the carry of the increment reaches a level exactly when all lower bits were ones, and only then is that level overwritten |
| `L1InfoTrees.L1InfoTree.AddLeaf` | l1infotree/tree.go:139-169 | fails, changing nothing, exactly on a wrong index; otherwise the root is the reference root of the grown list, and the frontier invariant (each set bit of the count has the root of its completed left subtree) holds again, of an empty tree when the 32-bit counter wraps |
| `L1InfoTrees.L1InfoTree.InitSiblings` | l1infotree/tree.go:173-193 | what a restarted tree stores is the proof that the rebuild stores for the position of the counter, or that of an empty tree when the counter is zero, together with the reference root; fails exactly when the 32-bit count disagrees or the rebuild fails |
| `L1InfoTrees.NewL1InfoTree` | l1infotree/tree.go:20-35 | succeeds exactly for height at least 1 and at most 2^height leaves, with the reference root; the tree then stands for the stored leaves if and only if there are at most 2^32 - 2 of them, or 2^32 - 1 with a zero last |
| `L1InfoTrees.StartsFrontier` | l1infotree/tree.go:173-193 | for any number of leaves, the counter and proof stored at start-up are a counter and frontier of the leaves if and only if the cut to 32 bits loses none |
| `L1InfoTrees.GrowFrom` | l1infotree/tree.go:139-169 | for every split into stored and appended leaves, after each append the incremental root, the rebuilt root and the reference root are equal |
| `L1InfoTrees.Restart` | l1infotree/tree.go:173-193 | a tree restarted from stored leaves and one grown without interruption give equal roots for every future sequence of leaves |
| `MerkleProofs.ProofFolds` | l1infotree/tree.go:95-136 | folding a leaf with the siblings along the index bits climbs to the reference node at every level |
| `MerkleProofs.ProofReachesRoot` | l1infotree/tree.go:95-136 | completeness: for every index below 2^height, absent positions included, the returned siblings fold the leaf to the returned root |
| `MerkleProofs.FoldIsBinding` | aggregator/aggregator.go:380-391 | two different openings of one value at one index yield, by a computable search, two different hash inputs with one hash |
| `MerkleProofs.ProofIsBinding` | l1infotree/tree.go:95-136 | any opening of a computed root at an index is the stored leaf with the returned siblings, or exhibits a collision |
| `L1InfoTreesRecursive.PastRootAt` | l1infotree/tree_recursive.go:59-71 | entry i of the historic tree is the root after the first i leaves |
| `L1InfoTreesRecursive.PastRootOpens` | l1infotree/tree_recursive.go:74-84 | for every position, its past root with its historic siblings and the current leaf as topmost sibling folds to the current root, so the historic root is hashed on the left and the current leaf on the right |
| `L1InfoTreesRecursive.CurrentLeafOpens` | l1infotree/tree_recursive.go:74-84 | the current leaf with the historic root as its left sibling folds to the current root |
| `L1InfoTreesRecursive.NewL1InfoTreeRecursive` | l1infotree/tree_recursive.go:27-38 | succeeds exactly for height at least 1 and stands for the empty history |
| `L1InfoTreesRecursive.L1InfoTreeRecursive.AddLeaf` | l1infotree/tree_recursive.go:59-71 | a wrong index leaves the history as it was; otherwise, for a full historic tree and a wrapped counter too, the result is the root of the longer history, and the historic tree holds exactly the earlier roots, in order, since its counter was last zero |
| `L1InfoTreesRecursive.L1InfoTreeRecursive.ReplayLeaf` | l1infotree/tree_recursive.go:47-53 | one round of the start-up loop extends the history by its leaf |
| `L1InfoTreesRecursive.NewL1InfoTreeRecursiveFromLeaves` | l1infotree/tree_recursive.go:41-55 | replaying any stored leaves gives a tree that stands for exactly that history, with its root |
| `L1InfoTreesRecursive.ZeroRoot` | l1infotree/tree_recursive.go:74-84 | the height-32 root is the zero hash exactly while only zero leaves were added |
| `L1InfoTreesRecursive.RootIdentifiesHistory` | l1infotree/tree_recursive.go:47-84 | with free hashing two height-32 histories of any lengths have one root if and only if they are equal or both are zero leaves before one common last leaf |
| `L1InfoTreesRecursive.NonZeroHistories` | l1infotree/tree_recursive.go:47-84 | with free hashing and non-zero leaves the root identifies the history |
| `EthTxModel.LimitedGasPrice` | ethtxmanager/ethtxmanager.go:612-634 | the lesser of the adjusted suggestion and a configured limit; there is a price exactly when the node gave one |
| `EthTxManager.ScanHistory` | ethtxmanager/ethtxmanager.go:320-346 | for an arbitrary visiting order: confirmed exactly if some history entry succeeded, with its receipt; otherwise the failed and all-mined flags are exact |
| `EthTxManager.Client.constructor` | ethtxmanager/ethtxmanager.go:51-60 | takes up the stored table unchanged, with nothing sent yet |
| `EthTxManager.Client.GetTxNonce` | ethtxmanager/ethtxmanager.go:63-88 | one past the greatest nonce among the created rows of this sender when there is one, else the node's pending nonce, else an error; rows of others and in other states do not count |
| `EthTxManager.Client.Add` | ethtxmanager/ethtxmanager.go:91-140 | the exact success condition; success adds one created row and changes no other, and the transaction built from it is the requested call with the next nonce, the estimated or else the forced gas plus the offset, and the limited price; failure changes nothing |
| `EthTxManager.Client.MonitorTx` | ethtxmanager/ethtxmanager.go:307-526 | storage and sends after a round are those of the specified list of effects for a correct scan and nonce, no other row changes, and everything newly sent is in the stored history of the row |
| `EthTxManager.Client.MonitorRest` | ethtxmanager/ethtxmanager.go:388-407 | the part after the nonce review performs the specified writes, and everything newly sent is in the stored history |
| `EthTxManager.Client.ReviewAndSend` | ethtxmanager/ethtxmanager.go:395-407 | of a row sent before: performs the specified writes, and everything newly sent is in the stored history |
| `EthTxManager.Client.RecordAndSend` | ethtxmanager/ethtxmanager.go:409-436 | performs the specified writes, and everything newly sent is in the stored history |
| `EthTxManager.Client.SendAndWait` | ethtxmanager/ethtxmanager.go:438-485 | of a transaction already in the stored history: performs the specified writes, and everything newly sent is in that history |
| `EthTxManager.Client.ConcludeTx` | ethtxmanager/ethtxmanager.go:487-526 | leaves the row as it was, or sets the receipt's block with confirmed for a success and failed otherwise; the history never changes |
| `EthTxManager.Client.Reorg` | ethtxmanager/ethtxmanager.go:252-274 | exactly the rows handled before the first failure are reorged, all others unchanged; on success no row of any status has a block at or after the given one |
| `EthTxManager.Client.SetStatusDone` | ethtxmanager/ethtxmanager.go:178-187 | sets the status of an existing row and nothing else |
| `EthTxRuns.ConcludeSteps` | ethtxmanager/ethtxmanager.go:487-526 | the final write of a round is on a receipt of a history transaction: a success only in a synchronized block, and never a failure of a reorged row |
| `EthTxRuns.SendSteps` | ethtxmanager/ethtxmanager.go:438-485 | every send of the sending part is of a transaction stored before it, and every write is an allowed one |
| `EthTxRuns.MonitorSteps` | ethtxmanager/ethtxmanager.go:307-526 | every write of a round is of one of five allowed kinds, in the right status, and every send is already in the stored history at that moment |
| `EthTxRuns.StepsKeep` | ethtxmanager/ethtxmanager.go:421-448 | stopping a round after any number of effects leaves a row that only grew, whose history holds everything sent for it |
| `EthTxRuns.NonceStaysDistinct` | ethtxmanager/ethtxmanager.go:595-610 | a reviewed nonce never collides with another created row of the sender |
| `EthTxRuns.ReachableInv` | ethtxmanager/ethtxmanager.go:307-526 | in every state of every run, failures included: a block number is set exactly when confirmed, failed or done, except for done rows without one; created rows of one sender have distinct nonces; every history entry is the requested call with at least the requested extra gas; everything sent is in the stored history |
| `EthTxRuns.RunGrows` | ethtxmanager/pgstorage.go:219-255 | between any two states of a run no row disappears, no history loses an entry, and nonce, gas and gas price never decrease |
| `EthTxRuns.ReorgedOnlyConfirms` | ethtxmanager/ethtxmanager.go:389-393 | in every run a reorged row keeps its history and is not sent, and stays reorged or becomes confirmed, unless the step completes it |
| `EthTxRuns.CompletionExact` | ethtxmanager/ethtxmanager.go:660-686 | over every run whose completions are of rows once listed as confirmed, a block number is set exactly when confirmed, failed or done, if and only if no completed row was being monitored at that moment |
| `EthTxRuns.SettledStays` | ethtxmanager/ethtxmanager.go:389-393 | a row that was confirmed once is confirmed, reorged or done ever after, so it never fails and is never sent again |
| `EthTxRuns.ReachableConfirmable` | ethtxmanager/ethtxmanager.go:464-507 | in every reachable state a confirmed row, and a done row with a block, has a history entry with a successful receipt in that block, which was synchronized; done rows all have a block when completion hit no monitored row |
| `EthTxRuns.ReachableSpent` | ethtxmanager/ethtxmanager.go:359-371 | over runs whose nonce moves hid nothing, every history entry with a nonce other than the current one has not succeeded and cannot any more |
| `EthTxRuns.DuplicationExact` | ethtxmanager/ethtxmanager.go:348-358 | some lawful future of the chain makes two transactions of a history succeed if and only if two entries under different nonces can each still succeed |
| `EthTxRuns.AtMostOneSuccess` | ethtxmanager/ethtxmanager.go:348-371 | over every run with permanent receipts and nonces used once, in which no nonce move hid a transaction that can succeed behind a failed lookup, at most one transaction of a history has succeeded and no future of the chain alone changes that |
| `EthTxRuns.VisibleGuardExact` | ethtxmanager/ethtxmanager.go:320-371 | a review's failed lookups hid nothing that can succeed, on every lawful chain that agrees with its answers, if and only if each entry they were about shares sender and nonce with one seen mined |
| `EthTxRuns.SeeingNoDuplicate` | ethtxmanager/ethtxmanager.go:348-371 | over every run whose nonce moves respect that visible condition, at most one transaction of a history has succeeded and no future of the chain alone changes that |
| `EthTxRuns.NoLookupErrorNoDuplicate` | ethtxmanager/ethtxmanager.go:348-371 | the same over every run in which no receipt lookup failed in a nonce review |
| `EthTxRuns.NonceReviewExact` | ethtxmanager/ethtxmanager.go:320-371 | for every run that ends with a round which moved a nonce and stored a transaction under it that can succeed: the run goes on, by the chain alone, to two successes of that history if and only if a failed lookup of the round hid an entry that can succeed |
| `EthTxRuns.VisibleSuccessEnds` | ethtxmanager/ethtxmanager.go:338-341 | once a round sees a success it sends nothing, and its only possible write confirms the row at that receipt's synchronized block |
| `EthTxRounds.FailureEnds` | ethtxmanager/ethtxmanager.go:508-552 | a failing receipt leaves the row failed at its block if and only if the failed transaction was not found or its revert error is another than "execution reverted"; otherwise the row is as it was |
| `EthTxRounds.SuccessConfirms` | ethtxmanager/ethtxmanager.go:488-507 | a successful receipt leaves the row confirmed at its block if and only if that block is synchronized; otherwise the row is as it was |
| `EthTxRounds.WorkingRound` | ethtxmanager/ethtxmanager.go:307-526 | a round whose calls succeed and that sees no success uses the next nonce if it reviewed it, raises gas and price of a row sent before, stores the transaction so built, sends it exactly if the network does not know it, and settles the row on a receipt that came in time |
| `EthTxRounds.WorkingRoundSends` | ethtxmanager/ethtxmanager.go:409-448 | what such a round sends: one transaction, the requested call with the greater of stored and suggested nonce, gas and price, and the history grows by exactly that |
| `EthTxRounds.SeenSuccess` | ethtxmanager/ethtxmanager.go:338-341 | a round that sees a success confirms the row if and only if its block is synchronized, and sends and changes nothing else |
| `EthTxRounds.MonitorWorkingRound` | ethtxmanager/ethtxmanager.go:307-526 | the same of the manager's own round: the stored row, what was sent, and no other row |
| `EthTxRuns.ScanOrderIrrelevant` | ethtxmanager/ethtxmanager.go:320-346 | scans in any two orders take the same decisions, and report the same receipt when at most one entry succeeded |
| `EthTxRuns.ReviewCondition` | ethtxmanager/ethtxmanager.go:359-359 | a round reviews the nonce if and only if some lookup showed a failure, none a success and none an unmined transaction |
| `EthTxRuns.ReorgExact` | ethtxmanager/pgstorage.go:172-180 | a completed reorg turns exactly the rows with a block at or after the given one, whatever their status, into reorged rows without a block, and changes nothing else of them or of any other row |
| `EthTxRuns.DoneExact` | ethtxmanager/ethtxmanager.go:178-187 | completion keeps the block-number rule if and only if the row was no longer monitored |
| `EthTxRuns.AddIsStep` | ethtxmanager/ethtxmanager.go:91-140 | adding is a step of the runs above |
| `EthTxRuns.MonitorIsStep` | ethtxmanager/ethtxmanager.go:277-302 | a monitoring round of a row the loop selects is a step of the runs above |
| `EthTxRuns.ReorgIsStep` | ethtxmanager/ethtxmanager.go:252-274 | a reorg, completed or not, is a step of the runs above |
| `EthTxRuns.DoneIsStep` | ethtxmanager/ethtxmanager.go:178-187 | completion, of whatever row and with whatever answer of the database, is a step of the runs above or changes nothing |
| `EthTxDuplicate.LookupErrorDuplicates` | ethtxmanager/ethtxmanager.go:320-371 | a complete valid run against a lawful chain in which two transactions of one history succeed, after a lookup error in a nonce review |
| `EthTxCompletion.CompletionAfterReorg` | ethtxmanager/ethtxmanager.go:660-686 | a complete valid run against a lawful chain in which a row listed as confirmed is reorged, then completed, and ends up done without a block |
| `Aggregator.UncoveredIsUnclaimed` | state/pgstatestorage/batch.go:767-802 | a batch the selection query returns, for any bound from the least open read on, is claimed by no worker |
| `Aggregator.DeleteIsPrecise` | state/pgstatestorage/proof.go:135-140 | deleting by a worker's whole range removes that worker's rows and no other |
| `Aggregator.CommitKeeps` | aggregator/batch.go:264-303 | replacing two locked rows by the merged one keeps the invariant, whether or not the commit was reported |
| `Aggregator.StepKeeps` | aggregator/batch.go:15-427 | every step of every worker, on current or old reads, and every guarded clean-up, discard or loss of verified batches, keeps rows disjoint, claims disjoint, and each worker's rows locked and in place |
| `Aggregator.ReachableInv` | aggregator/batch.go:15-427 | so does every guarded run of any number of workers, in any interleaving, with restarts, crashes, clean-ups and L1 reorgs |
| `Aggregator.RowsAndHolders` | aggregator/batch.go:121-194 | in every state of a guarded run no batch is in two rows, no row has two workers, and a held row is locked |
| `Aggregator.AggregationConserves` | aggregator/batch.go:222-320 | an aggregation, locked, committed or failed, covers the batches covered before it: all of them while its rows are still stored, all that a selection can look at otherwise |
| `Aggregator.GenerationAccounts` | aggregator/batch.go:40-48 | starting a proof covers one more batch; giving it up uncovers that batch and no other |
| `AggregatorRows.ReleaseFrees` | aggregator/batch.go:397-427 | a release that takes effect, of two rows or of one, leaves every row of the worker that is still stored unlocked and proven, and touches no other |
| `AggregatorRows.MergeReplaces` | aggregator/batch.go:264-303 | a merge puts one proven row over both ranges, locked for its worker, in the place of the two and changes no other |
| `AggregatorRows.RemovalExact` | state/pgstatestorage/proof.go:135-171 | a discard, a clean-up of verified batches or of one old lock, a deletion of batches and a restart remove exactly the rows they are about |
| `AggregatorRows.SelectionFinds` | state/pgstatestorage/batch.go:767-802 | a selection begun now can hand out exactly the batches past the last verified one that no row covers |
| `AggregatorRows.ReachableShape` | state/pgstatestorage/proof.go:117-132 | in every state of every run, guarded or not, a row that is not locked holds a proof |
| `AggregatorRows.LockedHasWorker` | aggregator/batch.go:15-427 | over every run, guarded or not, a stored locked row has a worker that answers for it, unless since the start or the last restart a worker vanished, a release or deletion did not take effect, or a commit went unreported |
| `Aggregator.LostRowDuplicates` | state/pgstatestorage/batch.go:767-802 | in every state, each batch of a row that a worker lost which the open selection looks at is given to any worker that asks |
| `Aggregator.SelectedStaysFree` | aggregator/batch.go:153-191 | from the query of a selection to its insertion, no step of any other worker covers a batch that the query can return |
| `Aggregator.GuardExact` | state/pgstatestorage/proof.go:135-163 | from every good state and for every step: the open or the next selection can give one batch to two workers if and only if the step deleted a live worker's row of batches that a selection may look at, or made the batches of a deleted one unverified again |
| `Aggregator.RunGuardExact` | aggregator/batch.go:15-427 | over every run, no state offers one batch to two workers if and only if every step respected that guard |
| `AggregatorDuplicates.StaleCleanupDuplicates` | aggregator/aggregator.go:533-550 | a complete run in which the clean-up by age removes a live worker's row and the next selection gives its batch to a second worker |
| `AggregatorDuplicates.RollbackDuplicates` | state/pgstatestorage/pgstatestorage.go:38-46 | a complete run in which a batch is verified, its row cleaned up under a worker, and the verification taken back by an L1 reorg, so that a second worker gets the batch |
| `AggregatorDuplicates.StaleSelectionDuplicates` | aggregator/batch.go:134-155 | a complete run in which a batch is verified and cleaned up between a selection's read of the last verified batch and its query, so that a second worker gets the batch |
| `AggregatorDuplicates.StaleDiscardDuplicates` | aggregator/final.go:46-53 | a complete run in which a worker discards its proof on a read that an L1 reorg has outdated, so that a second worker gets the batch |
| `AggregatorClient.Coordinator.BeginSelection` | aggregator/batch.go:131-137 | the read under the mutex is a step of its own |
| `AggregatorClient.Coordinator.GetAndLockBatchToProve` | aggregator/batch.go:139-194 | on whatever the state has become since the read: the batch is locked for the worker, or the selection ends without one, or the insert took effect unheard and the row is locked for nobody |
| `AggregatorClient.Coordinator.GetAndLockBatchProofsToAggregate` | aggregator/batch.go:350-395 | both proofs are locked or neither is, for every point of failure, a commit nobody heard of included |
| `AggregatorClient.Coordinator.UnlockBatchProofsToAggregate` | aggregator/batch.go:397-427 | both proofs are released or neither is, for every point of failure, a commit nobody heard of included |
| `AggregatorClient.Coordinator.TryAggregateBatchProofs` | aggregator/batch.go:196-348 | for every point of failure, a commit nobody heard of included, the shared state changes by exactly one step: the merge, or the deferred release |
| `AggregatorClient.Coordinator.ValidateEligibleFinalProof` | aggregator/final.go:186-216 | eligible exactly if the proof covers the batch after the one read and the sequences are complete; a proof wholly at or before the one read is discarded, unless the deletion failed; the exact error cases |
| `EthermanEvents.EventReader.constructor` | etherman/etherman.go:566-567 | starts without blocks and without order |
| `EthermanEvents.EventReader.HandleEvent` | etherman/etherman.go:890-921 | the data joins the head block or a fresh one, and the order of that block gains one entry pointing at it |
| `EthermanEvents.EventReader.ProcessEvent` | etherman/etherman.go:593-725 | ignored logs change nothing, broken ones are reported, relevant ones are added |
| `EthermanEvents.ReadEvents` | etherman/etherman.go:559-582 | fails exactly when the query fails or some log is broken; otherwise blocks and order are those of the relevant events |
| `EthermanEvents.AddAllRepresents` | etherman/etherman.go:900-919 | after every log: blocks are distinct, every stored position is valid, the head is the last event's block, and the replay so far is the log so far |
| `EthermanEvents.ReplayGivesEvents` | etherman/etherman.go:559-608 | for every log whose blocks are contiguous, replaying the order over the blocks gives back exactly the relevant events in log order, each once, if and only if no block has two different etrog updates |
| `EthermanBlocks.BlocksHoldEvents` | etherman/etherman.go:1577-1596 | for every log whose blocks are contiguous: one returned block for each block with a relevant event and no other, and each of its lists is the data of that block's events of the list's kinds in log order; the etrog slot holds the last update |
| `Sequences.CollectExact` | etherman/etherman.go:569-578 | what the loops over logs pick comes from strictly ascending positions, and from every position that has a value |
| `EthermanEvents.SecondEtrogOverwrites` | etherman/etherman.go:776-831 | a contiguous log with two etrog updates in one block that the replay does not give back |
| `EthermanForks.QueryForkLogs` | etherman/etherman.go:405-428 | for every chunk size with which the position past the last block fits 64 bits, the chunks cover each block from genesis to the last exactly once and in order, and the loop ends |
| `EthermanForks.WrapGoesBack` | etherman/etherman.go:409-410 | a position that does not fit 64 bits becomes one at or before the last position asked for, so the loop goes over it again |
| `EthermanForks.AdvancesExact` | etherman/etherman.go:409-410 | the positions of the loop never go back if and only if the first one past the last block fits 64 bits |
| `EthermanForks.BuildForks` | etherman/etherman.go:430-514 | the exact cases of panic and error; otherwise one interval per own update, each closed by the next update's batch number |
| `EthermanForks.BatchHasItsFork` | etherman/etherman.go:430-510 | a batch past the first fork lies in the interval of the last update below it and in no other, and that interval has the fork, version and block of that update |
| `EthermanForks.IntervalsPartition` | etherman/etherman.go:430-510 | every later batch lies in exactly one interval if and only if no update past the first fork goes back below an earlier one and none is at the last 64-bit number, unless the first is there already |
| `FilterStorage.Storage.constructor` | jsonrpc/storage.go:35-46 | the empty index is valid |
| `FilterStorage.Storage.CreateFilter` | jsonrpc/storage.go:68-110 | adds the filter; the five maps still stand for one if and only if the identifier was free, or overwrote a filter without connection, or one of the same connection and type |
| `FilterStorage.Storage.GetAllBlockFiltersWithWSConn` | jsonrpc/storage.go:129-139 | lists the live filters that are block filters with a connection, each exactly once, and nothing else |
| `FilterStorage.Storage.UninstallFilter` | jsonrpc/storage.go:191-206 | removes the filter from all five maps and reports whether there was one |
| `FilterStorage.Storage.UninstallFilterByWSConn` | jsonrpc/storage.go:209-227 | removes exactly that connection's filters, in whatever order the shrinking map is visited; the nil connection removes nothing |
| `FilterStorage.Storage.DeleteFilter` | jsonrpc/storage.go:230-247 | the five maps again stand for one, without the filter, and no inner map is left empty |
| `Notifications.Parallelize` | jsonrpc/endpoints_eth.go:1344-1388 | the workers' chunks concatenate to the items, with at most the given number of workers |
| `Notifications.NotifyNewHeads` | jsonrpc/endpoints_eth.go:1166-1177 | whatever the interleaving of the workers, each block filter with a connection gets the head exactly once and no other filter does |
| `Notifications.Contains` | jsonrpc/endpoints_eth.go:1331-1338 | membership, both ways |
| `Notifications.TopicsKept` | jsonrpc/endpoints_eth.go:1284-1322 | accepts exactly if each of the first four positions is a wildcard or lists the log's topic there |
| `Notifications.FilterLogs` | jsonrpc/endpoints_eth.go:1271-1328 | the accepted logs, taken from strictly ascending positions, none twice and none left out |
| `Notifications.Match` | jsonrpc/query.go:298-335 | accepts exactly if the log has enough topics and every position accepts its topic |
| `Notifications.AddressesAdd` | jsonrpc/query.go:298-335 | for both matchers: addresses are alternatives, and one address accepts exactly the logs of that address that the filter accepts without any |
| `Notifications.TopicNarrows` | jsonrpc/endpoints_eth.go:1284-1322 | for both matchers: values at a topic position accept exactly what its wildcard accepts with one of the values there; filterLogs does not look past the fourth position |
| `Notifications.MatchedIsKept` | jsonrpc/query.go:298-335 | every log Match accepts is kept by filterLogs, and conversely when the filter has at most four positions and no more than the log |
| `Notifications.AgreeExactly` | jsonrpc/endpoints_eth.go:1271-1328 | the two agree on all logs of at most four topics, the most a log can have, if and only if the filter has at most four positions and its last is no wildcard |
| `GasPrice.ParseDecimal` | gasprice/follower.go:60-73 | parsing a number's decimal string gives the number back |
| `GasPrice.TruncateRoundsDown` | gasprice/follower.go:60-73 | cutting the string to three digits and padding with zeros is rounding down to a multiple of 10^(digits-3) |
| `GasPrice.TruncateError` | gasprice/follower.go:60-73 | the cut price is at most the price and, above three digits, off by less than a hundredth of itself |
| `GasPrice.TruncateMonotone` | gasprice/follower.go:60-73 | cutting keeps the order of prices |
| `GasPrice.UpdateGasPriceAvg` | gasprice/follower.go:34-83 | stores nothing exactly when the L1 price is zero; otherwise, of prices that fit 64 bits, the cut of the maximum if either price is above it, else of the greater of the scaled and the default price; never above a configured maximum, never below the cut default unless the maximum is; greater prices are reduced to 64 bits |

## Left out

- Keccak and the byte layout of `HashLeafData`: the hash is a parameter; the constant empty root (l1infotree/tree_recursive.go:8-10) is taken as the level-32 zero hash.
- L1InfoTreesRecursive.RootIdentifiesHistory: stated at height 32 only, because the constant empty root is the zero hash of that level.
- L1InfoTrees.L1InfoTree.AddLeaf: beyond 2^height leaves, which the code does not refuse, the result is the root of the block of 2^height leaves that holds the new one. The float halving of a 32-bit index is integer halving.
- `ResetL1InfoTree`, the getters and the recursive tree's delegating `ComputeMerkleProof`.
- EthTxManager.Client.MonitorTx: one call is atomic on its row; a stale copy overwriting a concurrent `Reorg` or `Add` is not modelled, and the distinct nonces of created rows rest on that.
- EthTxRuns.AtMostOneSuccess: receipts are permanent in these runs, so an L1 reorg that takes a receipt back is not covered; the safety results of `ReachableInv` and `RunGrows` do not need this.
- EthTxManager.Client.Add: the created rows are read outside the database transaction that inserts the new one (ethtxmanager/ethtxmanager.go:65 and :129), so two calls inside one open transaction would get one nonce; both callers pass none, and each insertion here is visible to the next call.
- EthTxModel.LimitedGasPrice: the margin factor product is an input, because its floating-point rounding is not the point; nonces, gas and prices are unbounded.
- Liveness of the transaction manager (that something is eventually mined or confirmed), timers and the result views of `buildResult`.
- Aggregator.StepKeeps: of what a query finds, the equality of blob numbers in the pair query, the complete-sequence conditions and the order in which the queries choose are dropped, so more choices are covered than the queries make.
- Aggregator.ReachableInv: asks that every step respects the guard, because the property fails otherwise (`RunGuardExact`).
- Aggregator.RowsAndHolders: asks the same; the four runs of `AggregatorDuplicates` are without it.
- The aggregator's not-profitable branch, prover calls, metrics, and the L1 verification transaction; a proof shared by reference between worker and final-proof sender is handed over as a value.
- EthermanEvents.ReplayGivesEvents: asks that logs of one block are contiguous, which is how a node returns them.
- EthermanEvents.EventReader.HandleEvent: the decoding of each event is an input, and a sequence event's list of batches is one piece of data; the block's parent hash and time are not kept.
- Feijoa blob events, ABI decoding and the queries around `readEvents`.
- EthermanForks.QueryForkLogs: asks that the position past the last block fits 64 bits, because otherwise the loop goes back and does not end (`AdvancesExact`).
- EthermanForks.BuildForks: a first log of another rollup is modelled as a panic, as the code indexes an empty list.
- FilterStorage.Storage.CreateFilter: identifiers are numbers and the random generation is an input; mutexes, last-poll times and subscription queues are not modelled.
- Notifications.Parallelize: asks for at least one worker unless there are no items, because the code divides by the worker count.
- Notifications.NotifyNewHeads: covers enqueuing, not delivery over the connection. The log notification is left out: its callback returns from the whole chunk when one filter is skipped (jsonrpc/endpoints_eth.go:1194-1196).
- GasPrice.UpdateGasPriceAvg: the product of the L1 price and the factor is an input; the last-n-batches suggester is not modelled.
- Servers, reflection dispatch, command line, configuration, genesis constants, database set-up, logging and mocks.
