# Verification of the indexer and the clustering service

Two services are joined by an ordered log. The indexer follows a node, stores a hash-linked window of
blocks, and publishes balance deltas and reorg notices. The clustering service batches them per block,
records weighted merge claims in an append-only table, and derives clusters by replaying the active
claims; a reorg invalidates the claims of the listed blocks and replays.

The project models the core of both and proves what they are for:

- **Replay** (`ReplaySpec`, `ReplayEdges`, `ReplayWalk`, `Replay`, with `UnionFind`, `Connectivity`,
  `Tree` and `Aggregates`). The imperative replay, with its maps iterated in any order, is proved equal
  to a mathematical description: connectivity closure, noisy-OR over sources, the minimum along the
  tree path, the earliest address as anchor. `ReplayPartition`, `ReplayConfidence`, `ReplayLocality`
  and `ReplayAppend` prove the laws: refinement to connectivity, spanning forest, path minimum and
  bottleneck bound, locality, monotonicity under append, harmless redelivery, threshold views.
- **Ledger** (`EvidenceLog`, `ClusterTables`, `Ledger`, `ReorgHandler`, `CommonInput`, `Pipeline`). The
  store, the cache, the rollback handler and the recording pipeline are classes whose methods are steps
  of one state machine over the log and the cache, failures part of the way through included.
- **Protocol** (`IndexerMachine`, `Indexer`, `Convergence`, `Contiguity`, `Consumer`). The indexer is a
  machine of single external actions that may stop anywhere between two of them; every pass of the loop
  is proved to be a legal run of it. The consumer is a class over an effect history, and what it batches
  together is a function of the events that reach it.
- **Both** (`Delivery`, `EndToEnd`, `BlockLog`, `CanonicalCache`, `WholeBlocks`, `MixedBatch`). Which blocks
  active claims can come from, for every history; what the cache holds after a history without failures,
  from the events alone; and what a batch of two chains does to it.
- **Queries** (`EpsilonView`, with `ClusterTables`). When an answer from the tables is the answer of the view.

Confidences are exact reals. Database, log and node calls may fail at any time, and one that reports
failure may have taken effect: a call that may fail chooses nondeterministically. Map iteration picks an arbitrary remaining key.

`dafny verify dfyconfig.toml` checks everything.

## Where the code and its documents differ

The model follows the code.

- `blockchain_cluster/docs/02-data-model.md:111` asks that the cluster id be a function of the member
  set. It is one of the anchor, which depends on row order: `ReplayLocality.IdIsNotAFunctionOfMembers`
  gives two logs, `ReplayLocality.IdFollowsOpener` the exact condition.
- `blockchain_cluster/docs/03-clustering-algorithms.md:305-309` always replays after a reorg. The code
  skips the replay when nothing was invalidated (`blockchain_cluster/internal/reorg/handler.go:75-77`),
  which is right exactly if the cache agreed before: `Ledger.SuccessAndAgreement`. A retry after a
  failed replay breaks it: `Ledger.RetriedRollbackLeavesStaleCache`.
- `blockchain_cluster/internal/cluster/store.go:84-88` takes thresholds up to 1e-9 for the full view. A
  view at such a threshold drops rows of confidence zero, the tables keep them. `EpsilonView.TablesMisnameView`
  is an input where the cluster named differs although the groupings agree. `EpsilonView.ViewsNameAlikeIff`
  is the exact condition for the cluster; for the whole answer `EpsilonView.ZeroRowsMakeNoDifference`, with
  `EpsilonView.DenialsAmongJoinedMakeNoDifference` as a case of it, and `EpsilonView.NoWeakRowNoDifference`
  are sufficient and `EpsilonView.SameAnswersMeetThreshold` is necessary.
- `blockchain_cluster/internal/cluster/replay.go:199-211` means rows without a transaction to be sources
  of their own. A transaction id spelled `op:` and a number collides with one: `ReplaySpec.SourceKeysCollide`; `ReplaySpec.SourceKeyMeaning` is the exact condition.
- `blockchain-indexer/internal/kafka/publisher.go:32-33` calls the publication of a block atomic. A
  failed write may have delivered a part, so the model lets it.
- `blockchain_cluster/internal/consumer/batcher.go:9-12` groups by block. A delta without a block hash is
  joined by whatever follows (`MixedBatch.HandBackMixedBatch`), and the pipeline then rebuilds the chain
  of the last delta only, so that the cache of another chain can go stale (`MixedBatch.MixedBatchLeavesStaleCache`).
  It is spared if and only if no recorded claim is on that chain: `Ledger.SparesCacheIffNoForeignClaim`.
- `blockchain-indexer/cmd/indexer/main.go:258-263` deletes blocks and rewinds the cursor in two writes. A
  stop between them tears a hole that is never filled: `Contiguity.StopTearsHole`, `Contiguity.FollowOverHole`.

## Model

| member | source | states |
|---|---|---|
| `Replay.Replay` | blockchain_cluster/internal/cluster/replay.go:62-189 | The imperative replay, whatever order its maps are iterated in, returns exactly the clusters of the specification (anchor, id, members with confidences, representative confidence), each once and each member once. |
| `ReplayEdges.TouchAddress` | blockchain_cluster/internal/cluster/replay.go:65-70 | Numbers addresses by first appearance. |
| `ReplayEdges.TouchRow` | blockchain_cluster/internal/cluster/replay.go:92-93 | Both ends of a row are numbered, A before B. |
| `ReplayEdges.CollectRow` | blockchain_cluster/internal/cluster/replay.go:95-105 | One row raises the best confidence of its source on its pair, and numbers the pair on first sight. |
| `ReplayEdges.CollectEvidence` | blockchain_cluster/internal/cluster/replay.go:79-106 | The first pass yields the first-appearance numbers of the addresses and, per pair, the best confidence per source, over the active rows between distinct addresses only. |
| `ReplayEdges.CombineSources` | blockchain_cluster/internal/cluster/replay.go:216-222 | Multiplying out a map in any order yields the noisy-OR of its values. |
| `ReplayEdges.CombineEdges` | blockchain_cluster/internal/cluster/replay.go:113-123 | Whatever order the pairs are visited in, sorting gives one edge per pair, in order of first appearance, weighted by the noisy-OR of its sources. |
| `ReplayEdges.AscendingUnique` | blockchain_cluster/internal/cluster/replay.go:121-123 | Keys being distinct, the sorted order is unique; this is what determinism rests on. |
| `ReplayWalk.UnionEdge` | blockchain_cluster/internal/cluster/replay.go:131-135 | An edge is kept in the adjacency lists exactly when its union merged something. |
| `ReplayWalk.UnionEdges` | blockchain_cluster/internal/cluster/replay.go:125-136 | After all unions the disjoint sets are the connected components, and the adjacency lists hold exactly the kept links. |
| `ReplayWalk.VisitNeighbours` | blockchain_cluster/internal/cluster/replay.go:159-170 | Expanding one address settles its unvisited neighbours at the weaker of its own confidence and the edge, and keeps the frontier invariant. |
| `ReplayWalk.WalkFromAnchor` | blockchain_cluster/internal/cluster/replay.go:153-171 | The breadth-first walk reaches exactly the tree of its start, and gives each address the weakest link on its tree path. |
| `Replay.GroupByRoot` | blockchain_cluster/internal/cluster/replay.go:138-142 | Addresses are grouped by root into the components. |
| `Replay.EarliestAddress` | blockchain_cluster/internal/cluster/replay.go:146-151 | The earliest-seen address of a component is found in any order of the component. |
| `Replay.BuildResult` | blockchain_cluster/internal/cluster/replay.go:173-186 | Members carry the walk's confidences and the representative confidence is their mean. |
| `Replay.ReplayComponent` | blockchain_cluster/internal/cluster/replay.go:145-187 | One component yields the result of the cluster its anchor names. |
| `Replay.ReplayComponents` | blockchain_cluster/internal/cluster/replay.go:144-188 | All components together yield each cluster once. |
| `ReplaySpec.NormalizeIsUnordered` | blockchain_cluster/internal/cluster/replay.go:34-39 | Two rows fall on one pair exactly when they name the same two addresses, in either order. |
| `ReplaySpec.SourceKeyMeaning` | blockchain_cluster/internal/cluster/replay.go:206-211 | Exactly when two rows count as one observation, including the collision of a transaction id spelled like a row key. |
| `ReplaySpec.SourceKeysCollide` | blockchain_cluster/internal/cluster/replay.go:206-211 | Counterexample to rows without a transaction being sources of their own: a transaction spelled like a row key is taken for that row. |
| `ReplaySpec.AnchorFacts` | blockchain_cluster/internal/cluster/replay.go:145-151 | The anchor belongs to its cluster, is shared by all of it, and differs between clusters. |
| `ReplaySpec.AnchorIsEarliest` | blockchain_cluster/internal/cluster/replay.go:147-151 | No address of a cluster was seen before its anchor. |
| `ReplaySpec.EarliestIsAnchor` | blockchain_cluster/internal/cluster/replay.go:147-151 | The earliest address joined to x is the anchor of x. |
| `ReplayPartition.SameClusterIffChain` | blockchain_cluster/internal/cluster/replay.go:125-142 | Two addresses share a cluster if and only if a chain of active rows between distinct addresses connects them. |
| `ReplayPartition.ClustersPartitionTouched` | blockchain_cluster/internal/cluster/replay.go:138-142 | Clusters are disjoint and cover exactly the addresses that such rows touch. |
| `ReplayPartition.PartitionIgnoresOrder` | blockchain_cluster/docs/02-data-model.md:72 | Only the set of connected pairs decides who is together: order, repetition and confidences do not. |
| `ReplayPartition.RowTogether` | blockchain_cluster/internal/cluster/replay.go:131-136 | The two ends of every useful row end up together. |
| `ReplayPartition.SpanningForest` | blockchain_cluster/internal/cluster/replay.go:131-136 | The kept links number addresses minus clusters, each is a bridge (so there is no cycle), and each is a combined pair. |
| `ReplayConfidence.SourceKeepsBest` | blockchain_cluster/internal/cluster/replay.go:101-104 | A source keeps at least the confidence of each of its rows. |
| `ReplayConfidence.StrengthAboveRow` | blockchain_cluster/docs/03-clustering-algorithms.md:273-276 | Combining independent sources never falls below the best single row of the pair. |
| `ReplayConfidence.ConfidenceIsPathMinimum` | blockchain_cluster/internal/cluster/replay.go:153-171 | A member's confidence is attained by a walk along kept links as its weakest link, no such walk does better, and the best bottleneck in the full graph is never below it. |
| `ReplayConfidence.ConfidenceRange` | blockchain_cluster/migrations/0001_init.sql:134 | Rows in [0,1] give members in [0,1], and the anchor gets exactly 1. |
| `ReplayConfidence.StricterViewRefines` | blockchain_cluster/internal/cluster/store.go:219-231 | Raising the threshold only splits clusters. |
| `ReplayConfidence.ViewMeetsThreshold` | blockchain_cluster/internal/cluster/store.go:219-231 | Every member of the view at t has confidence at least t. |
| `ReplayConfidence.ViewsAgreeIffWeakRowsAreRedundant` | blockchain_cluster/internal/cluster/store.go:219-231 | All rows and the rows at or above t group addresses alike if and only if each weaker useful row joins addresses the remaining rows already join. |
| `EpsilonView.ViewsNameAlikeIff` | blockchain_cluster/internal/cluster/store.go:84-103 | All rows and the rows at or above t name one cluster for every address if and only if, beyond that, the first row inside each cluster names the same address first in both. |
| `EpsilonView.TablesMisnameView` | blockchain_cluster/internal/cluster/store.go:84-103 | Counterexample to taking a low threshold for the full view: a zero-confidence row leaves the groupings equal, yet the tables and the view name different clusters for one address. |
| `EpsilonView.NoWeakRowNoDifference` | blockchain_cluster/internal/cluster/store.go:84-103 | Without a useful row below t the two answers are equal, confidence included. |
| `EpsilonView.ZeroRowsMakeNoDifference` | blockchain_cluster/internal/cluster/store.go:84-103 | Rows of confidence zero below t change no answer, confidence included, where they leave the order in which addresses appear and the kept links as they are. |
| `EpsilonView.DenialsAmongJoinedMakeNoDifference` | blockchain_cluster/internal/cluster/store.go:84-103 | That is so of every row of confidence zero on two addresses that the earlier rows at or above t already join, such as an operator's denial. |
| `EpsilonView.SameAnswersMeetThreshold` | blockchain_cluster/internal/cluster/store.go:84-103 | Where the two answers for an address are equal its confidence in the tables meets t. |
| `ReplayConfidence.TogetherIsLeast` | blockchain_cluster/internal/cluster/replay.go:125-142 | The grouping is the coarsest thing the rows force: anything that joins the ends of every useful row joins whatever replay joins. |
| `ReplayLocality.ClusterDependsOnOwnRows` | blockchain_cluster/internal/cluster/replay.go:62-189 | Replaying only the rows with both ends in a cluster gives that cluster alone: same anchor, id, members, every confidence and the mean. It is what would license the partial replay that the design allows. |
| `ReplayLocality.ClusterSurvivesOutsideChange` | blockchain_cluster/docs/03-clustering-algorithms.md:298-318 | Any change of rows that leaves those of a cluster in place and lets none cross its border leaves the cluster unchanged. |
| `ReplayLocality.AnchorIsOpener` | blockchain_cluster/docs/02-data-model.md:110 | The anchor is the first address of the first row inside the cluster, and the id derives from it. |
| `ReplayLocality.IdFollowsOpener` | blockchain_cluster/docs/02-data-model.md:111 | Two clusters over one member set have one id if and only if their first inner rows name the same address first. |
| `ReplayLocality.IdIsNotAFunctionOfMembers` | blockchain_cluster/docs/02-data-model.md:111 | Counterexample to the design's rule: one member set, two ids. |
| `ReplayAppend.SpanningGrows` | blockchain_cluster/internal/cluster/replay.go:131-136 | Appending rows keeps every kept link. |
| `ReplayAppend.AppendOnlyMerges` | blockchain_cluster/internal/cluster/replay.go:95-171 | Appending rows contains every old cluster in a new one, and no member of the cluster that supplied the anchor loses confidence. |
| `ReplayAppend.EarliestAnchorSucceeds` | blockchain_cluster/docs/02-data-model.md:110 | The anchor and id of an absorbing cluster are those of the old cluster whose anchor was seen first. |
| `ReplayAppend.RedeliveryIsHarmless` | blockchain_cluster/internal/cluster/replay.go:95-106 | Appending rows that repeat an earlier active row's pair and transaction at no higher confidence changes no cluster and no confidence. |
| `ReplayAppend.RepeatedRowIsHarmless` | blockchain_cluster/internal/cluster/replay.go:206-222 | The same for one row redelivered late, after any other rows. |
| `UnionFind.DSU.constructor` | blockchain_cluster/internal/unionfind/unionfind.go:14-19 | A new structure is valid and empty. |
| `UnionFind.DSU.Find` | blockchain_cluster/internal/unionfind/unionfind.go:23-33 | Returns the root and leaves the name right below it, changing neither the partition nor any rank, in at most log2 of the number of names recursive calls. |
| `UnionFind.DSU.Union` | blockchain_cluster/internal/unionfind/unionfind.go:39-52 | Merges exactly the two sets, and reports whether they were apart. |
| `UnionFind.CompressKeepsRanked` | blockchain_cluster/internal/unionfind/unionfind.go:29-31 | Pointing a member at its root keeps ranks increasing along links and trees at least 2^rank large. |
| `UnionFind.HangKeepsRanked` | blockchain_cluster/internal/unionfind/unionfind.go:44-50 | Union by rank keeps both. |
| `UnionFind.HangRelates` | blockchain_cluster/internal/unionfind/unionfind.go:39-52 | After hanging one root under another two names share a root exactly if they did or were in the two merged trees. |
| `UnionFind.RankIsLogarithmic` | blockchain_cluster/internal/unionfind/unionfind.go:39-52 | 2^rank is at most the number of names, which bounds the recursion of Find by log2 of it. |
| `UnionFind.DepthIsLogarithmic` | blockchain_cluster/internal/unionfind/unionfind.go:23-33 | 2^depth of a name is at most the size of its tree. |
| `Connectivity.JoinedIffWalk` | blockchain_cluster/internal/cluster/replay.go:131-136 | Merging links in order relates exactly the names that a walk connects. |
| `Tree.EveryWalkCoversTreePath` | blockchain_cluster/internal/cluster/replay.go:153-171 | In the forest of kept links every walk between two names covers their tree path: the path is unique. |
| `Tree.Bridge` | blockchain_cluster/internal/cluster/replay.go:131-136 | Each kept link is crossed by every walk between its ends. |
| `Tree.ForestCount` | blockchain_cluster/internal/cluster/replay.go:131-136 | Each kept link makes one name lose its own set. |
| `EvidenceLog.EvidenceStore.Append` | blockchain_cluster/internal/evidence/store.go:26-51 | Appends one active row; refuses self-loops and confidences outside the range; a reported failure may have appended the row. |
| `EvidenceLog.EvidenceStore.Invalidate` | blockchain_cluster/internal/evidence/store.go:58-68 | Strikes the named active row and no other, and says whether there was one; a reported failure may have struck it. |
| `EvidenceLog.EvidenceStore.ScanActive` | blockchain_cluster/internal/evidence/store.go:72-86 | Returns the active rows of the chain in row order. |
| `EvidenceLog.EvidenceStore.ByBlockHash` | blockchain_cluster/internal/evidence/store.go:90-103 | Returns exactly the rows of the chain anchored to the blocks. |
| `ClusterTables.InsertClusters` | blockchain_cluster/internal/cluster/store.go:51-60 | One row per cluster, identifiers never colliding. |
| `ClusterTables.CopyResult` | blockchain_cluster/internal/cluster/store.go:62-67 | Every member of a result gets its row. |
| `ClusterTables.CopyMembers` | blockchain_cluster/internal/cluster/store.go:62-76 | The membership table is the replay's. |
| `ClusterTables.ClusterStore.RebuildFromEvidence` | blockchain_cluster/internal/cluster/store.go:31-82 | Replaces both partitions of the chain by the replay of its active rows, other chains untouched; a reported failure leaves the tables as they were or replaced. |
| `ClusterTables.ClusterStore.ThresholdView` | blockchain_cluster/internal/cluster/store.go:219-231 | Reports exactly the clusters of the active rows at or above the threshold. |
| `ClusterTables.ClusterStore.ClusterOf` | blockchain_cluster/internal/cluster/store.go:100-132 | Answers from the tables as they are, or from a fresh replay; where the tables agree with the log this is the placement of the address in the view. |
| `ClusterTables.ClusterStore.SameCluster` | blockchain_cluster/internal/cluster/store.go:193-210 | Compares the two answers and takes the lower confidence; where the tables agree with the log this is whether the addresses are together in the view, and the lower of their confidences there. |
| `ClusterTables.PlacementReadsCluster` | blockchain_cluster/internal/cluster/store.go:118-132 | An address has a placement exactly if touched, and it names the id and confidence of its cluster. |
| `ClusterTables.SamePlacementIffTogether` | blockchain_cluster/internal/cluster/store.go:193-210 | Comparing ids is the same as being connected: ids of different clusters differ. |
| `Ledger.StepAdvances` | blockchain_cluster/docs/02-data-model.md:70 | No operation, failed or not, drops a row, alters a merge field or revives a row. |
| `Ledger.RunKeepsLog` | blockchain_cluster/docs/02-data-model.md:70 | The same over every run. |
| `Ledger.StepKeepsOtherChains` | blockchain_cluster/internal/cluster/store.go:44-49 | No operation about other chains, failed or not, disturbs the agreement of a chain. |
| `Ledger.SparesCacheIffNoForeignClaim` | blockchain_cluster/internal/pipeline/pipeline.go:158-167 | Recording claims with success for one chain costs another chain its agreement in no state if and only if none of the claims is on that other chain. |
| `MixedBatch.RunSparesCacheIff` | blockchain_cluster/internal/pipeline/pipeline.go:147-167 | The same of a batch that the batcher hands back and of what the pipeline records for it. |
| `MixedBatch.ForeignClaimsNameNoBlock` | blockchain_cluster/internal/consumer/batcher.go:36-46 | What such a batch leads to on any chain but the one it is run for names no block. |
| `MixedBatch.CoSpendersAreClaimed` | blockchain_cluster/internal/heuristic/commoninput.go:54-87 | Two unexcluded spenders of one transaction that are no hubs lead to a claim on its chain. |
| `MixedBatch.MixedBatchLeavesStaleCache` | blockchain_cluster/internal/pipeline/pipeline.go:147-167 | Counterexample to rebuilding the batch's chain being enough: two deltas without a block hash followed by one of another chain are handed back as one batch, whose run records a claim on the first chain and leaves that chain's cache stale. |
| `Ledger.SuccessAndAgreement` | blockchain_cluster/internal/reorg/handler.go:75-81 | After success the cache agrees: always for recording and rebuilding; for an invalidation if and only if it changed a row or the cache agreed before. |
| `Ledger.RunKeepsAgreement` | blockchain_cluster/docs/02-data-model.md:102 | Over every run whose operations on a chain succeed, and whose other operations are about other chains only, an agreeing cache stays in agreement. |
| `Ledger.RetriedRollbackLeavesStaleCache` | blockchain_cluster/internal/reorg/handler.go:75-77 | Counterexample: a rollback failing after invalidation and then retried reports success over a stale cache. |
| `Ledger.RollbackAlgebra` | blockchain_cluster/internal/reorg/handler.go:46-82 | Rollbacks commute, two equal one of the union, and repeating one changes nothing: rows and cache alike. |
| `Ledger.RollbackReach` | blockchain_cluster/internal/reorg/handler.go:41-45 | No active row stays on a rolled-back block, and no other row changes. |
| `Ledger.RollbackDropsRows` | blockchain_cluster/docs/03-clustering-algorithms.md:305-309 | A rollback removes exactly the rows of its blocks from what is replayed, order kept. |
| `Ledger.UnaffectedClusterSurvives` | blockchain_cluster/internal/reorg/handler.go:41-45 | A cluster none of whose rows was rolled back is reproduced unchanged. |
| `ReorgHandler.Handler.StrikeCandidates` | blockchain_cluster/internal/reorg/handler.go:56-73 | Strikes active candidates one by one, counts those that changed, and on failure has struck only such rows. |
| `ReorgHandler.Handler.OnReorg` | blockchain_cluster/internal/reorg/handler.go:46-82 | Is a rollback step of the ledger, succeeded or failed, and counts the invalidated rows. |
| `ReorgHandler.Handler.OnManualCorrection` | blockchain_cluster/internal/reorg/handler.go:88-106 | Is a correction step of the ledger, succeeded or failed, and says whether the row was active. |
| `CommonInput.GroupByTx` | blockchain_cluster/internal/ingestor/derive.go:32-45 | One group per transaction in order of first appearance, holding exactly its deltas in order. |
| `CommonInput.SpentAddresses` | blockchain_cluster/internal/ingestor/derive.go:51-64 | The spending addresses, once each, in order of first appearance. |
| `CommonInput.StarOfGroup` | blockchain_cluster/internal/heuristic/commoninput.go:54-86 | The star of one transaction over its non-hub spenders. |
| `CommonInput.Generate` | blockchain_cluster/internal/heuristic/commoninput.go:28-89 | The candidates of a batch are the stars of its non-excluded transactions, or none where the heuristic is off. |
| `CommonInput.StarCandidate` | blockchain_cluster/internal/heuristic/commoninput.go:70-85 | Every candidate joins two distinct non-hub spenders of one transaction and carries its chain, transaction and block. |
| `CommonInput.StarEqualsAllPairs` | blockchain_cluster/internal/heuristic/commoninput.go:66-86 | On top of any log, recording the stars groups addresses exactly as linking every pair of co-spenders would. |
| `CommonInput.StarSize` | blockchain_cluster/internal/heuristic/commoninput.go:66-86 | A transaction of k usable spenders costs k - 1 rows, or none below two. |
| `Pipeline.BatchRedelivery` | blockchain_cluster/internal/consumer/consumer.go:51-59 | Processing a batch again while its first rows are active leaves every cluster and confidence as it was, for the candidates of all heuristics, which all name a transaction. |
| `Pipeline.StarsAreAccepted` | blockchain_cluster/internal/merge/engine.go:43-47 | Where no address that was no hub at generation has become one when its candidate is recorded, the second hub check rejects nothing. |
| `Pipeline.MergeEngine.RecordAndMerge` | blockchain_cluster/internal/merge/engine.go:48-79 | Rejects exactly self-loops and hubs; otherwise appends one row; a reported failure leaves the log unchanged or the row appended. |
| `Pipeline.MergeEngine.RecordAndMergeBatch` | blockchain_cluster/internal/merge/engine.go:91-105 | Appends the accepted candidates in order, all on success and a prefix on failure, at most one longer than the tally. |
| `Pipeline.GenerateAll` | blockchain_cluster/internal/pipeline/pipeline.go:148-157 | Concatenates what the heuristics generate in registration order. |
| `Pipeline.CollectOthers` | blockchain_cluster/internal/pipeline/pipeline.go:151-157 | The first failing heuristic fails the batch. |
| `Pipeline.Pipeline.Run` | blockchain_cluster/internal/pipeline/pipeline.go:122-174 | Is a record step of the ledger over the candidates of the batch that recording accepts, with the hubs asked anew for each, rebuilding last; an empty batch does nothing. |
| `Pipeline.StarsAreSourced` | blockchain_cluster/internal/heuristic/commoninput.go:70-82 | Every candidate is on the chain, the block and the transaction of some delta of the batch. |
| `Pipeline.StarsOnBlock` | blockchain_cluster/internal/heuristic/commoninput.go:70-82 | All candidates of a one-block batch are anchored to that block. |
| `Indexer.Indexer.GetBlockHash` | blockchain-indexer/cmd/indexer/main.go:103-112 | The hash stored at a height, none exactly if nothing is stored there. |
| `Indexer.Indexer.IsContinuous` | blockchain-indexer/internal/reorg/detector.go:29-38 | True exactly if nothing is stored one below or the parent is what is stored there. |
| `Indexer.Indexer.FindRollback` | blockchain-indexer/internal/reorg/detector.go:45-66 | Terminates, and returns the split point together with the stored hashes above it, highest first. |
| `Indexer.SplitIsUnique` | blockchain-indexer/internal/reorg/detector.go:40-44 | There is at most one split point. |
| `Indexer.Indexer.PersistBlockAndCursor` | blockchain-indexer/cmd/indexer/main.go:217-239 | Stores the block unless its hash is there and advances the cursor, both or neither, whatever the commit reports. |
| `Indexer.Indexer.PublishReorg` | blockchain-indexer/internal/kafka/publisher.go:48-55 | Publishes the notice, or fails having delivered it or not. |
| `Indexer.Indexer.DeleteBlocksFromHeight` | blockchain-indexer/internal/state/block.sql.go:14-27 | Keeps exactly the blocks below the height; a failed call may have done so. |
| `Indexer.Indexer.UpsertCursor` | blockchain-indexer/cmd/indexer/main.go:261-263 | Brings the cursor back to the ancestor; a failed call may have done so. |
| `Indexer.Indexer.HandleReorg` | blockchain-indexer/cmd/indexer/main.go:243-265 | On success: find, announce, delete, rewind in that order, leaving what lies at or below the split point; wherever it fails the actions so far are a legal run. |
| `Indexer.Indexer.ExtractDeltas` | blockchain-indexer/cmd/indexer/main.go:186-194 | Concatenates the deltas of the transactions that extract, in order, skipping the others. |
| `Indexer.Indexer.PublishDeltas` | blockchain-indexer/internal/kafka/publisher.go:34-45 | Publishes all deltas, or fails having delivered some prefix. |
| `Indexer.Indexer.Advance` | blockchain-indexer/cmd/indexer/main.go:186-207 | Publishes first, stores and advances last; a failure leaves storage and cursor as they were or both advanced. |
| `Indexer.Indexer.Iterate` | blockchain-indexer/cmd/indexer/main.go:121-212 | Every pass, with any node answers and failures, is a legal run of the machine; without failures it waits at the tip, advances over a continuous block, or rolls back to the split point. |
| `IndexerMachine.RolledBackIsExact` | blockchain-indexer/cmd/indexer/main.go:243-263 | The list announced is exactly what the delete removes, in descending height. |
| `IndexerMachine.EveryRunIsSafe` | blockchain-indexer/cmd/indexer/main.go:196-263 | In every run that may stop between any two actions there is never a block above the cursor nor two at one height, everything stored was published before and everything deleted was listed before. |
| `IndexerMachine.PublishedBeforeStored` | blockchain-indexer/cmd/indexer/main.go:203-207 | Whenever a hash is stored its publication succeeded earlier in the run; whenever one has been deleted a reorg message of the log lists it. |
| `IndexerMachine.DeletedAfterListed` | blockchain-indexer/cmd/indexer/main.go:253-263 | An action that takes a stored block away is a delete, and an earlier action of the run announced a list with that block. |
| `IndexerMachine.EveryRunIsBelievable` | blockchain-indexer/cmd/indexer/main.go:196-263 | In every run, blocks the log vouches for are stored, about to be, or left over from a cut-off publication; stored ones are vouched for unless they had no deltas or were announced as rolled back. |
| `IndexerMachine.VouchedBlocksStoredIffNoStrays` | blockchain-indexer/cmd/indexer/main.go:196-207 | At rest, all blocks the log vouches for are stored if and only if every block whose publication was cut off has been stored or rolled back since. |
| `IndexerMachine.UnbrokenLogIsStored` | blockchain-indexer/cmd/indexer/main.go:196-263 | In a run without failures the log vouches for stored blocks only. |
| `IndexerMachine.StopLeavesOrphanInLog` | blockchain-indexer/cmd/indexer/main.go:196-207 | Counterexample: stopping between publishing and storing, followed by a switch of the node, leaves a block in the log that no reorg message ever names. |
| `Convergence.CanonicalBelow` | blockchain-indexer/internal/reorg/detector.go:40-44 | Below a canonical block all of contiguous hash-linked storage is canonical. |
| `Convergence.CommonAncestor` | blockchain-indexer/internal/reorg/detector.go:45-66 | A stored block is canonical if and only if it lies at or below the split point. |
| `Convergence.ContinuousIffCanonical` | blockchain-indexer/internal/reorg/detector.go:29-38 | The next canonical block fits if and only if all of storage is canonical. |
| `Convergence.InsertKeepsContiguous` | blockchain-indexer/cmd/indexer/main.go:203-207 | Storing a block that fits prolongs contiguous storage. |
| `Convergence.CutKeepsContiguous` | blockchain-indexer/cmd/indexer/main.go:258-263 | Deleting from a height leaves contiguous storage up to it. |
| `Convergence.PassOutcome` | blockchain-indexer/cmd/indexer/main.go:172-207 | What one pass does to canonical and to orphaned storage. |
| `Convergence.Pass` | blockchain-indexer/cmd/indexer/main.go:121-212 | One pass below the tip grows canonical storage by a block, or cuts orphaned storage back to its canonical part. |
| `Convergence.FollowFixedChain` | blockchain-indexer/cmd/indexer/main.go:121-212 | Against a fixed chain with its tip above the cursor the loop terminates with cursor at the tip and every stored hash canonical, after exactly one rollback if some stored block was orphaned and none otherwise. |
| `Contiguity.ContiguousUnlessTorn` | blockchain-indexer/cmd/indexer/main.go:258-263 | For node answers that may change at will, every action keeps storage contiguous if and only if it is not a stop between the delete and the cursor rollback that leaves blocks below the cursor. |
| `Contiguity.StopTearsHole` | blockchain-indexer/cmd/indexer/main.go:258-263 | Such a stop is reached: a legal run of an honest node's blocks ends with the cursor above the last stored block. |
| `Contiguity.FollowOverHole` | blockchain-indexer/cmd/indexer/main.go:121-212 | After it, against a fixed chain, the loop never rolls back, stores and publishes exactly the node's blocks above the cursor, and leaves the hole empty for good. |
| `Contiguity.RunStaysContiguous` | blockchain-indexer/cmd/indexer/main.go:121-265 | Over every run without such a stop storage is contiguous and hash-linked. |
| `Contiguity.RestIsTidy` | blockchain-indexer/cmd/indexer/main.go:121-212 | Such a run at rest meets what convergence starts from. |
| `Consumer.Batcher.constructor` | blockchain_cluster/internal/consumer/batcher.go:27-29 | Nothing is pending. |
| `Consumer.Batcher.Add` | blockchain_cluster/internal/consumer/batcher.go:36-46 | Hands back the whole pending batch exactly when the delta starts another block and the pending one is hashed; the delta always joins what is pending. |
| `Consumer.Batcher.Flush` | blockchain_cluster/internal/consumer/batcher.go:51-56 | Hands back and clears all that is pending. |
| `Consumer.BatchIsOneBlockIff` | blockchain_cluster/internal/consumer/batcher.go:36-46 | A batch is of one chain and block if and only if no delta without a block hash is followed in it by one of another block. |
| `Consumer.ForeignDeltasAreUnhashed` | blockchain_cluster/internal/consumer/batcher.go:36-46 | In a batch that is handed back, every delta of another chain than the one it is run for carries no block hash. |
| `MixedBatch.HandBackMixedBatch` | blockchain_cluster/internal/consumer/batcher.go:36-46 | Such a batch does arise: one that spans two chains is handed back. |
| `Consumer.RollbackFollowsDeltasIff` | blockchain_cluster/internal/consumer/consumer.go:122-136 | At each rollback acted on, all deltas consumed before it have been run if and only if no run had failed by then. |
| `Consumer.CommittedWasProcessed` | blockchain_cluster/internal/consumer/consumer.go:33-36 | Only messages that were run, acted on or unparseable are ever committed. |
| `Consumer.Consumer.Commit` | blockchain_cluster/internal/consumer/consumer.go:156-158 | Commits exactly what the last effect completed. |
| `Consumer.Consumer.RunAndCommit` | blockchain_cluster/internal/consumer/consumer.go:149-160 | Runs a batch and then commits it; a failed run commits nothing; an empty batch does nothing. |
| `Consumer.Consumer.FlushBatch` | blockchain_cluster/internal/consumer/consumer.go:144-147 | Runs and commits what is pending, which is drained even on failure. |
| `Consumer.Consumer.Act` | blockchain_cluster/internal/consumer/consumer.go:129-132 | Acts on the rollback and then commits it. |
| `Consumer.Consumer.HandleReorg` | blockchain_cluster/internal/consumer/consumer.go:122-132 | The pending batch is run and committed before the rollback is acted on and committed. |
| `Consumer.Consumer.HandleDelta` | blockchain_cluster/internal/consumer/consumer.go:135-141 | The delta joins what is pending; a completed batch is run and committed. |
| `Consumer.Consumer.Skip` | blockchain_cluster/internal/consumer/consumer.go:112-120 | A message that cannot be parsed is committed and disposes of nothing. |
| `Consumer.Consumer.Handle` | blockchain_cluster/internal/consumer/consumer.go:112-142 | Keeps conservation: what was disposed of, in order, followed by what is pending, is what was consumed; unless it fails, what it batches is a function of what was pending and the message. |
| `Consumer.Consumer.Select` | blockchain_cluster/internal/consumer/consumer.go:82-108 | A failed tick is forgotten, a fetch error ends the loop, a shutdown flushes. |
| `Consumer.Consumer.Run` | blockchain_cluster/internal/consumer/consumer.go:60-110 | Over any events conservation and commit discipline hold; it stops only on failure or shutdown; without ticks a successful run contains no failed call; unless it fails, the events alone decide which messages were batched together and which are pending. |
| `Delivery.FoldOfChain` | blockchain_cluster/internal/consumer/consumer.go:122-141 | Other chains' messages on the topic change nothing for a chain. |
| `Delivery.CaughtUpBelievesTheLog` | blockchain_cluster/internal/consumer/consumer.go:55-59 | At-least-once delivery is exact: however often reading fell back to earlier offsets, once caught up folding what was delivered equals folding the log. |
| `EndToEnd.RecordedClaimsAreSourced` | blockchain_cluster/internal/pipeline/pipeline.go:148-163 | What the pipeline records for a batch, with hub flags asked anew for each candidate, is on the chains and blocks of its deltas. |
| `EndToEnd.RunMeansRecording` | blockchain_cluster/internal/pipeline/pipeline.go:140-167 | What a run of the pipeline promises about a batch, on success and on failure, is what the consumer's call means in a history. |
| `EndToEnd.StepKeepsSupport` | blockchain_cluster/internal/consumer/consumer.go:112-160 | Every consumer effect and operator action, failed or not, keeps active rows on believed blocks. |
| `EndToEnd.ActiveRowsAreBelieved` | blockchain_cluster/internal/reorg/handler.go:46-82 | At every point of every history, with failures, retries and corrections, each active row's block is in the fold of the processed messages. |
| `EndToEnd.ActiveRowsAreConsumed` | blockchain_cluster/internal/consumer/consumer.go:112-160 | At every consumed prefix each active row's block is in the fold of the messages consumed, under the consumer's invariant. |
| `EndToEnd.ActiveRowsAreOnStoredBlocks` | blockchain-indexer/cmd/indexer/main.go:243-265 | Caught up with the log of any legal indexer run, active rows are on stored blocks or ones whose publication was cut off; after a run without failures, on stored blocks only. |
| `EndToEnd.CacheRestsOnCanonicalBlocks` | blockchain_cluster/internal/cluster/store.go:25-30 | With canonical storage and an agreeing cache, both tables are what replaying the rows on canonical blocks or on no block gives. |
| `EndToEnd.HistoryKeepsAgreement` | blockchain_cluster/docs/02-data-model.md:102 | In a history without failures, of batches of one chain each, the cache keeps agreeing with the log. |
| `EndToEnd.RowSurvivesIffNeverStruck` | blockchain_cluster/internal/reorg/handler.go:41-45 | In such a history a row stays active if and only if no rollback lists its block and no correction names it. |
| `BlockLog.StandingIsStored` | blockchain-indexer/cmd/indexer/main.go:196-263 | In a run without failures, at rest, the blocks added and not removed in the log are exactly the stored ones, in ascending height. |
| `CanonicalCache.StrikingRemovesEntries` | blockchain_cluster/internal/reorg/handler.go:46-82 | Striking the rows of rolled-back blocks is removing those blocks from the list the rows came from. |
| `CanonicalCache.LedgerIsFoldOfBatches` | blockchain_cluster/internal/reorg/handler.go:41-45 | In every history of successful calls with one-block batches, whatever claims each batch led to and with rebuilds but no corrections by an operator, the active rows of a chain are exactly the claims of the batches whose block was not rolled back afterwards, in the order they were run. |
| `BlockLog.GroupingIsUnique` | blockchain_cluster/internal/consumer/batcher.go:36-46 | A log can be cut into whole blocks in one way only. |
| `BlockLog.WrittenIsLog` | blockchain-indexer/cmd/indexer/main.go:196-256 | The blocks and rollbacks an unbroken run writes are, message by message, its log. |
| `BlockLog.WrittenIsWhole` | blockchain-indexer/cmd/indexer/main.go:196-207 | An unbroken run never adds one block twice in a row. |
| `CanonicalCache.WorkedIsProcessed` | blockchain_cluster/internal/consumer/consumer.go:112-160 | The batches and rollbacks the ledger worked off for a chain are, message by message, what it processed of that chain. |
| `CanonicalCache.WorkedIsWritten` | blockchain_cluster/internal/consumer/consumer.go:112-160 | Having processed a chain's log with no batch boundary inside a block, the ledger worked off exactly the blocks and rollbacks the indexer wrote. |
| `CanonicalCache.CacheIsReplayOfStoredBlocks` | blockchain_cluster/docs/03-clustering-algorithms.md:298-318 | Both services without failures: the active rows of a chain are the claims recorded for the stored blocks when each was last adopted, block by block in ascending height, and the cache is their replay. |
| `CanonicalCache.RecordedOnBlock` | blockchain_cluster/internal/pipeline/pipeline.go:148-163 | Whatever the hubs, exclusions and settings of the moment, what the pipeline records for a one-block batch is on that block. |
| `CanonicalCache.HashedBatchIsOneBlock` | blockchain_cluster/internal/consumer/batcher.go:36-46 | A batch of deltas that carry block hashes is of one chain and one block. |
| `CanonicalCache.RunMeansExactly` | blockchain_cluster/internal/pipeline/pipeline.go:140-167 | What a successful run of the pipeline promises about such a batch is an exact recording of its claims. |
| `WholeBlocks.BlocksStayWholeIffUncut` | blockchain_cluster/internal/consumer/consumer.go:82-108 | No block is split between two batches in a row if and only if no tick or shutdown comes between two deltas of one block that follow each other. |
| `WholeBlocks.RunDrains` | blockchain_cluster/internal/consumer/consumer.go:60-110 | A loop that ends without failure on a tick or the shutdown leaves nothing pending, and has disposed of what arrived, batched as the events say. |
| `WholeBlocks.ApartIsWhole` | blockchain_cluster/internal/consumer/consumer.go:112-160 | Where no two batches in a row split a block, the ledger works off whole blocks, never one block twice in a row. |
| `WholeBlocks.UncutIsWhole` | blockchain_cluster/internal/consumer/consumer.go:60-110 | Ticks that fall between blocks, and one chain on the topic, make the ledger work off whole blocks. |
| `WholeBlocks.LogIsOfChain` | blockchain-indexer/internal/kafka/publisher.go:34-55 | An unbroken run of the indexer puts messages of its own chain on the log only. |
| `WholeBlocks.DrainedCacheIsReplayOfStoredBlocks` | blockchain_cluster/docs/03-clustering-algorithms.md:298-318 | From the events alone: a consumer whose topic is the log of one indexer, whose ticks fall between blocks and which ends drained without failure, holds the claims last recorded for the stored blocks, in ascending height, and the cache is their replay. |

## Left out

- Kafka and Postgres clients, RPC, HTTP handlers, metrics, configuration, backoff and sleeping: their calls are steps that may fail.
- Audit records: only whether writing one fails matters, and it may.
- Timestamps, `created_by` and entity types: nothing modelled reads them.
- SHA-256 in the cluster id: taken as an injective function of the anchor. Block hashes are taken to commit to height and parent where a theorem says so.
- Float and NUMERIC(4,3) rounding: exact reals, in which the noisy-OR product does not depend on order.
- Integer widths: heights, row numbers and amounts are unbounded.
- Sweep, change, funding, deployer and behavioral heuristics: arbitrary candidates; all of them anchor a candidate to a transaction of the batch, which `EndToEnd.RecordedClaimsAreSourced`, `Pipeline.BatchRedelivery`, `EndToEnd.RunMeansRecording` and `CanonicalCache.RunMeansExactly` assume of them.
- Hub, collaborative-transaction and dust marking, labels, seeds: hub flags and exclusions are inputs, unchanged while the candidates of one batch are generated; recording asks for the hubs anew for each candidate. A row recorded before an address was flagged stays active.
- Ingesting deltas into their table: a step before everything else that may fail. The heuristics modelled read the batch itself.
- Paging of members (`MembersOf`): would add only slicing.
- Message parsing: a message is a delta, a reorg notice or unparseable.
- Several chains in one indexer process: one chain per machine; the consumer and the ledger handle any number.
- Concurrency between the consumer and operator corrections: their calls are atomic with respect to each other.
- Cumulative offset commits: commits are modelled per message, so that committing past a pending batch on an unparseable message does not count as committing the batch.
- CanonicalCache.LedgerIsFoldOfBatches: is about successful calls, one-block batches and no corrections by hand.
- CanonicalCache.CacheIsReplayOfStoredBlocks: takes whole-block batches, one delivery of the log and no failed call or correction by hand; `WholeBlocks.UncutIsWhole` derives the whole blocks where ticks fall between blocks and one chain is on the topic. Histories with failures, redelivery or corrections are covered by `EndToEnd.ActiveRowsAreBelieved`.
- WholeBlocks.BlocksStayWholeIffUncut: asks about two batches in a row; a block whose deltas are interleaved with those of another chain on the topic is run in several batches as well.
- EpsilonView.ZeroRowsMakeNoDifference: is a sufficient condition for equal confidences; an exact one would replay both sides, since dropping rows can change which links are kept.
- Convergence.FollowFixedChain: is about passes without failures from a cursor below the tip; a first start without a cursor is covered by `Indexer.Indexer.Iterate`.
- Consumer.Consumer.Run: says nothing of how often ticks come; a tick whose run fails has lost its batch until redelivery, and the effect history shows it as a failed run.
- Indexer.Indexer.ExtractDeltas: skips a transaction that fails to extract, as the code does; that every transaction is published is not claimed.
- The sort of the combined edges is given as insertion by first appearance; the order being unique, any sort does the same.
