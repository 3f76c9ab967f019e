# Verified model of the identity-graph platform

This project models, in Dafny, the parts of the platform whose correctness does
not show in a single function body, and proves what they promise:

- **Attack-path search.** One worklist loop in three modes (`all`, `shortest`,
  `weighted`) with a depth bound, a result cap, several sources and directed or
  undirected relationships; the choke-point statistics over its results; the
  breadth-first search behind the blast radius; and the recursive access-path
  walk of the front end, which is shown to find the same paths.
- **Imports.** The lease-based job queue over whole runs of any number of
  workers, the polling worker, the row chunks and the graph chunks.
- **Rate limiting.** Token buckets over real numbers, with eviction.
- **Risk findings.** The repository of findings as mutable, aliased objects, the
  scan over it, and all histories of scans and status changes.
- **Pipeline.** The executor with pauses, resuming, stepping and stepping back.
- **Identity merge.** Matching, conflicts and field priority, the merge in place
  and its preview.

Code that updates state is written as methods and classes, each proved equal to a
function of the old state; what the state may become over a whole run is proved
about those functions. Code that only computes is written as functions.

## Layout

| file | content |
|---|---|
| `Wrappers.dfy` | types and functions that several models share |
| `Sequences.dfy` | sequences without repetition, stable insertion sort, concatenation |
| `AccessGraph.dfy` | graphs, search requests and the independent notion of a route |
| `PathSearch.dfy` | one turn of the search as a function, and its termination measure |
| `SearchInvariants.dfy` | what every turn keeps |
| `SearchTheorems.dfy` | minimality, completeness and order of what is found |
| `AttackPathService.dfy` | the search as the service runs it, and what it returns |
| `SearchLimits.dfy`, `SearchTraps.dfy`, `PathScore.dfy` | exactly when a search delivers, and the families of graphs on which it does not |
| `ChokePoints.dfy`, `Reachability.dfy`, `AccessPaths.dfy` | the algorithms beside it |
| `ImportQueue.dfy`, `ImportRuns.dfy`, `ImportWorker.dfy` | queue, its runs, the worker |
| `ImportChunks.dfy`, `ImportGraphChunks.dfy` | the two chunk stores |
| `RateLimiter.dfy` | the limiter and its runs |
| `Findings.dfy`, `RiskScan.dfy` | the repository of findings and the scan |
| `Pipeline.dfy`, `PipelineRuns.dfy` | the engine and its runs |
| `IdentityFields.dfy`, `IdentityResolution.dfy`, `MergePreview.dfy` | field rules, the merge, the preview |
| `MergeMeaning.dfy` | what a merge makes of an identity, field by field |

## Where the code does less than it seems to promise

- `weighted` search prunes by cost alone while the depth bound counts hops, so a
  cheap detour can use up the hops that a dearer, shorter route would have needed,
  and a target within the bound is missed. On graphs of n nodes this can happen if
  and only if the bound is at least 3 and n is at least the bound plus 2; `shortest`
  never loses a target in this way (`SearchLimits.DeliveryCondition`,
  `SearchLimits.DepthBoundLosesTarget`).
- With a minimum score both modes can miss a path that meets it, because a path
  between the same ends that does not meet it came first. This takes no more than
  two nodes, and a minimum above the score that every path gets for its nodes alone
  and not above 100 (`SearchLimits.DeliveryCondition`,
  `SearchLimits.MinimumScoreLosesPath`).
- A second delivery of a sheet in fewer chunks than the first leaves the rest of the
  first behind to be read, be it for having fewer rows or larger chunks
  (`ImportChunks.SecondImportReads`, `ImportChunks.ShorterImportLeavesRow`,
  `ImportChunks.LargerChunksLeaveRows`).
- A claim does not look at `maxAttempts`: on every run, attempts stay within it
  exactly when no claim takes the job with no attempt left
  (`ImportRuns.BudgetCondition`). If only holders report and the job is not
  recovered, this comes down to claims that take over a job in hand
  (`ImportRuns.HeldBudgetCondition`). Both leases that run out and recoveries lead
  beyond every maximum by any amount (`ImportRuns.BudgetCanBeOverrun`,
  `ImportRuns.RecoveryCanOverrun`).
- A cancelled job does not stay cancelled when its holder reports completion or a
  permanent failure, or when it is recovered from an earlier copy
  (`ImportRuns.CancellationCondition`).
- `start` keeps the completed stages of an earlier run, so a second start skips
  them (`PipelineRuns.StartIsFreshExactly`, `PipelineRuns.RestartSkipsEverything`).
- For a node that is already a source of the identity, the preview announces no
  change. The merge agrees exactly when it refuses the node, or when what it
  recomputes is up to date and the node names no new account, group or role
  (`MergePreview.PreviewOfKnownNode`). After a merge all of it is up to date; after
  creation it is so exactly when the identity fields are the node's filled
  properties, which one property of another kind prevents
  (`MergePreview.PreviewAfterMerge`, `MergePreview.PreviewAfterCreation`,
  `MergePreview.MisforetoldAfterMerge`, `MergePreview.DepartmentIsNotForetold`). A
  node without an id is refused by the preview but not by the merge
  (`MergePreview.PreviewIsMerge`).
- `reachable` walks through ids that have no node, the path search does not; they
  differ on exactly the nodes that are reached in no other way
  (`Reachability.ReachableIffPath`).

## Model

| member | source | states |
|---|---|---|
| `AttackPathService.Discover` | apps/backend/src/attack-path/attack-path.service.ts:76-106 | the loop over adjacency map, re-sorted queue, cost table and reported paths returns the truncated list of the specified search, in which hops (in `weighted` mode total weights) never decrease, among equals scores never increase, and outside `weighted` mode the identifiers settle the rest; it times out exactly when the deadline check of one of its turns fails |
| `AttackPathService.BuildAdjacency` | apps/backend/src/attack-path/attack-path.service.ts:85-88 | the adjacency map lists the allowed relationships incident to each node, in the undirected case under both ends |
| `AttackPathService.Turn` | apps/backend/src/attack-path/attack-path.service.ts:92-104 | one turn of the loop on the sorted queue is one step of the specification, in which the first least state is removed |
| `AttackPathService.PushNeighbours` | apps/backend/src/attack-path/attack-path.service.ts:98-103 | the inner loop pushes the neighbours that are neither on the path, nor missing, nor pruned, and updates the cost table as it goes |
| `Sequences.TurnOnSortedQueue` | apps/backend/src/attack-path/attack-path.service.ts:94 | sorting the whole queue again before each shift takes the same element as removing the first least one, and the two queues stay equal once sorted |
| `PathSearch.StepDescends` | apps/backend/src/attack-path/attack-path.service.ts:92-104 | every turn shrinks a measure over the states still to come, on cyclic graphs too and in all modes, without timeout or cap |
| `SearchInvariants.StepKeepsInv` | apps/backend/src/attack-path/attack-path.service.ts:92-104 | every turn keeps: all states are simple allowed routes, pops are in order, no state twice, the cost table is backed by states, expanded states have their neighbours covered |
| `SearchInvariants.StepKeepsOrdered` | apps/backend/src/attack-path/attack-path.service.ts:94 | costs, in the other modes hops, never decrease from one pop to the next, and no waiting state precedes a popped one |
| `SearchInvariants.PickedIsFirst` | apps/backend/src/attack-path/attack-path.service.ts:94 | the state that is removed has the least cost, outside `weighted` mode the fewest hops; among those it stands on the first node, and among those it is the oldest |
| `SearchInvariants.StepKeepsClosed` | apps/backend/src/attack-path/attack-path.service.ts:98-103 | pruning loses nothing: for each hop out of an expanded state there is a generated state of the same pair that is no worse |
| `SearchTheorems.Frontier` | apps/backend/src/attack-path/attack-path.service.ts:92-103 | at every moment each competing route is matched by a generated state of its pair or preceded by a waiting one |
| `SearchTheorems.FirstPoppedIsMinimal` | apps/backend/src/attack-path/attack-path.service.ts:92-103 | the first state popped for a source and node has the fewest hops within the depth bound in `shortest` mode, the least weight in `weighted` mode if the bound cut nothing, capped or not, whatever the minimum score |
| `SearchTheorems.DeepEnoughCutsNothing` | apps/backend/src/attack-path/attack-path.service.ts:97 | a depth bound of at least the number of nodes less one cuts nothing |
| `SearchTheorems.FoundInOrder` | apps/backend/src/attack-path/attack-path.service.ts:95-96 | the reported paths are exactly the popped routes on targets that meet the minimum score, in pop order, each once and never beyond the cap |
| `SearchTheorems.AllIsExact` | apps/backend/src/attack-path/attack-path.service.ts:76-105 | an `all` search finds wanted paths only, all of them if the cap was not reached, and otherwise omits none that is shorter than a found one |
| `SearchTheorems.FirstFoundIsMinimal` | apps/backend/src/attack-path/attack-path.service.ts:92-103 | the first path reported for a pair is minimal among the routes in scope |
| `SearchTheorems.EveryTargetIsFound` | apps/backend/src/attack-path/attack-path.service.ts:92-103 | unless the cap stops the search, every target that a route in scope reaches is reported from the same source |
| `AttackPathService.ReturnedIsFound` | apps/backend/src/attack-path/attack-path.service.ts:105 | ranking permutes the found paths, the final slice drops none, and each returned path stands before the next by hops or total weight, then higher score, then identifier |
| `AttackPathService.TiesInOrderOfDiscovery` | apps/backend/src/attack-path/attack-path.service.ts:105 | `weighted` paths of the same weight and score are returned in the order in which they were found |
| `AttackPathService.FirstReturnedIsMinimal` | apps/backend/src/attack-path/attack-path.service.ts:89-105 | the first returned path of a pair is minimal among all routes in scope between its ends |
| `AttackPathService.WeightedIsCheapest` | apps/backend/src/attack-path/attack-path.service.ts:89-105 | with room for every simple route, the first returned path of a pair has the least total weight of all allowed routes past no other target |
| `AttackPathService.ShortestIsShortest` | apps/backend/src/attack-path/attack-path.service.ts:92-103 | the first returned path of a pair has the fewest hops of all allowed routes past no other target, although pruning compares costs |
| `AttackPathService.TargetsReturned` | apps/backend/src/attack-path/attack-path.service.ts:89-105 | an untruncated search returns a path between a source and a target if and only if an allowed route within the bound joins them past no other target |
| `AttackPathService.AllReturnsExactly` | apps/backend/src/attack-path/attack-path.service.ts:76-105 | an untruncated `all` search returns exactly the simple allowed paths of 1 to maxDepth hops that end on a target and meet the minimum score, each once; a truncated one omits none shorter than a returned one |
| `SearchLimits.DeliveryCondition` | apps/backend/src/attack-path/attack-path.service.ts:92-103 | for given mode, number of nodes, depth bound, minimum score and least score that nodes alone give: every such untruncated search, scored as the service scores, returns for each route within the bound that meets the minimum and passes no other target a path between its ends that is no worse, if and only if a condition on these numbers holds that a caller can look up |
| `SearchLimits.DepthBoundLosesTarget` | apps/backend/src/attack-path/attack-path.service.ts:97-101 | for every bound of 3 or more and every number of nodes above the bound plus 1 there is a `weighted` search, not stopped by the cap, that returns nothing although a target lies within the bound and its path scores enough |
| `SearchLimits.MinimumScoreLosesPath` | apps/backend/src/attack-path/attack-path.service.ts:95-101 | for every minimum score above what nodes alone give and up to 100 there is a search in either mode, scored as the service scores, that returns nothing although a single hop leads to the target and meets the minimum |
| `SearchLimits.ShortRouteMatched` | apps/backend/src/attack-path/attack-path.service.ts:98-103 | when the queue is drained, every route of at most two hops is matched by a popped state that is no dearer, whatever the table has pruned |
| `SearchTraps.StepKeepsTabled` | apps/backend/src/attack-path/attack-path.service.ts:100-101 | the cost table has an entry for every generated state that is no greater than its cost |
| `SearchTraps.DetourFails` | apps/backend/src/attack-path/attack-path.service.ts:97-101 | the cheap chain with one hop too many keeps the dear way out of the queue |
| `SearchTraps.SideBySideFails` | apps/backend/src/attack-path/attack-path.service.ts:95-101 | the first of two parallel relationships of equal weight keeps out the second, whose path alone meets the score |
| `SearchTraps.SetSideBySide` | apps/backend/src/attack-path/attack-path.service.ts:96 | a membership and a key relationship side by side are such a pair under the service's scoring |
| `PathScore.TotalScore` | apps/backend/src/attack-path/path-scoring.service.ts:2 | what the nodes give is never lowered by the relationships and the total never exceeds 100 |
| `ChokePoints.Analyse` | apps/backend/src/attack-path/attack-path.service.ts:48-56 | one entry for every node strictly inside some path of the `all` search and for no other: the number of distinct paths through it, of their distinct sources and targets, and a percentage within half a hundredth of their true share; entries in order of falling count, then rising node |
| `ChokePoints.Tally` | apps/backend/src/attack-path/attack-path.service.ts:50-54 | the nested loop collects, per interior node, the paths through it with their sources and targets |
| `ChokePoints.StatMeaning` | apps/backend/src/attack-path/attack-path.service.ts:51-53 | a node's entry holds exactly the paths that have it inside, and exactly the sources and targets of those |
| `ChokePoints.ChokePointIsCut` | apps/backend/src/attack-path/attack-path.service.ts:48-56 | between one source and one target, a node counts on every path exactly when deleting it from the graph leaves no path within the bound |
| `ChokePoints.FullShare` | apps/backend/src/attack-path/attack-path.service.ts:55 | with at most 200 paths the rounded percentage is 100 exactly for nodes on every path |
| `ChokePoints.PercentIsClose` | apps/backend/src/attack-path/attack-path.service.ts:55 | the rounded percentage has two decimals and lies within 0.005 of the true share |
| `ChokePoints.ReportsMeasured` | apps/backend/src/attack-path/attack-path.service.ts:50-55 | whatever list the grouping reports, its counts are those of the paths through each node and of their ends, and counts never increase along it |
| `ChokePoints.CountsAddUp` | apps/backend/src/attack-path/attack-path.service.ts:50-55 | over any list of nodes that covers the insides of the paths, the path counts add up to the insides' total length |
| `ChokePoints.ReportedCountsAddUp` | apps/backend/src/attack-path/attack-path.service.ts:48-56 | the path counts of the reported entries add up to the sum of depth less one over the paths of the search |
| `Reachability.Explored` | apps/backend/src/attack-path/attack-path.service.ts:108-112 | the nodes within maxDepth hops and no others, the largest distance among them, and one tree relationship per further node from an earlier node that is exactly one hop nearer |
| `Reachability.VisitAll` | apps/backend/src/attack-path/attack-path.service.ts:110 | going through the relationships of one node keeps the two-level queue and the tree, and handles that node completely |
| `Reachability.Blast` | apps/backend/src/attack-path/attack-path.service.ts:39-46 | an unknown node is refused; else the affected nodes are the other existing nodes within the bound, each once, their number is the reported count, and the reported depth is the largest distance within the bound |
| `Reachability.DistanceRoute` | apps/backend/src/attack-path/attack-path.service.ts:108-112 | a node at distance k is the end of a simple route of k hops |
| `Reachability.ReachableIffPath` | apps/backend/src/attack-path/attack-path.service.ts:108-112 | being within reach and having a path in an uncapped `all` search agree on another node unless every walk to it within the bound passes an id without a node; without dangling relationships they always agree |
| `Reachability.PathIffWalk` | apps/backend/src/attack-path/attack-path.service.ts:76-105 | an uncapped `all` search returns a path if and only if some walk within the bound leads there over existing nodes |
| `Reachability.DanglingDisagrees` | apps/backend/src/attack-path/attack-path.service.ts:108-112 | two relationships over a missing id make the two differ |
| `AccessPaths.Traversal.Dfs` | apps/frontend/src/services/identityGraphAdapter.ts:161-219 | one recursive call records exactly the paths that go on over its link and restores the current path, and the visited ids except those without a node |
| `AccessPaths.Traversal.Loop` | apps/frontend/src/services/identityGraphAdapter.ts:161-219 | the loop over all links records exactly what continues the current path, in link order |
| `AccessPaths.TraverseAccessPaths` | apps/frontend/src/services/identityGraphAdapter.ts:161-219 | the whole walk returns the specified list; a path is direct when it has one hop |
| `AccessPaths.TraversalIsExact` | apps/frontend/src/services/identityGraphAdapter.ts:161-219 | a path is recorded if and only if it is a simple link path of 1 to maxDepth hops that leaves the existing user, and none is recorded twice |
| `AccessPaths.TraversalIsInOrder` | apps/frontend/src/services/identityGraphAdapter.ts:161-219 | every path comes before those that go on from it, and where two part, the one over the link listed earlier comes first |
| `AccessPaths.TraversalAgreesWithDiscover` | apps/frontend/src/services/identityGraphAdapter.ts:161-219 | the recursive walk and an uncapped `all` search over the same links find the same paths |
| `ImportQueue.Queue.EnqueueJob` | apps/backend/src/imports/import-queue.service.ts:17-21 | adds a queued job without attempts and changes no other |
| `ImportQueue.Queue.ClaimJob` | apps/backend/src/imports/import-queue.service.ts:23-35 | takes an oldest job that is due or whose lease has expired and puts it in hand, or nothing exactly when there is none |
| `ImportQueue.Queue.CheckpointJob` | apps/backend/src/imports/import-queue.service.ts:37-39 | stores the checkpoint and renews the lock time of that job, whoever asks |
| `ImportQueue.Queue.CompleteJob` | apps/backend/src/imports/import-queue.service.ts:41-44 | completes and unlocks that job only, whatever its status |
| `ImportQueue.Queue.FailJob` | apps/backend/src/imports/import-queue.service.ts:46-53 | leaves a cancelled job alone; otherwise it is due again base*2^(attempts-1) after the failure while attempts are left in the reporter's own copy and fails when not, with the error stored and the lock given up |
| `ImportQueue.Queue.FailJobPermanently` | apps/backend/src/imports/import-queue.service.ts:55-59 | fails and unlocks that job only |
| `ImportQueue.Queue.RequeueRecoveredJob` | apps/backend/src/imports/import-queue.service.ts:61-65 | returns the job to the queue if the given copy is live |
| `ImportQueue.Queue.CancelImport` | apps/backend/src/imports/import-queue.service.ts:67-70 | cancels exactly the live jobs of the import |
| `ImportQueue.Queue.RetryFile` | apps/backend/src/imports/import-queue.service.ts:72-77 | requeues the newest job of the file without attempts, or enqueues one exactly when there is none |
| `ImportRuns.LeaseExclusive` | apps/backend/src/imports/import-queue.service.ts:23-77 | over every run, two claims of a job are separated by a call that returned it to the queue or by a heartbeat silence longer than the lease and the stale timeout |
| `ImportRuns.ProcessingIsLocked` | apps/backend/src/imports/import-queue.service.ts:23-77 | over every run, a job in hand has an owner and a lock time that is not in the future |
| `ImportRuns.RowsAreKept` | apps/backend/src/imports/import-queue.service.ts:17-77 | over every run the stored checkpoint is that of the last checkpoint call that names the job, the owner of a job in hand is its last claimant, and error and completion time are there exactly in the states that set them |
| `ImportRuns.RetryBudget` | apps/backend/src/imports/import-queue.service.ts:32-53 | while only the holder reports on a job, its attempts are its claims since the last enqueue or manual retry, never more than the maximum, a waiting job has attempts left, and claim k+1 comes at least base*(2^k-1) after the first |
| `ImportRuns.RetryIsDue` | apps/backend/src/imports/import-queue.service.ts:46-53 | over every such run a job that waits for a retry was put there by a failure, and is due at that moment plus base*2^(n-1), where n counts its claims |
| `ImportRuns.RetryWindow` | apps/backend/src/imports/import-queue.service.ts:23-53 | it can be claimed from exactly that moment on, neither earlier nor later |
| `ImportRuns.PromptClaims` | apps/backend/src/imports/import-queue.service.ts:23-53 | if retries are claimed the moment they are due and no attempt lasts longer than d, claim k+1 comes at most k*d + base*(2^k-1) after the first |
| `ImportRuns.BudgetCondition` | apps/backend/src/imports/import-queue.service.ts:23-77 | on every run, whoever reports and whatever is recovered, the attempts of a job stay within the maximum throughout if and only if no claim takes it with no attempt left |
| `ImportRuns.HeldBudgetCondition` | apps/backend/src/imports/import-queue.service.ts:23-53 | while only the holder reports on a job and the job is not recovered, even if leases run out, its attempts stay within the maximum if and only if no claim takes it in hand when they are used up |
| `ImportRuns.RecoveryCanOverrun` | apps/backend/src/imports/import-queue.service.ts:23-65 | for every maximum, recoveries alone, without any claim of a job in hand, take the attempts beyond it by any amount |
| `ImportRuns.CancellationCondition` | apps/backend/src/imports/import-queue.service.ts:41-77 | on every run a cancelled job stays cancelled if and only if no completion, permanent failure, recovery with a live copy or manual retry names it |
| `ImportRuns.BudgetCanBeOverrun` | apps/backend/src/imports/import-queue.service.ts:23-35 | for every maximum, leases that run out one after the other take the attempts of a job beyond it by any amount |
| `ImportWorker.Worker.Tick` | apps/backend/src/imports/import-worker.service.ts:25-28 | a tick asks for a job exactly when the counter is below the limit |
| `ImportWorker.Worker.Answered` | apps/backend/src/imports/import-worker.service.ts:28-32 | a claimed job raises the counter and the tick asks again if there is room; no job ends the tick |
| `ImportWorker.Worker.Finished` | apps/backend/src/imports/import-worker.service.ts:31 | a finished job lowers the counter and ticks |
| `ImportWorker.ActiveIsBounded` | apps/backend/src/imports/import-worker.service.ts:25-33 | over every interleaving the counter is the number of running jobs and at most limit - 1 + T if at most T ticks ever await a claim at once |
| `ImportWorker.BoundIsTight` | apps/backend/src/imports/import-worker.service.ts:25-33 | that bound is reached, for every limit and T |
| `ImportChunks.ChunkStore.Append` | apps/backend/src/imports/import-chunk.service.ts:9-11 | inserts or replaces the chunk under its key, with its row range |
| `ImportChunks.ChunkStore.StoreSheet` | apps/backend/src/imports/imports.service.ts:392-401 | a pass that is interrupted after any number of appends has written exactly its first chunks |
| `ImportChunks.PassWritesSlices` | apps/backend/src/imports/imports.service.ts:396-398 | chunk i of a pass holds the rows from i*size on, at most size of them, and the numbers of the first and the last; all other chunks stay as they were |
| `ImportChunks.ChunkStore.Rows` | apps/backend/src/imports/import-chunk.service.ts:12-15 | reads all stored chunks of the sheet in index order |
| `ImportChunks.ChunkStore.LastCheckpoint` | apps/backend/src/imports/import-chunk.service.ts:16-19 | the highest stored chunk and its last row, or (-1, 0) exactly when the sheet has none |
| `ImportChunks.RedeliveryIsIdempotent` | apps/backend/src/imports/imports.service.ts:392-401 | after any interleaving of partial or repeated passes that contains a full one, the sheet reads as its rows, followed only by what lay beyond the last chunk before |
| `ImportChunks.ReadsExactlyWhenNothingIsLeft` | apps/backend/src/imports/imports.service.ts:392-401 | it reads as exactly its rows if and only if nothing lay there |
| `ImportChunks.SecondImportReads` | apps/backend/src/imports/imports.service.ts:392-401 | after two deliveries in a row, each any interleaving with a full pass, the sheet reads as exactly the rows of the second if and only if it has at least as many chunks as the first |
| `ImportChunks.ShorterImportLeavesRow` | apps/backend/src/imports/imports.service.ts:392-401 | delivering one row less leaves the last row of the first delivery to be read, whatever the rows |
| `ImportChunks.LargerChunksLeaveRows` | apps/backend/src/imports/imports.service.ts:392-401 | delivering the same rows again in fewer, larger chunks reads wrong, whatever the rows and sizes |
| `ImportChunks.DeliveryCheckpoint` | apps/backend/src/imports/import-chunk.service.ts:9-19 | after a delivery with nothing left behind it the checkpoint is the last chunk, and its last row the number of rows delivered |
| `ImportChunks.RangesTile` | apps/backend/src/imports/imports.service.ts:396-398 | the row ranges of a pass tile 1 to n without gap or overlap |
| `ImportChunks.WrittenIsOnePass` | apps/backend/src/imports/imports.service.ts:396-398 | the chunking loop, interrupted or not, is one of the passes above |
| `ImportGraphChunks.GraphChunkStore.Insert` | apps/backend/src/imports/import-graph-chunk.service.ts:39-44 | writes the values of one kind as consecutive chunks with the positions of their first and last value |
| `ImportGraphChunks.GraphChunkStore.Replace` | apps/backend/src/imports/import-graph-chunk.service.ts:13-20 | drops the import's old chunks and writes the new ones |
| `ImportGraphChunks.ReplacedInSlices` | apps/backend/src/imports/import-graph-chunk.service.ts:13-44 | chunk i of either kind holds the values from position i*size on, at most size of them, with the positions of the first and the last, and there is one exactly while such a position exists |
| `ImportGraphChunks.GraphChunkStore.ReadKind` | apps/backend/src/imports/import-graph-chunk.service.ts:22-30 | reads consecutive chunks up to the first index that is missing |
| `ImportGraphChunks.ReplaceThenLoad` | apps/backend/src/imports/import-graph-chunk.service.ts:13-37 | loading after replacing gives back exactly the nodes and relationships, whatever was stored before |
| `ImportGraphChunks.ReplaceKeepsOthers` | apps/backend/src/imports/import-graph-chunk.service.ts:13-20 | other imports load as before |
| `RateLimiter.Limiter.CanActivate` | apps/backend/src/common/rate-limiter.guard.ts:27-44 | refills by elapsed time up to the maximum and takes a token, or rejects exactly when less than one is there; a new client starts with a full bucket; other clients keep theirs |
| `RateLimiter.Limiter.Cleanup` | apps/backend/src/common/rate-limiter.guard.ts:18-23 | deletes exactly the buckets that have been idle for too long |
| `RateLimiter.EvictionIsInvisible` | apps/backend/src/common/rate-limiter.guard.ts:18-38 | in every run, with cleanups at any points, each decision equals that of a limiter that never evicts |
| `RateLimiter.RateBound` | apps/backend/src/common/rate-limiter.guard.ts:27-44 | in any window of any run, evictions included, a client's accepted requests are at most maxTokens * (1 + length/refillMs) |
| `RateLimiter.AcceptanceCondition` | apps/backend/src/common/rate-limiter.guard.ts:27-44 | in every run, evictions included, a request is accepted if and only if for every moment before it what was accepted since then leaves room for one more within maxTokens * (1 + length/refillMs) |
| `RateLimiter.RejectionHasReason` | apps/backend/src/common/rate-limiter.guard.ts:27-44 | for every rejected request a moment is found since which the accepted requests have used up a bucketful and the inflow |
| `RateLimiter.FirstRequestsAreAccepted` | apps/backend/src/common/rate-limiter.guard.ts:34-42 | the first requests of a client are all accepted, as many as whole tokens fit a bucket, at whatever times they come |
| `RateLimiter.PatientIsNeverRejected` | apps/backend/src/common/rate-limiter.guard.ts:27-44 | a client whose requests are at least refillMs/maxTokens apart is never rejected |
| `Findings.FindingRepository.Upsert` | apps/backend/src/risk/finding.repository.ts:19-26 | stores a fresh copy with the new details that keeps the first detection and the status of a known finding, except that RESOLVED wins and that a resolved one reopens; all other findings keep their objects and contents |
| `Findings.FindingRepository.SetStatus` | apps/backend/src/risk/finding.repository.ts:33-39 | the stored finding gets exactly that status and nothing else changes; the caller is handed the old object |
| `Findings.FindingRepository.Reconcile` | apps/backend/src/risk/finding.repository.ts:45-55 | resolves exactly the findings of the rules that were not detected and are neither resolved nor suppressed, and counts them |
| `RiskScan.CopyWouldNotDo` | apps/backend/src/risk/finding.repository.ts:33-39 | exactly when upserting a changed copy would set the status, which is why the stored object is changed first |
| `RiskScan.Scan` | apps/backend/src/risk/risk.service.ts:34-44 | fails exactly when a rule throws, keeping what the rules before it matched; otherwise every match of every rule is stored, undetected findings of these rules are resolved unless suppressed, and the two counts are those of the matched ids and of the findings turned resolved |
| `RiskScan.ScanFollowsMatches` | apps/backend/src/risk/risk.service.ts:34-44 | per finding id, by the rules' matches alone: any match of any rule stores it with the detail of its last match, new or resolved ones open, others with their old status; without a match it is resolved if its rule was scanned and it is neither resolved nor suppressed |
| `RiskScan.FailedScanFollowsMatches` | apps/backend/src/risk/risk.service.ts:34-44 | when a rule throws, the matches of the rules before it are stored in the same way and nothing else has changed |
| `RiskScan.LastMatchCounts` | apps/backend/src/risk/risk.service.ts:35-41 | if several matches have the same id, the stored detail is that of the last match of the last rule |
| `RiskScan.ScanMeaning` | apps/backend/src/risk/risk.service.ts:34-44 | per finding: detected ones keep status and first detection unless resolved, undetected ones of these rules are resolved unless suppressed, others are untouched |
| `RiskScan.ResolvedCountIsExact` | apps/backend/src/risk/risk.service.ts:34-44 | the resolved count counts the findings that the scan turned resolved |
| `RiskScan.RescanResolvesNone` | apps/backend/src/risk/risk.service.ts:34-44 | an identical rescan resolves nothing |
| `RiskScan.FindingsAreNeverLost` | apps/backend/src/risk/finding.repository.ts:19-55 | over every history of scans, failing ones included, and status changes no finding is lost and none changes its first detection |
| `Pipeline.PipelineEngine.ExecuteRemainingStages` | apps/backend/src/pipeline/pipeline-engine.ts:74-142 | the executor loop with pauses arriving at any stages: pause, skip, throw, reported failure and completion |
| `Pipeline.PipelineEngine.Start` | apps/backend/src/pipeline/pipeline-engine.ts:55-72 | refused exactly while running; otherwise runs from the first stage |
| `Pipeline.PipelineEngine.Pause` | apps/backend/src/pipeline/pipeline-engine.ts:144-150 | pauses a running pipeline and refuses otherwise |
| `Pipeline.PipelineEngine.Resume` | apps/backend/src/pipeline/pipeline-engine.ts:152-164 | refused unless paused at a stage; otherwise goes on from that stage, with or without an output |
| `Pipeline.PipelineEngine.NextStage` | apps/backend/src/pipeline/pipeline-engine.ts:171-215 | runs one stage, with its error cases and what they leave behind |
| `Pipeline.PipelineEngine.PreviousStage` | apps/backend/src/pipeline/pipeline-engine.ts:217-230 | drops the last stage and its snapshot and restores the output before it |
| `Pipeline.PipelineEngine.Replay` | apps/backend/src/pipeline/pipeline-engine.ts:232-243 | resets and runs again on the first input, refused when there is nothing to replay |
| `PipelineRuns.RunMeaning` | apps/backend/src/pipeline/pipeline-engine.ts:74-142 | a whole run on a fresh engine: each stage receives what the one before put out; the first stage that throws ends it FAILED with its message in the errors and no snapshot, the first that reports failure ends it FAILED with one; else it is COMPLETED; errors and warnings hold the stages' own texts in order |
| `PipelineRuns.PauseIsResumable` | apps/backend/src/pipeline/pipeline-engine.ts:74-164 | a paused executor stands at a stage from which resuming ends like never having been paused |
| `PipelineRuns.PausingIsTransparent` | apps/backend/src/pipeline/pipeline-engine.ts:74-164 | a run paused and resumed any number of times ends like the uninterrupted run in everything but the execution counter |
| `PipelineRuns.SteppingReachesTheRun` | apps/backend/src/pipeline/pipeline-engine.ts:166-215 | seeding an unstarted engine and stepping through its stages ends like the run that completes |
| `PipelineRuns.PreviousUndoesNext` | apps/backend/src/pipeline/pipeline-engine.ts:171-230 | stepping back undoes a step on stages, snapshots, input and current output |
| `PipelineRuns.ExecutedIsCoherent` | apps/backend/src/pipeline/pipeline-engine.ts:74-142 | runs keep the current output equal to the last snapshot, or to the input if there is none, unless a stage reports failure |
| `PipelineRuns.StartIsFreshExactly` | apps/backend/src/pipeline/pipeline-engine.ts:55-72 | a start behaves like one on a fresh engine if and only if no stage is marked completed |
| `PipelineRuns.RestartSkipsEverything` | apps/backend/src/pipeline/pipeline-engine.ts:55-105 | after a completed run a new start executes no stage |
| `IdentityFields.ComputeMatchedFields` | apps/backend/src/identity/identity-resolution.service.ts:360-381 | every pair of sources compared on every field that both have, in order |
| `IdentityFields.MatchedFieldsMeaning` | apps/backend/src/identity/identity-resolution.service.ts:360-381 | a match is recorded exactly when an earlier and a later source both have the field; it shows the earlier one's value first and is exact when they agree |
| `IdentityFields.ComputeConflicts` | apps/backend/src/identity/identity-resolution.service.ts:383-406 | every pair of sources that disagrees on one of the first six fields, in order |
| `IdentityFields.ConflictsMeaning` | apps/backend/src/identity/identity-resolution.service.ts:383-406 | a conflict is recorded exactly when two sources have different values for one of the first six fields; it names both systems and is critical from 90 points, a warning from 80 |
| `IdentityFields.ConflictsAreDisagreements` | apps/backend/src/identity/identity-resolution.service.ts:360-406 | the conflicts are exactly the disagreeing matched fields among the first six identity fields, in the same order |
| `IdentityFields.MergeFields` | apps/backend/src/identity/identity-resolution.service.ts:408-420 | lays the sources' filled properties over each other in order of system priority |
| `IdentityFields.OverlayFirst` | apps/backend/src/identity/identity-resolution.service.ts:408-420 | overlaying sources in a given order keeps, for each property, the value of the first source that has it filled |
| `IdentityFields.MergedValue` | apps/backend/src/identity/identity-resolution.service.ts:408-420 | a merged property is present exactly if some source has it filled, and its value is that of the source that comes first by priority of its system and then by arrival |
| `IdentityFields.MergeIgnoresOrderAcrossSystems` | apps/backend/src/identity/identity-resolution.service.ts:408-420 | reordering sources of different systems changes no merged field |
| `IdentityFields.PropertyMeaning` | apps/backend/src/identity/identity-resolution.service.ts:43-51 | a field's value is the trimmed text of the first alias that is there and not blank, and is missing exactly when there is none |
| `IdentityFields.MatchesMeaning` | apps/backend/src/identity/identity-resolution.service.ts:502-508 | two values agree exactly when they differ at most in the case of letters, after trimming, or after dropping dashes and braces for the three identifiers of the directory |
| `IdentityResolution.ScoreNode` | apps/backend/src/identity/identity-resolution.service.ts:132-150 | the loop with its early exits returns the specified score |
| `MergePreview.ScoreIsFirstAgreement` | apps/backend/src/identity/identity-resolution.service.ts:132-150 | a node scores by the first identity field that both sides have and on which they agree, with that field's points, level, method and the node's value, and not at all exactly when there is none |
| `IdentityResolution.Resolution.Enrich` | apps/backend/src/identity/identity-resolution.service.ts:431-471 | adds the account and the group and role names that the node's properties list and the identity lacks |
| `IdentityResolution.Resolution.Merge` | apps/backend/src/identity/identity-resolution.service.ts:185-229 | the merge in place: refused below the threshold, else source, fields, timeline, statistics, accounts and groups as specified |
| `MergeMeaning.AcceptedBy` | apps/backend/src/identity/identity-resolution.service.ts:197-200 | a merge is accepted exactly when the first field on which both sides agree is worth 70 points or more |
| `MergeMeaning.RefusedMergeChangesNothing` | apps/backend/src/identity/identity-resolution.service.ts:197-200 | without such a field the identity stays as it is |
| `MergeMeaning.ConfidenceAfterMerge` | apps/backend/src/identity/identity-resolution.service.ts:202-206 | taking in a new node leaves a confidence that is at least the old one and at least the score of the agreeing field and equals one of them, with the level that belongs to it |
| `MergeMeaning.SourceAfterMerge` | apps/backend/src/identity/identity-resolution.service.ts:202-204 | the node is recorded once, behind the other sources, with its own data, the matching method and the points of the field known by that name |
| `MergeMeaning.LogAfterMerge` | apps/backend/src/identity/identity-resolution.service.ts:215-220 | every accepted merge appends one event to timeline and merge history, recomputes matches, conflicts and fields from the sources, and counts; a known node changes neither sources nor confidence |
| `MergeMeaning.StatisticsCount` | apps/backend/src/identity/identity-resolution.service.ts:487-499 | the statistics are the true numbers of sources, matches, conflicts, critical conflicts and merges |
| `MergeMeaning.NamesAfterMerge` | apps/backend/src/identity/identity-resolution.service.ts:431-471 | groups and roles keep their order and gain exactly the missing names, each once; an account is added exactly when the node gives a name that the system does not have yet |
| `MergeMeaning.PiecesOfCut` | apps/backend/src/identity/identity-resolution.service.ts:450-452 | a list in a text is cut at every comma, semicolon and bar |
| `MergeMeaning.NamesMeaning` | apps/backend/src/identity/identity-resolution.service.ts:443-471 | a list names its items, a text the trimmed pieces that are not blank, any other value nothing |
| `MergeMeaning.EitherMeaning` | apps/backend/src/identity/identity-resolution.service.ts:432-444 | a value looked up under several names is the first that counts as true, and as a text it is empty when none does |
| `IdentityResolution.Resolution.PreviewMerge` | apps/backend/src/identity/identity-resolution.service.ts:285-330 | works on fresh copies, leaves its argument alone and proposes the specified identity |
| `MergePreview.PreviewIsMerge` | apps/backend/src/identity/identity-resolution.service.ts:185-330 | for a node not yet merged there is a preview that proposes what the merge produces, apart from timeline, merge history and timestamps, if and only if the node has an id |
| `MergePreview.PreviewOfKnownNode` | apps/backend/src/identity/identity-resolution.service.ts:185-330 | for any identity and any node already merged into it, the preview proposes what the merge produces if and only if the merge refuses the node, or what it recomputes is up to date but for the merge history and the node names no new account, group or role |
| `MergePreview.MergeLeavesUpToDate` | apps/backend/src/identity/identity-resolution.service.ts:202-219 | an accepted merge leaves matched fields, conflicts, merged fields and statistics as they follow from the sources |
| `MergePreview.PreviewAfterMerge` | apps/backend/src/identity/identity-resolution.service.ts:185-330 | so after any accepted merge the preview of a known node is right exactly when there is nothing new about it |
| `MergePreview.PreviewAfterCreation` | apps/backend/src/identity/identity-resolution.service.ts:185-330 | just after an identity was created for a node, the preview under its id is right exactly when the merge refuses, or the identity fields are the node's filled properties and nothing is new |
| `MergePreview.DepartmentIsNotForetold` | apps/backend/src/identity/identity-resolution.service.ts:185-330 | with the service's own tables there is a node with nothing new about it whose second merge the preview foretells wrongly |
| `IdentityResolution.Resolution.Create` | apps/backend/src/identity/identity-resolution.service.ts:241-282 | an identity whose only source is the node, with its identity fields, accounts, groups, roles and first statistics |
| `IdentityResolution.ExtractIdentityFields` | apps/backend/src/identity/identity-resolution.service.ts:422-429 | the loop collects each identity field that the properties have |
| `MergeMeaning.CreationMeaning` | apps/backend/src/identity/identity-resolution.service.ts:241-282 | a created identity holds the node alone, at confidence 70 and the level for it, with one event, the node's groups and roles without repetition, an account exactly for the three systems that have accounts, and the statistics a merge would count |
| `MergeMeaning.ExtractedMeaning` | apps/backend/src/identity/identity-resolution.service.ts:422-429 | a field is taken over exactly when one of that name has a value among the properties, and has the value of the last such field |
| `MergePreview.NewGroupIsNotForetold` | apps/backend/src/identity/identity-resolution.service.ts:285-297 | every known node makes the preview wrong as soon as it names a group that the identity lacks |
| `MergePreview.MisforetoldAfterMerge` | apps/backend/src/identity/identity-resolution.service.ts:185-297 | with the service's own tables there are a created identity and a node that it takes in, whose later preview is wrong |
| `MergePreview.MergesOnlyAdd` | apps/backend/src/identity/identity-resolution.service.ts:185-229 | over any series of merges at any times sources are only added, no node twice, and the confidence never falls |

## Left out

- What the nodes of a path add to its score, explanations, target classification, the derivation of the source list and the clamping in `normalize` are parameters of a search; node identifiers are numbers in the order of the service's string comparison, and path identifiers are the paths themselves.
- `SearchTheorems.FirstFoundIsMinimal`: assumes, like the other statements on the first reported path, that no path to a target is turned down for its score; `SearchTheorems.FirstPoppedIsMinimal` does not, and `SearchLimits.DeliveryCondition` shows that a positive minimum score breaks the promise.
- The deadline of a search is an oracle that says what each check finds; runs, persistence and privileged-target counts of the service are not part of this model.
- `buildEffectiveAccess` and `getNestedGroupMemberships` of the front end: grouping and a further breadth-first search. A recorded path keeps its links instead of display names.
- Queue calls are atomic and share one clock that does not run backwards; row locks and their skipping, audit records and the error texts of permanent failures are not part of this model.
- The worker's error text, heartbeat display and logging; sessions, progress figures, parsers and file states of the import service.
- `ImportChunks.ChunkStore.StoreSheet`: takes the chunk size to be positive; with size 0, which the configuration does not rule out, the loop of the code would not end.
- `ImportGraphChunks.GraphChunkStore.Insert`: takes the chunk size to be positive for the same reason.
- `ImportGraphChunks.GraphChunkStore.Replace`: takes the chunk size to be positive for the same reason.
- Buckets hold real numbers, not floating-point ones.
- Saving of scans, the scanning flag, rule selection, the rules themselves and the hash behind a finding's id, which is modelled by what it hashes.
- Stage handlers are arbitrary functions of stage and input; metrics, timestamps and the abort of an older executor by a newer execution are not part of this model, and a pipeline is resumed only after the executor that saw the pause has returned.
- The choice of a candidate identity, correlation, merge history, nested `properties` objects and Unicode rules of trimming and case folding.
- A source's confidence is not claimed to equal its field score: the confidence table does not know the method name `UPN`.
