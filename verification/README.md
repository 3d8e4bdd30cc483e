# ClusterMesh: verified recovery, placement, allocation and leadership

A Dafny 4.11 model of the stateful core of ClusterMesh, with proofs of what it guarantees over whole runs.
Check it with `dafny verify dfyconfig.toml`.

Each imperative component appears twice. A *specification function* on values says what one operation does; a *class*
with the source's own fields performs the operation in place, and each method is proved to turn the old state into
exactly the state the function gives. The theory modules then prove properties of the functions, which therefore hold
of the objects.

| file | models |
|---|---|
| `Sorting.dfy`, `Models.dfy` | stable sort, filters, sums; nodes, requirements, tasks, checkpoints |
| `Placement.dfy`, `Filling.dfy` | pool filters, scores, `place`; `place_all` |
| `Fabric.dfy`, `FabricTheory.dfy`, `FabricRuns.dfy` | the memory fabric; success and optimality; runs of allocate and release |
| `Election.dfy`, `ElectionTheory.dfy`, `ElectionRestarts.dfy`, `ElectionLeases.dfy` | the lease row and `LeaderElection`; any number of drivers interleaved, stopped and started again; which pairs can come back; how long a lease lasts |
| `Health.dfy` | the heartbeat timeout machine and its change notifications |
| `Checkpointing.dfy`, `NodeChoices.dfy`, `Stealing.dfy`, `StealingTheory.dfy` | checkpoints, successive node choices, work stealing, how many orphans it can reassign |
| `Replication.dfy`, `Speculation.dfy` | replica placement, stragglers |
| `Execution.dfy` | `TaskContext`, `TaskExecutor` and `counter` |
| `SimModel.dfy`, `SimSafety.dfy`, `SimDetection.dfy`, `SimProgress.dfy`, `SimOrigin.dfy` | the simulated cluster as a tick machine: safety, failure detection, progress, runs from construction |
| `SimReassign.dfy`, `SimEvents.dfy` | where submitted and orphaned tasks go; scheduled events, chaos, and what the callback is told |
| `SimCluster.dfy` | the simulated cluster on objects, each method proved to be its step of `SimModel` |
| `NodeDeath.dfy`, `SilentDeaths.dfy` | `handle_node_death`, its re-entry through the health callback, and the deaths it keeps from being reported |

Numbers are exact reals, task and node ids are strings, and time is a parameter of every operation that reads a clock.

## Where the code and its descriptions differ

- The docstring of `MemoryFabric` and the first comment in `allocate` (mesh/memory/fabric.py:73, 112) say best-fit
  decreasing. The code sorts again and takes the largest free block first (line 124). The model follows the code, and
  `FabricTheory.FewestSegments` shows what that order is good for.
- The docstring of `LeaderElection` (mesh/driver/ha/election.py:18) promises one leader at a time. This is false:
  `ElectionTheory.TwoLeaders` is a run of three tries that ends with two leaders inside an unexpired lease, because a
  follower's term grows at each try (line 53) and a larger term takes the row (mesh/state/sqlite_store.py:158), and
  `ElectionTheory.RetryMakesTwoLeaders` does it through the retry of line 74. `ElectionTheory.SecondLeaderExactly`
  says exactly which step puts up a second flag, and `ElectionTheory.OneLeaderExactly` exactly which runs keep to one.
  What does hold is agreement after each completed pass, and fencing of a pair that a driver was granted since it was
  last started. A driver that is started again begins at term 0 (election.py:32), so a pair it had before can come
  back after it was overwritten: exactly if there is another driver (`ElectionRestarts.PairReturnsExactly`,
  `LeftoverReturnsExactly`), and without further restarts exactly if the driver runs at a smaller term and another
  driver runs too (`UnaidedReturnsExactly`). The pair of a driver that is alone is always fenced.
- docs/fault-tolerance.md:113 promises that all orphaned tasks are reassigned; an orphan that is not becomes PENDING
  and is not retried. There are two causes beside a lack of acceptable nodes. With two or more healthy nodes one call
  of `steal` puts at most one orphan on each, however much room there is (mesh/recovery/work_stealing.py:51-54;
  failing input `StealingTheory.OrphanLeftPending`). And an earlier orphan can take the only node that is acceptable
  for a later one, although another node would have done for the earlier one (`StealingTheory.OnlyNodeTaken`).
  `StealingTheory.ServedExactly` says for all inputs when all orphans are reassigned, `AllReassignedExactly` and
  `SingleNodeTakesAll` say it for special cases in plainer terms, and `HalfOfAnyAssignment` bounds the loss: at least
  half as many are reassigned as any one-to-one assignment could place.
- `find_stragglers` returns at most half of the timed running tasks only for multipliers of at least one:
  `Speculation.StragglerBoundExactly`, with `Speculation.TwoStragglers` for every smaller multiplier.
- The callbacks of `NodeHealthRegistry` are meant to be told every change. A read through `get_state` stores a change
  without telling anyone; `Health.SilentDeath` is an input and `Health.SilentRead` the exact condition. Because
  `live_nodes` reads this way inside `handle_node_death`, the second of two deaths can be lost:
  `SilentDeaths.SecondDeathIsSilent` and `SilentDeaths.LostDeath`, with the exact condition for a whole pass of
  `evaluate_all` in `SilentDeaths.PassReportsAllExactly`.

## Model

| member | source | states |
|---|---|---|
| Placement.EligibleMembers | mesh/scheduler/pools.py:31-76 | The nodes a pool returns are exactly those offered that pass its filter, including the night window and the battery gate, whatever order it returns them in |
| Placement.EligibleOrder | mesh/scheduler/pools.py:31-70 | A pool keeps the order in which nodes are offered; the memory pool puts more free memory first and keeps the order among equals |
| Placement.NightWindowIsCyclic | mesh/scheduler/pools.py:24-29 | For hours of the day the window holds exactly the hours that come before its end when counted from its start, across midnight if need be |
| Placement.ScoreInFields | mesh/scheduler/scoring.py:33-53 | The score from the figures of node and requirements: each share, which weight goes with it, and when a share counts as nothing |
| Placement.RoundsToNearest | mesh/scheduler/scoring.py:53 | The six-digit rounding gives the nearest millionth, and the even one of two that are equally near |
| Placement.BetterNodeScoresNoLess | mesh/scheduler/scoring.py:30-54 | With nonnegative weights a node at least as good in every component never scores lower; rounding moves a score by at most half a millionth |
| Placement.PlaceIsMaximal | mesh/scheduler/placement.py:26-51 | `place` fails exactly when no offered node is admitted, sufficient and of positive score; otherwise it returns one with maximal score and, among those, least id |
| Placement.PlaceInFields | mesh/models/node.py:59-86 | In the figures of nodes and tasks, `place` finds a node if and only if some node offered is healthy, belongs to the pool, has the cores, memory, GPUs, VRAM, CUDA version, network rate and battery asked for and a positive score; the node it finds has all of these |
| Placement.PlaceIsOrderIndependent | mesh/scheduler/placement.py:31-41 | For unique node ids the result is the same for every permutation of the nodes |
| Placement.LexExactly | mesh/scheduler/placement.py:41 | The id order is that of strings: a prefix first, otherwise the first difference decides |
| Placement.LexTotal | mesh/scheduler/placement.py:41 | The id order that breaks score ties is total, and two ids that tie both ways are equal |
| Filling.PlaceAll | mesh/scheduler/placement.py:53-72 | The loop over the usage map returns the placements of the recursive decision sequence |
| Filling.PlacedFits | mesh/scheduler/placement.py:61-71 | A placed task needs no more CPU or RAM than the usage map leaves on its node |
| Filling.CapacityConserved | mesh/scheduler/placement.py:53-99 | Per node, the CPU and RAM of all tasks placed on it never exceed what the node had free, for any requirements |
| Filling.UsageMapRefines | mesh/scheduler/placement.py:74-99 | From any usage map on, recomputing residuals from the map decides like subtracting each placement from its node at once |
| Filling.PlaceAllRefines | mesh/scheduler/placement.py:53-72 | The whole of `place_all` refines that simple form, for all nodes and requirements |
| Filling.PlaceAllNeedsNoClamp | mesh/scheduler/placement.py:87-89 | With unique ids and nonnegative free amounts the simple form decides the same without the clamp at zero |
| Fabric.MemoryFabric.Stripe | mesh/memory/fabric.py:121-141 | The greedy loop makes the specified segments, leaves the specified remainder and reserves exactly its segments |
| Fabric.MemoryFabric.AllocateMemory | mesh/memory/fabric.py:101-158 | The new tables and the result are those of `Allocate`, with the early exits, the skip and the rollback |
| Fabric.MemoryFabric.ReleaseMemory | mesh/memory/fabric.py:160-168 | The new tables and the result are those of `Release` |
| FabricTheory.StripedExact | mesh/memory/fabric.py:121-141 | On usable blocks with enough memory nothing is lacking at the end, and the segments sum to the request and name the first blocks in order, with host and location |
| FabricTheory.AllocateSucceedsExactly | mesh/memory/fabric.py:108-158 | `allocate` succeeds if and only if the size is positive and the healthy nodes with at least the minimum free hold it; then segments are positive and sum to the size, and a failure changes nothing |
| FabricTheory.TiesKeepOrder | mesh/memory/fabric.py:113-124 | Blocks with equally much free memory are visited in the order in which their nodes were given |
| FabricTheory.StripedIsTight | mesh/memory/fabric.py:126-141 | All segments but the last take everything their block has, and one block fewer would not have been enough |
| FabricTheory.LargestFirstIsBest | mesh/memory/fabric.py:124 | Exchange argument: no choice of m nodes, including those below the minimum, has more free memory than the first m blocks |
| FabricTheory.FewestSegments | mesh/memory/fabric.py:111-141 | No choice of healthy nodes that covers the request is smaller than the number of segments used |
| FabricRuns.AllocateKeepsLedger | mesh/memory/fabric.py:101-158 | After `allocate` each node's reservation is still the sum of live segments on it |
| FabricRuns.ReleaseKeepsLedger | mesh/memory/fabric.py:160-168 | The same after `release`, which finds exactly the live ids, and the clamp at zero changes nothing |
| FabricRuns.LedgerAlways | mesh/memory/fabric.py:76-168 | The ledger holds after any sequence of allocations and releases with changing node snapshots |
| FabricRuns.ReleaseUndoesAllocate | mesh/memory/fabric.py:101-168 | Releasing what was just allocated restores the allocation table and every node's free memory |
| FabricRuns.PoolBalances | mesh/memory/fabric.py:87-99 | For a state within its snapshot, `free_gb + allocated_gb` is the free memory of the healthy nodes |
| FabricRuns.StatsCountNodes | mesh/memory/fabric.py:87-99 | What `pool_stats` reports of nodes: one more node adds its total, its free memory and one to the count if and only if it is healthy |
| FabricRuns.AllocateStats | mesh/memory/fabric.py:87-158 | A successful `allocate` moves its size from free to allocated and adds its segments to the count; a failed one moves nothing |
| FabricRuns.ReleaseStats | mesh/memory/fabric.py:87-168 | A `release` takes out the first allocation with the id, keeps the others in order, and moves its total back |
| FabricRuns.PoolConserved | mesh/memory/fabric.py:83-168 | In every run on one snapshot from an empty fabric, no node is reserved beyond its free memory and `free_gb + allocated_gb` stays constant |
| Election.StateStore.TryAcquireLeadership | mesh/state/sqlite_store.py:143-165 | The new row and the answer are those of `TryAcquire` |
| Election.StateStore.GetLeader | mesh/state/sqlite_store.py:182-189 | The pair returned is the one that could be renewed now and whose lease has not run out, if there is one |
| Election.StateStore.RenewLeadership | mesh/state/sqlite_store.py:167-180 | The new row and the answer are those of `RenewLease` |
| Election.LeaderElection.Stop | mesh/driver/ha/election.py:46-48 | Drops the flag and ends the loop without touching the row or the callbacks |
| Election.LeaderElection.TryBecomeLeader | mesh/driver/ha/election.py:50-62 | The new row and driver are those of `TryStep`, including which callback value is sent |
| Election.LeaderElection.CurrentLeader | mesh/driver/ha/election.py:79-80 | Names the pair the store reports, which is the only one that could be renewed before it runs out |
| Election.LeaderElection.RenewPass | mesh/driver/ha/election.py:65-76 | The new row and driver are those of one pass |
| ElectionTheory.StoreAnswersRow | mesh/state/sqlite_store.py:143-180 | Either store call succeeds exactly when the row ends up holding the caller's pair, and a renewal never changes whose row it is |
| ElectionTheory.StoreReportsLeader | mesh/state/sqlite_store.py:143-189 | For a nonnegative lease time either call succeeds exactly when `get_leader` then reports the caller's pair |
| ElectionLeases.GrantLasts | mesh/state/sqlite_store.py:143-165 | A call that writes the row is granted; its pair is the reported leader up to now + ttl and not longer, and another driver gets the row after that or with a larger term, and not otherwise |
| ElectionLeases.OthersAreRefused | mesh/state/sqlite_store.py:157-165 | A call that does not write the row leaves it alone, its end included, and is granted only for the pair that is in it |
| ElectionLeases.RenewalLasts | mesh/state/sqlite_store.py:167-180 | A renewal succeeds exactly for the pair in the row and makes it last until now + ttl in the same sense |
| ElectionLeases.LeaseHoldsExactly | mesh/state/sqlite_store.py:143-180 | In every run within the lease time, renewals, stops and restarts included, a pair keeps the row throughout if and only if no driver asks for a larger term |
| ElectionLeases.GrantedLeaseHolds | mesh/driver/ha/election.py:50-76 | The same from each try, retry or renewal by which a driver gets or keeps the row, with its own lease time; until then and no longer it is the reported leader |
| ElectionLeases.PassIsSteps | mesh/driver/ha/election.py:64-77 | A pass of the loop is a try, or a renewal and, if that fails, a retry at its own clock reading |
| ElectionLeases.StopIsFinal | mesh/driver/ha/election.py:46-51 | After `stop` a driver leaves the row as it is and, until it is started again, never leads, moves its term, is granted anything or tells anyone |
| ElectionTheory.NextKeepsInv | mesh/driver/ha/election.py:46-77 | Every atomic step of any driver, stopping and starting again included, keeps the invariant between each driver's flag, term and callbacks and the shared row |
| ElectionTheory.PassAgrees | mesh/driver/ha/election.py:64-77 | After each completed pass of an unstopped driver its flag is set exactly when the row holds its id and term |
| ElectionTheory.LeaderKnows | mesh/driver/ha/election.py:50-77 | In every reachable state, whatever row an earlier process left, an unstopped driver whose pair is in the row has its flag set and is the only one with its pair there; callbacks alternate beginning with true and end with the flag |
| ElectionTheory.Fenced | mesh/state/sqlite_store.py:167-180 | Until its driver is started again, a pair whose term its driver has reached and that is out of the row stays out, and every later renewal with it fails |
| ElectionTheory.HeldIsSpent | mesh/driver/ha/election.py:53-56 | In a run that does not start its driver again, a pair found in the row has a term its driver has reached, unless it was left there before |
| ElectionTheory.TermsGrow | mesh/driver/ha/election.py:53 | A driver's own term never goes down until the driver is started again |
| ElectionTheory.GrantsAreUnique | mesh/driver/ha/election.py:53-56 | A run that grants the same pair of driver and term twice starts that driver again, so otherwise the pairs serve as fencing tokens |
| ElectionRestarts.OverwrittenIsFenced | mesh/state/sqlite_store.py:158-180 | A pair that was in the row and was overwritten can never be renewed again if its driver is alone, whatever is started again, or if it was not left there before the run and its driver is not started again |
| ElectionRestarts.LeftoverReturnsExactly | mesh/driver/ha/election.py:32-62 | The pair that a driver left in the row before it was started can come back after it was overwritten if and only if there is another driver, with or without further restarts, at clock readings that never go back |
| ElectionRestarts.PairReturnsExactly | mesh/driver/ha/election.py:32-62 | The same for any pair in the row in any reachable state, for runs in which drivers may be started again |
| ElectionRestarts.UnaidedReturnsExactly | mesh/driver/ha/election.py:50-76 | For runs without restarts from any reachable state, a pair in the row can come back if and only if its driver runs at a smaller term and another driver runs |
| ElectionRestarts.LoneRun | mesh/state/sqlite_store.py:158-180 | In every run of a driver that is alone, restarts included, its row stays its own and the row's term never rises |
| ElectionTheory.SecondLeaderExactly | mesh/driver/ha/election.py:50-77 | From one flag at most, a step of any kind puts up a second one exactly when it is a try or a retry of an unstopped driver, a flag is up, and the row is free, expired, of a smaller term, or already the caller's |
| ElectionTheory.OneLeaderExactly | mesh/driver/ha/election.py:18 | A run keeps to one leader throughout if and only if none of its tries and retries meets that condition |
| ElectionTheory.TwoLeaders | mesh/driver/ha/election.py:50-60 | A concrete reachable run with two flags inside one lease: the documented promise is false |
| ElectionTheory.RetryMakesTwoLeaders | mesh/driver/ha/election.py:70-74 | A concrete reachable run whose last step, the retry after a failed renewal, puts up a second flag |
| ElectionTheory.SoloLeaderStays | mesh/driver/ha/election.py:66-69 | A leader that runs alone keeps its flag, its term and the row |
| ElectionTheory.TakeoverBound | mesh/driver/ha/election.py:50-77 | A driver that runs alone leads after at most max(1, row term - own term + 1) passes, and from then on |
| ElectionTheory.TakeoverExactly | mesh/driver/ha/election.py:50-62 | While another driver's lease lasts, it leads after n passes if and only if n reaches that bound |
| Health.MissedReaches | mesh/health/heartbeat.py:42-46 | The floored count of missed intervals reaches k exactly when the elapsed time reaches k intervals |
| Health.EvaluateExactly | mesh/health/heartbeat.py:48-65 | Without an explicit mark a node is DEAD exactly from interval * dead_threshold on and SUSPECTED exactly between the two thresholds; the answer is stored |
| Health.BeatRevives | mesh/health/heartbeat.py:29-40 | A heartbeat makes a node healthy and lifts its mark: from then on its state goes by the time since that heartbeat alone; other nodes are as they were |
| Health.MarkedOrUnknown | mesh/health/heartbeat.py:42-54 | A marked node is DEAD at any time; one never heard of is DEAD without its state being stored |
| Health.HeartbeatTold | mesh/health/heartbeat.py:101-107 | A heartbeat is told exactly if the stored state was not HEALTHY, OFFLINE standing for none |
| Health.ForcedState | mesh/health/heartbeat.py:129-137 | A forced state is stored and told if new; DEAD stays until a heartbeat, any other state lifts the mark |
| Health.EvaluateAllStores | mesh/health/heartbeat.py:109-117 | A pass stores what each node that was heard of is found to be and tells each change once, and mentions no other node |
| Health.KnownOverRuns | mesh/health/heartbeat.py:109-111 | In every run the nodes a pass visits are those heard of, each once, in the order of their first heartbeats |
| Health.HeartbeatTracker.RecordHeartbeat | mesh/health/heartbeat.py:29-40 | The new tracker is that of `Beat` |
| Health.HeartbeatTracker.EvaluateNode | mesh/health/heartbeat.py:48-65 | The new tracker and the answer are those of `Evaluate` |
| Health.HeartbeatTracker.MarkNodeDead | mesh/health/heartbeat.py:70-72 | The new tracker is that of `MarkDead` |
| Health.NodeHealthRegistry.Record | mesh/health/heartbeat.py:101-107 | The new tracker and notification log are those of `RecordHeartbeat` |
| Health.NodeHealthRegistry.EvaluateAllNodes | mesh/health/heartbeat.py:109-117 | Every known node is evaluated and noted in table order, and the results hold exactly the known nodes with their answers |
| Health.NodeHealthRegistry.Force | mesh/health/heartbeat.py:129-137 | The new tracker and log are those of `ForceState` |
| Health.LogIsFaithful | mesh/health/heartbeat.py:101-141 | After any run of heartbeats, evaluations and forced states, replaying the log gives every node's state, each entry is a real change, and each starts where the log last left its node |
| Health.SilentRead | mesh/health/heartbeat.py:119-120 | A `get_state` keeps the log faithful if and only if the stored state is already what the explicit mark, or else the time since the last heartbeat against the two thresholds, calls for |
| Health.SilentDeath | mesh/health/heartbeat.py:119-120 | A node silent for the time to dead: the read stores DEAD, the log stays empty and is no longer faithful |
| Checkpointing.CheckpointManager.Save | mesh/recovery/checkpoint.py:23-31 | The task's entry becomes its progress, the given state and the timestamp; other entries stay |
| Checkpointing.CheckpointManager.Restore | mesh/recovery/checkpoint.py:36-45 | The task takes progress and state from its entry if there is one, in fields, and nothing else changes |
| Checkpointing.RestoreFindsLastSave | mesh/recovery/checkpoint.py:23-45 | Round trip: whatever was saved before, and for other tasks afterwards, restoring gives the progress and user state of the last save under that id |
| Checkpointing.NothingToRestore | mesh/recovery/checkpoint.py:36-41 | A task that was never saved is restored to itself |
| Stealing.WorkStealer.StealTask | mesh/recovery/work_stealing.py:47-64 | One round of the loop: restore, choose among unused nodes, then RUNNING there or PENDING with no node |
| Stealing.WorkStealer.Steal | mesh/recovery/work_stealing.py:38-66 | The task objects end as `StealAll` says, and the results list each with its node, in order |
| Stealing.OrphansListed | mesh/recovery/work_stealing.py:26-36 | `find_orphaned_tasks` returns a task of the table if and only if it is assigned to one of the dead nodes and RUNNING, PAUSED or CHECKPOINTING |
| Stealing.StealTableIsStealAll | mesh/recovery/work_stealing.py:26-66 | Stealing inside the task table is stealing the list of orphans and putting each back in its place |
| Stealing.StealFrom | mesh/recovery/work_stealing.py:26-66 | Finding and stealing on task objects changes the orphans as specified and no other task |
| Stealing.StealAllFacts | mesh/recovery/work_stealing.py:38-66 | Each orphan ends RUNNING on an acceptable healthy node or PENDING with no node, with its checkpoint restored; it is PENDING only when every acceptable healthy node was taken by an earlier orphan |
| Stealing.StealSpreads | mesh/recovery/work_stealing.py:51-59 | Unless exactly one node is healthy, no two stolen tasks share a node |
| Stealing.StealIsComplete | mesh/recovery/work_stealing.py:51-64 | An orphan with an acceptable healthy node runs, or that node was taken before |
| StealingTheory.AtMostOneEach | mesh/recovery/work_stealing.py:51-59 | Unless exactly one node is healthy, one call reassigns at most as many orphans as there are healthy nodes |
| StealingTheory.RunsWithEnoughNodes | mesh/recovery/work_stealing.py:47-64 | The orphan at place i is reassigned if more than i healthy nodes are acceptable for it |
| StealingTheory.AllReassignedExactly | mesh/recovery/work_stealing.py:47-64 | In the case of two or more healthy nodes that all suit every orphan, all orphans are reassigned if and only if they are no more than the nodes |
| StealingTheory.SingleNodeTakesAll | mesh/recovery/work_stealing.py:53 | A single healthy node takes exactly the orphans it is acceptable for |
| StealingTheory.StealOneBest | mesh/recovery/work_stealing.py:47-64 | One round takes a best acceptable node among the free ones, and leaves the orphan pending exactly when none of them is acceptable |
| StealingTheory.ServedExactly | mesh/recovery/work_stealing.py:47-64 | For all orphans and nodes, every orphan is reassigned if and only if each in turn finds an acceptable free node, the earlier ones having taken their best ones |
| StealingTheory.HalfOfAnyAssignment | mesh/recovery/work_stealing.py:47-64 | One call reassigns at least half as many orphans as any one-to-one assignment of orphans to acceptable healthy nodes |
| StealingTheory.EveryNodeHasRoom | mesh/scheduler/placement.py:26-51 | In the example, each of two nodes is acceptable for each of three orphans and has room for all three together |
| StealingTheory.OrphanLeftPending | mesh/recovery/work_stealing.py:51-64 | On that example one orphan ends PENDING: the documented promise is false |
| StealingTheory.PairFits | mesh/scheduler/placement.py:26-51 | In the second example the small orphan suits both nodes and the large one only the first |
| StealingTheory.OnlyNodeTaken | mesh/recovery/work_stealing.py:51-64 | On that example both orphans could run, but the small one takes the first node and the large one ends PENDING: one runs of the two that an assignment places, so the bound of one half is met |
| Replication.AssignReplica | mesh/recovery/replication.py:89-100 | One round: the choice among unused nodes, or all nodes when none is unused, is written to that replica only |
| Replication.AssignToDifferentNodes | mesh/recovery/replication.py:79-102 | Replicas and results are those of the choice sequence; a replica that fails becomes PENDING and keeps its old node |
| Replication.ReplicaGetsBest | mesh/recovery/replication.py:87-100 | Each replica runs on a best of the nodes no replica before it took, or of all nodes once all are taken, and is PENDING on its old node exactly if none of these is acceptable |
| Replication.ShareOnlyWhenFull | mesh/recovery/replication.py:88-97 | Two replicas share a node only after every node has been used |
| Replication.ReplicasOnDistinctNodes | mesh/recovery/replication.py:79-102 | If no more replicas are placed than there are nodes, their nodes are pairwise distinct |
| Speculation.SpeculativeExecutor.FindStragglers | mesh/recovery/speculation.py:31-53 | Both loops compute the specified list of stragglers |
| Speculation.StragglersExactly | mesh/recovery/speculation.py:31-53 | A task is a straggler if and only if it runs, at least two tasks run, it has a nonzero start and no duplicate, and its runtime exceeds the minimum and the multiple of the median |
| Speculation.RuntimesOf | mesh/recovery/speculation.py:36-41 | The runtimes are, in order, those of the running tasks with a nonzero start |
| Speculation.SpeculativeExecutor.RecordStart | mesh/recovery/speculation.py:24-25 | The start time of that task alone is replaced |
| Speculation.SpeculativeExecutor.Clear | mesh/recovery/speculation.py:27-29 | The task leaves both tables and nothing else does |
| Speculation.AboveMedian | mesh/recovery/speculation.py:46 | At most floor(k/2) of k values exceed their median, for odd and even k |
| Speculation.MedianExactly | mesh/recovery/speculation.py:46 | The median is the value in the middle, or halfway between the two in the middle, counting the values below and above |
| Speculation.StragglerBound | mesh/recovery/speculation.py:31-53 | With multiplier at least one and nonnegative runtimes, at most floor(k/2) of the k timed running tasks are stragglers |
| Speculation.StragglerBoundExactly | mesh/recovery/speculation.py:46-52 | That bound holds for all task tables if and only if the multiplier is at least one |
| Speculation.TwoStragglers | mesh/recovery/speculation.py:46-52 | For every smaller multiplier, two tasks with different ids that are both stragglers |
| Execution.TaskContext.RestoreFromCheckpoint | mesh/execution/executor.py:44-52 | Context and task take the saved progress and state, if there is a checkpoint |
| Execution.TaskContext.Checkpoint | mesh/execution/executor.py:67-77 | Task, table and checkpoint time become those of `Save` |
| Execution.TaskContext.SetTaskProgress | mesh/execution/executor.py:54-65 | Either saves and raises, leaving progress alone, or sets progress and state and saves when the interval is over |
| Execution.SetProgressSaves | mesh/execution/executor.py:54-85 | In fields: an interrupt saves the progress from before the call and raises; otherwise progress and count are set, and saved if and only if the task wants checkpoints and its interval has passed since the last save |
| Execution.TruncatesTowardZero | mesh/tasks/builtins.py:15-16 | `int()` rounds toward zero on either side |
| Execution.RunCounter | mesh/tasks/builtins.py:14-18 | The loop ends, and accepts the progress values, as `Counter` says |
| Execution.TaskExecutor.ExecuteCounter | mesh/execution/executor.py:112-136 | One attempt: restore, run, then complete or return nothing after an interrupt |
| Execution.CountFromFacts | mesh/tasks/builtins.py:14-18 | Whatever is interrupted, the loop accepts i+1, i+2, ... in order, and an interrupt leaves the checkpoint exactly at the last accepted value |
| Execution.AttemptsFrom | mesh/execution/executor.py:112-136 | All attempts together accept i+1, ..., c once each and in order; after one completes c is the target and the task is as if never interrupted |
| Execution.ResumeRefines | mesh/execution/executor.py:44-136 | Interrupted and resumed runs accept a prefix of what one undisturbed run accepts, and on completion the same values, progress, count and final task |
| SimCluster.KillAgents | mesh/sim/chaos.py:20-23 | Exactly the agents with that id are dead afterwards |
| SimCluster.LiveNodes | mesh/sim/cluster.py:114-119 | The nodes seen and the tracker states stored by the evaluations are the specified ones |
| SimCluster.AdvanceTasks | mesh/sim/cluster.py:157-161 | Running tasks advance by one tick up to their work, and those with checkpoints are saved at the new progress |
| SimCluster.CompleteTasks | mesh/sim/cluster.py:163-165 | Exactly the running tasks whose work is done complete |
| SimCluster.Cluster.HandleNodeDeath | mesh/sim/cluster.py:102-112 | The whole cluster becomes `HandleDeath` of the old one |
| SimCluster.Cluster.OnStateChange | mesh/sim/cluster.py:92-95 | The change is logged with the time, and a death is handled |
| SimCluster.Cluster.Submit | mesh/sim/cluster.py:121-133 | Table, tracker and task are those of `SubmitTask`, also for an object that is already in the table |
| SimCluster.Cluster.Perform | mesh/sim/chaos.py:19-42 | Kill, preemption, battery drain and submission act as their step of the model |
| SimCluster.Cluster.ScheduleEvent | mesh/sim/cluster.py:135-137 | Events are kept in order of time, earlier registrations first |
| SimCluster.Cluster.FireEvents | mesh/sim/cluster.py:147-149 | Exactly the due events fire, in order |
| SimCluster.Cluster.BeatAll | mesh/sim/cluster.py:151-153 | Every live agent is heard of, in order, with its callbacks |
| SimCluster.Cluster.EvaluateAll | mesh/sim/cluster.py:155 | Every known node is evaluated with its callbacks, deaths included |
| SimCluster.Cluster.Tick | mesh/sim/cluster.py:144-165 | A tick of the objects is a tick of the model |
| SimCluster.Cluster.Run | mesh/sim/cluster.py:139-142 | `run` terminates after the first tick that reaches the time, at once if it has been reached, and the states in between are the rounds of the model |
| SimOrigin.RunNeverEnds | mesh/sim/cluster.py:139-142 | With a tick interval that is not positive and a time ahead, no number of rounds reaches it: the one case in which `run` does not end |
| SimModel.RoundsAreRun | mesh/sim/cluster.py:139-142 | The last state of such a trace is the model run of that many ticks |
| SimOrigin.MadeIsConstructed | mesh/sim/cluster.py:51-60 | Registering live agents with an empty tracker gives the starting state of all runs from construction |
| SimReassign.LiveNodesExactly | mesh/sim/cluster.py:114-119 | The live nodes are exactly those of live agents, each in the state its heartbeats call for |
| SimReassign.AgentMeets | mesh/sim/agent.py:37-61 | What an agent meets, in its own figures: nothing once dead, else its idle cores, seven tenths of its memory and the rest |
| SimReassign.SubmitPlaces | mesh/sim/cluster.py:121-133 | A submitted task enters the table under its id and runs on a best acceptable node of the live agents; it is PENDING if and only if none is acceptable; nothing else changes except that the live agents' states are read |
| SimReassign.DeathReassigns | mesh/sim/cluster.py:97-112 | Each orphan of a dead node runs on a healthy live agent that is acceptable for it, from its checkpoint, and is PENDING only if each such agent was taken by an orphan before it; other tasks stay |
| SimReassign.KillReassigns | mesh/sim/chaos.py:19-26 | The same for a kill, which marks the node, stops its agents and is told once, and does nothing to tasks if the node was known dead |
| SimEvents.FiredAreActions | mesh/sim/cluster.py:147-149 | Firing the events that are due is doing their actions one after the other, and takes exactly them out of the queue |
| SimEvents.ScheduleKeepsOrder | mesh/sim/cluster.py:135-137 | Scheduling adds one event to a queue that stays in order of time, after those for the same time |
| SimEvents.QueueStaysOrdered | mesh/sim/cluster.py:135-149 | In every run the queue stays in order, and no tick leaves an event that was due |
| SimEvents.PreemptedOffers | mesh/sim/agent.py:66-68 | After a preemption the agent offers the cores its spike leaves, and its user is active |
| SimEvents.DrainedIsClosed | mesh/sim/agent.py:70-72 | After a drain below the pools' minimum an agent with a battery is acceptable for no task of a pool |
| SimEvents.HourDecidesNight | mesh/scheduler/pools.py:24-29 | A new hour decides the night pool alone |
| SimEvents.BeatTold | mesh/sim/cluster.py:151-153 | A live agent's heartbeat is told exactly if it was not taken for healthy; a dead agent sends none |
| SimEvents.EvaluationTold | mesh/sim/cluster.py:92-95 | Evaluating a node tells the change it finds, with the time, and only a new death does more |
| SimSafety.HandleDeathSafe | mesh/sim/cluster.py:97-112 | Handling a death restores safety: nothing runs on the dead node, stolen tasks run on live ones |
| SimSafety.PerformSafe | mesh/sim/chaos.py:19-42 | Each chaos action and each new submission keeps safety |
| SimSafety.TickSafe | mesh/sim/cluster.py:144-165 | A tick keeps safety |
| SimSafety.RunGood | mesh/sim/cluster.py:92-165 | Safety holds after every run from a safe state, even with crashes that nobody reports |
| SimSafety.RunSafety | mesh/sim/cluster.py:51-165 | From construction, after any run of new submissions, kills, preemptions and drains, each task is PENDING with no node, COMPLETED, or RUNNING on an alive agent |
| SimDetection.LiveAgentNeverDeclaredDead | mesh/sim/cluster.py:151-155 | Accuracy: an agent that nobody kills stays alive and no DEAD notice about it is ever sent |
| SimDetection.EvaluateSilent | mesh/health/heartbeat.py:109-117 | Evaluating a silent node finds it dead exactly from the time to dead on, and tells the change once |
| SimDetection.CrashIsDetected | mesh/sim/cluster.py:144-155 | Completeness: an agent silent since L is DEAD exactly once a tick at some t with t - L >= interval * dead_threshold has run; exactly one notice is sent, and from then on no RUNNING task is on it |
| SimDetection.CrashEventIsDetected | mesh/sim/cluster.py:144-155 | The same for an agent whose crash fires as a scheduled event inside a tick, which already measures the silence |
| SimSafety.SpanIsProduct | mesh/health/heartbeat.py:80-81 | The time to dead used in those statements is the product of interval and threshold |
| SimProgress.StepFollows | mesh/recovery/work_stealing.py:47-64 | No step except a tick changes a task's progress, however often the task is stolen; a tick advances it once |
| SimProgress.CompletedIsAbsorbing | mesh/sim/cluster.py:157-165 | From a safe state, a COMPLETED task never changes again unless its id is submitted again |
| SimOrigin.CompletedStays | mesh/sim/cluster.py:51-165 | The same in every run from construction |
| SimProgress.EnoughExactly | mesh/sim/cluster.py:157-165 | n ticks are enough exactly when n is at least max(1, ceil((total_work - done) / tick_interval)) |
| SimProgress.CompletionBound | mesh/sim/cluster.py:157-165 | After n ticks a task that has kept a node is RUNNING with progress min(total, done + n * tick) while n is below that number, and COMPLETED from exactly that number on |
| SimOrigin.SubmitTracks | mesh/sim/cluster.py:121-133 | Submitting an id that is not in the table appends its task, which is then the only one of its id and has no stale checkpoint |
| SimOrigin.SubmittedIsTracked | mesh/sim/cluster.py:51-165 | So is every task, in every run from construction that submits its id at most once, directly or as an event |
| SimOrigin.CompletesOnTime | mesh/sim/cluster.py:51-165 | The completion bound for every such task in every run from construction |
| NodeDeath.DriverCluster.Live | mesh/driver/cluster.py:102-108 | The nodes returned and the states stored by the evaluations are the specified ones |
| NodeDeath.DriverCluster.ReassignOrphans | mesh/driver/job_manager.py:319-331 | Orphans are found, stolen and dispatched as specified; other tasks stay |
| NodeDeath.DriverCluster.OnStateChange | mesh/driver/cluster.py:56-60 | The callback logs every change and re-enters the death handler for DEAD |
| NodeDeath.DriverCluster.HandleDeath | mesh/driver/job_manager.py:295-331 | The mutually recursive methods terminate and compute `HandleNodeDeath`, counting the calls |
| NodeDeath.ReassignClears | mesh/driver/job_manager.py:319-331 | After reassignment no orphan of the node is left, and tasks that were not orphans are unchanged |
| NodeDeath.ReentryIsOnce | mesh/driver/job_manager.py:300-331 | One nested call exactly when the node was not yet known dead, never more, and the whole has the effect of a single pass |
| NodeDeath.DeathClearsNode | mesh/driver/job_manager.py:295-331 | Afterwards no RUNNING, PAUSED or CHECKPOINTING task is on the node, all other tasks are unchanged, and the change was logged at most once |
| NodeDeath.DeathReassigns | mesh/driver/job_manager.py:319-331 | Each orphan ends on a registered node other than the dead one that is found healthy and acceptable for it, from its checkpoint, and runs there unless refused; it is PENDING only if every such node was taken by an orphan before it |
| NodeDeath.DeathSpreads | mesh/recovery/work_stealing.py:51-59 | With unique node ids a single such node takes exactly the orphans it is acceptable for, and with more of them no two orphans share a node |
| NodeDeath.DeathMarks | mesh/driver/job_manager.py:301-303 | The node is DEAD among the registered nodes and marked in the tracker, it alone loses its connection, and nothing else of the driver changes |
| NodeDeath.LiveNodesExactly | mesh/driver/cluster.py:102-108 | `live_nodes` lists exactly the registered nodes that are not found dead, with the state found |
| NodeDeath.LiveNodesStore | mesh/driver/cluster.py:102-108 | `live_nodes` stores an evaluation of each registered node and changes no other state, mark or heartbeat time |
| NodeDeath.DriverCluster.EvaluateHealth | mesh/driver/cluster.py:85-86 | `evaluate_health` evaluates the known nodes in order and handles each change as it is found |
| NodeDeath.ReportNodeTells | mesh/health/heartbeat.py:112-116 | Each node of the pass is told exactly if its state changes, once, deaths with all they lead to included |
| NodeDeath.QuietPass | mesh/driver/cluster.py:85-86 | A pass that finds no new death is the registry's pass and touches nothing else |
| SilentDeaths.OverdueExactly | mesh/health/heartbeat.py:48-65 | A node is overdue when it is marked, or silent for interval * dead_threshold, and not yet stored as DEAD |
| SilentDeaths.SecondDeathIsSilent | mesh/driver/job_manager.py:295-331 | While a death with an orphan is handled, another overdue registered node becomes DEAD unreported, keeps its tasks, and a later evaluation of it reports nothing |
| SilentDeaths.PassReports | mesh/health/heartbeat.py:109-117 | In one pass an overdue node is reported dead exactly once, unless it is registered and an overdue node with an orphan comes before it: then never, and its tasks stay on it |
| SilentDeaths.PassReportsAllExactly | mesh/health/heartbeat.py:109-117 | A pass reports every overdue node if and only if none of them comes after an overdue node with an orphan |
| SilentDeaths.LostDeath | mesh/driver/cluster.py:102-108 | Two nodes silent together, each with a task: one pass reports the first and never the second, whose task stays |

## Left out

- NodeDeath.DriverCluster.HandleDeath: pausing the threads that run on the dead node and the wait of up to two seconds
  are not modelled, so neither is a checkpoint that such a thread saves in that time. Dispatch is a set of tasks whose
  agents refuse them; the effects of a failed task on its job and its replicas are not modelled.
- SimProgress.CompletionBound: starts from a state in which the task is the only one of its id and, if the stealer
  shares the cluster's checkpoints, its checkpoint holds its progress; `SimOrigin.SubmittedIsTracked` derives that for
  every run from construction that submits the id at most once.
- Floating point: arithmetic is exact, so the rounding error that the 0.01 GB tolerance and the rollback in
  `allocate` guard against does not occur.
- Fresh identifiers (`uuid`), clock readings and the hour of the day are parameters; the hour is constant within one
  placement and changes by its own step of the simulated cluster.
- Election: each store call together with the flag update after it is one step, there is one `LeaderElection` per
  driver id at a time (starting a driver again replaces it by one at term 0 and leaves the row), and callbacks are
  recorded as a log. A `stop` between the two halves of one call, the sleep between passes
  and the Postgres and Redis stores are not modelled.
- `SimCluster.placement_engine` (mesh/sim/cluster.py:39) and `WorkStealer.placement_engine`
  (mesh/recovery/work_stealing.py:22) are one engine in the simulated cluster of the model; no result depends on which
  engine places a task.
- SQL, JSON, threads, locks, gRPC, HTTP, command line and host metrics.
- A heartbeat interval of zero (the source divides by it) is excluded by the type `PositiveReal`.
- A CUDA version without a numeric major part (the source raises `ValueError`), `Node.tags`, `isinstance` checks, and
  the sum check of `ScoringWeights`.
- `HeartbeatTracker.mark_preempted` and `get_dead_nodes` (repeated reads like `get_state`).
- `SimAgent._assigned_tasks`, which is written and never read, and `ChaosController.partition`, which only sets a flag
  that nothing reads. The action `Crash` stands for `SimAgent.kill()` called without telling the registry.
- Scheduled closures are a datatype of actions; a submission that comes as an event creates its task object when it fires.
- A simulated cluster with a job manager attached: the job manager's death handler is modelled for the driver's
  cluster, in `NodeDeath`.
- `handle_preemption`, `run_rebalance`, `resume_from_store`, remote pause and resume, the replica completion handlers and
  the cancelling of speculative losers.
- `TaskExecutor` with functions other than `counter`, the interrupt registry, and results other than the count.
- Saved state is copied. The source stores the live dictionary by reference, so between saves a stored checkpoint can
  run ahead of its progress; the states compared here are those right after a save.
- GPU count and VRAM are not charged by `place_all`, so they are not conserved.
