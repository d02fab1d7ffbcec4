# QEMU block graph, jobs, exclusive sections, image tools and the CAN demo

A model of the parts of this repository that are hardest to get right, with proofs about them.

- `CpuExclusive`: the handshake between vCPU threads and exclusive sections, one step per atomic access, for any number of
  CPUs and all interleavings. `CpuProgress`: that it cannot get stuck, and when it does.
- `BlockGraph`, `BlockPerms`, `BlockAio`, `BlockUndo`, `BlockLayer`, `BlockOps`, `BlockChain`, `BlockBacking`,
  `BlockReplace`, `BlockFreeze`, `BlockNullBase`: the block graph. Nodes and users are numbers, a `BdrvChild` is an edge in
  a map, and the operations change a `BlockLayer` object in place inside transactions with an undo log. Drivers' `.bdrv_child_perm` and `.bdrv_check_perm`
  are arbitrary functions. Lists of parents and children are sets, and loops take their elements in any order. What holds
  between operations is `BlockOps.Valid`: pointers agree with children, linked nodes share a context, no cycle, no
  permission conflict on any node, no cycle of inherits_from. It holds of a graph of nodes without children
  (`BlockOps.EmptyLayer`), and every operation keeps it.
- `Jobs`: jobs and job transactions. A job's driver calls are recorded per job. `JobFacts`: the tables of `job.c` and what
  the operations do to one job, field by field, and sequences of operations.
- `ImgBuffers`, `ImgCompare`, `ImgRebase`, `ImgRebaseStops`, `ImgConvert`, `ImgConvertRun`, `ImgConvertEnds`,
  `ImgConvertExec`: compare, safe rebase and convert. Block status and allocation queries get arbitrary answers that are true of the range they name;
  where `errors` is true, requests may fail. The
  coroutines of convert are a state machine, `ImgConvertRun`, about which the theorems are; `ImgConvertExec` models the code
  itself, with coroutines taking turns in any order, and shows that each turn is a step of that machine.
- `DemoPipeline`: the four tasks and two CAN controllers of the demo, one step per access.
- `Wrappers`: the option type.

Assumptions, beside those in the preconditions:

- Memory accesses of the exclusive handshake are sequentially consistent, which its barriers are there for.
- Nodes are drained and the graph lock is held where the source's comments ask for it. Driver callbacks are atomic.
- Users on top of the graph may refuse a change of context only if the refusing child is their only one
  (`BlockAio.Movables`); block nodes never refuse.
- A driver's `.cancel` answers false only to a soft cancel of a job that is ready (`Jobs.CancelRule`), as those of the block
  jobs do (`Jobs.BlockJobsKeepRule`).
- The other members of a job transaction that is aborted have been started or are completed (`Jobs.Drainable`); otherwise
  the abort does not return (`Jobs.AbortHangs`).
- A job that has been started and is force-cancelled returns; while it is waited for, other members of its transaction may
  end, and nothing else runs.
- A request to the target that fails has written some of its sectors and left the others.
- The backing file of a convert target has the contents of the source's base, and the target is blank at the start.
- `bdrv_is_allocated` answers for a range widened to block boundaries as it did for the range itself.
- `char` is unsigned, and the CAN controllers deliver a frame at once.

Where code and comments disagree, the model follows the code: `is_allocated_sectors` is documented as true exactly if the
first sector has a non-zero byte; it is also true for a short run of zeroes that does not reach an alignment boundary.

Properties that one might expect and that hold only under a condition, which is proved to be exact:

- Threads in the exclusive handshake can always return, exactly unless one has called `cpu_exec_start` inside its own
  exclusive section: it waits for itself (`CpuProgress.ReturnIff`).
- A group of jobs does not always have one outcome: if another member fails to prepare, the job that finalizes the group is
  committed (`Jobs.GroupAtomic`, with the run `Jobs.MixedOutcome`).
- The abort of a job transaction returns exactly if every other member has been started or is completed
  (`Jobs.JobSystem.TxnAbort` and `Jobs.AbortHangs`, with the run `Jobs.HangingAbort`).
- The assertion of `bdrv_unfreeze_backing_chain` for a NULL base holds exactly if no unfrozen link hangs below the last node
  of the chain (`BlockNullBase.NullBaseAssertion`, with the run `BlockNullBase.NullBaseExtended`). The callers in
  `qemu/block/mirror.c:2079`, `qemu/block/stream.c:314`, `qemu/block/copy-on-read.c:84` and `qemu/block/commit.c:431` all
  pass a base node, for which it always holds (`BlockFreeze.Release`).
- The rebase loop stops by its assertion, or by overrunning its buffers of 2 MiB, for some true answers to its queries exactly
  if there is a place for it as `ImgRebaseStops.StopsAt` describes (`ImgRebaseStops.StopsExactly`), for every block size; and
  for some true answers it comes to its end exactly if every byte is allocated, or reads the same in both backing files and
  is spared, or is in a free block that fits (`ImgRebaseStops.SomeAnswersWork`). If every block fits the buffers, the
  assertion always holds exactly if every block is allocated as a whole or not at all, or the backing file stays the same
  (`ImgRebaseStops.AssertionAlwaysHolds`). The runs are `ImgRebaseStops.MixedCluster`, `ImgRebaseStops.BigCluster` and
  `ImgRebaseStops.DoesNotFit`.
- Strict comparison tells equal images apart when the answers for one reach its end and those for the other do not
  (`ImgCompare.StrictSelf`, with the run `ImgCompare.StrictTellsApart`).
- A job can be added to a transaction that is aborting or pending; the invariant of the group holds exactly if it is neither
  (`Jobs.JobSystem.Create`, with the run `Jobs.LateMember`).

## Model

| member | source | states |
|---|---|---|
| CpuExclusive.StepKeeps | qemu/cpu-common.c:81-321 | every atomic access of every thread, a CPU coming or going, and a spurious wake-up keep the protocol invariant |
| CpuExclusive.RunKeeps | qemu/cpu-common.c:182-321 | the invariant holds in every state of every interleaving of any number of CPUs |
| CpuExclusive.ExclusiveSectionIsExclusive | qemu/cpu-common.c:191-321 | while a thread is in an exclusive section, at any nesting depth, no CPU is between cpu_exec_start and cpu_exec_end, no other thread is in a section, and pending_cpus is still held |
| CpuExclusive.CallsCount | qemu/cpu-common.c:191-321 | over every run: the nesting counter, and one for a call that has not returned, is the number of calls of start_exclusive less those of end_exclusive since the CPU was plugged, and the CPU is in cpu_exec_start or guest code exactly if it has called cpu_exec_start and not cpu_exec_end |
| CpuExclusive.SectionsExclude | qemu/cpu-common.c:191-321 | mutual exclusion in terms of the calls: while a thread with more calls of start_exclusive than of end_exclusive has returned from them, no other one has, and no CPU has returned from cpu_exec_start without having called cpu_exec_end |
| CpuExclusive.RunningFlag | qemu/cpu-common.c:191-321 | running is set exactly on the stretch the source describes, so the assertion of start_exclusive holds |
| CpuExclusive.PendingCountsWaiters | qemu/cpu-common.c:204-229 | with the lock free, pending_cpus is 0 and nobody is marked, or it is 1 plus the number of CPUs with has_waiter |
| CpuExclusive.OneSleeper | qemu/cpu-common.c:221-224 | at most one thread waits on exclusive_cond |
| CpuExclusive.NoLostWakeup | qemu/cpu-common.c:204-321 | with the lock free, a sleeping starter has a counted CPU still to leave, and a thread asleep on exclusive_resume has a section to wait for |
| CpuExclusive.BlockedLeavesAnotherMoving | qemu/cpu-common.c:182-321 | a thread that sleeps or waits for the lock leaves another thread able to move, unless one called cpu_exec_start inside its own section |
| CpuProgress.StepNearer | qemu/cpu-common.c:191-321 | every access but that of a waiting thread brings its thread nearer to its return, by a measure that counts the CPUs left to scan and the open sections |
| CpuProgress.WaitNearer | qemu/cpu-common.c:182-229 | a woken thread whose wait is over takes the lock, passes the test and is nearer to its return |
| CpuProgress.NextSteps | qemu/cpu-common.c:182-321 | unless all have returned, or one waits for itself, somebody can go on: the holder of the lock, the owner of the section, a CPU it waits for, or, with nothing pending, anyone |
| CpuProgress.CanReturn | qemu/cpu-common.c:182-321 | no deadlock: all threads can return, without any new call to enter and without any spurious wake-up |
| CpuProgress.SelfWaitLasts | qemu/cpu-common.c:191-290 | cpu_exec_start inside the own exclusive section of the caller never returns, whatever the others do |
| CpuProgress.ReturnIff | qemu/cpu-common.c:182-321 | from a reachable state all threads can return exactly if none of them is in cpu_exec_start inside its own exclusive section |
| CpuProgress.EveryoneCanEnter | qemu/cpu-common.c:191-229 | whatever the threads are doing, any one of them can still come to be in an exclusive section, as long as none waits for itself |
| CpuProgress.FastPath | qemu/cpu-common.c:249-286 | with nothing pending cpu_exec_start is one store and one load, and takes no lock |
| CpuProgress.FastExit | qemu/cpu-common.c:289-321 | so is cpu_exec_end |
| CpuProgress.AnyCpus | qemu/cpu-common.c:81-94 | any set of CPUs can be plugged |
| BlockGraph.ReachIsPath | qemu/block.c:4327-4343 | reachability as least closed set is the existence of a path along child links |
| BlockGraph.RankFalls | qemu/block.c:2299-2322 | in an acyclic graph the number of reachable nodes falls along every link, which is why the recursions end |
| BlockGraph.OneMoreLinkAcyclic | qemu/block.c:3205-3209 | a link to a node that cannot reach the parent keeps the graph acyclic |
| BlockGraph.ComponentUniform | qemu/block.c:7719-7756 | in a graph whose links join equal contexts a whole component has one context |
| BlockGraph.ComponentUnique | qemu/block.c:7719-7756 | the connected component of a node is determined |
| BlockPerms.SettledUnique | qemu/block.c:2508-2649 | a sorted list of nodes has at most one settled graph: fresh children, no conflict, permissions accepted |
| BlockPerms.SettledMeans | qemu/block.c:2214-2285 | in terms of the edges alone: a node is settled exactly if no parent uses what another does not share, a node that is written or written unchanged is writable and, unless somebody may resize it, of aligned size, the driver accepts what all parents use and share, and every child has what the driver answers, sharing everything under force-share |
| BlockPerms.FreshAgrees | qemu/block.c:2508-2609 | a graph with a fresh prefix of the list agrees with every settled graph on the parents of that prefix and of the next node |
| BlockPerms.RefreshedFresh | qemu/block.c:2567-2575 | giving the children what the driver derives makes the node fresh and leaves its own parents alone |
| BlockPerms.StaysSettled | qemu/block.c:2587-2609 | refreshing a later node leaves earlier ones settled |
| BlockAio.ChangeVertex | qemu/block.c:7670-7706 | the recursion visits only the component, ends because unvisited links get fewer, and fails only if somebody in the component refuses |
| BlockAio.ChangeParents | qemu/block.c:7683-7687 | the loop over the parents keeps the traversal and visits every parent link |
| BlockAio.ChangeChildren | qemu/block.c:7689-7693 | the loop over the children keeps the traversal and visits every child link |
| BlockAio.ChangeParent | qemu/block.c:7586-7612 | a parent is asked once, and may refuse |
| BlockAio.ChangeChild | qemu/block.c:7625-7635 | a child is followed once |
| BlockAio.TraversalIsComponent | qemu/block.c:7670-7706 | what a finished traversal has queued is exactly the component |
| BlockAio.TryChange | qemu/block.c:7719-7756 | the whole component moves, or nothing does; it moves exactly if nobody in it refuses |
| BlockAio.TryChangeIgnoring | qemu/block.c:7719-7756 | with ignore_child the component without that child moves, or nothing does; contexts agree across the ignored child afterwards exactly if both its ends moved or neither did |
| BlockAio.MoveBack | qemu/block.c:3020-3055 | moving a component back restores every context |
| BlockUndo.RedirectPointers | qemu/block.c:1440-1498 | detaching and attaching keeps bs->backing and bs->file naming exactly the children that belong there |
| BlockUndo.AttachOne | qemu/block.c:1440-1485 | a node with a filtered child has one pointer only, also after an attachment |
| BlockUndo.RedirectBack | qemu/block.c:2431-2457 | pointing a child back restores the graph and both pointers |
| BlockUndo.PermStep | qemu/block.c:2330-2361 | a permission change keeps the transaction undoable and every reference accounted for |
| BlockUndo.InheritsStep | qemu/block.c:3345-3374 | so does a change of inherits_from |
| BlockUndo.ReplaceStep | qemu/block.c:2423-2499 | so does a replaced child; the old node keeps its reference with the transaction |
| BlockUndo.DropStep | qemu/block.c:5307-5337 | so does a removed child |
| BlockUndo.AttachStep | qemu/block.c:3020-3177 | so does an attached child, with the contexts that were moved for it |
| BlockUndo.AttachCtxUniform | qemu/block.c:3112-3145 | before the link appears both ends are in one context and every other link still joins equal contexts |
| BlockUndo.CommitKeeps | qemu/block.c:2423-2429 | after a commit the graph is well-formed and every node has as many outside references as before the transaction |
| BlockLayer.BlockLayer.constructor | qemu/block.c:411-441 | a graph of nodes without children, inheriting options in any way that has no cycle, is well-formed, acyclic and free of conflicts |
| BlockLayer.BlockLayer.AddReference | qemu/block.c:7170-7189 | one count changes |
| BlockLayer.BlockLayer.ScheduleUnref | qemu/block.c:7206-7212 | the count falls once scheduled unrefs have run |
| BlockLayer.BlockLayer.ReplaceNoperm | qemu/block.c:2933-2994 | detach, redirect, attach, with both pointers; the assertions on frozen links, same node and contexts are its precondition |
| BlockLayer.BlockLayer.SetPermTran | qemu/block.c:2345-2361 | the new permissions, and a log that still leads back |
| BlockLayer.BlockLayer.ReplaceTran | qemu/block.c:2478-2499 | the child points at the new node, which gains a reference; the log still leads back |
| BlockLayer.BlockLayer.RemoveChild | qemu/block.c:5325-5337 | the child has no node and will be freed on commit |
| BlockLayer.BlockLayer.SetInheritsTran | qemu/block.c:3358-3374 | the new pointer, and a log that still leads back |
| BlockLayer.BlockLayer.AgreeOnCtx | qemu/block.c:3112-3145 | parent and child end up in one context, or nothing moves; it fails exactly if neither side can move |
| BlockLayer.BlockLayer.Link | qemu/block.c:3147-3166 | the graph with the new child and its reference |
| BlockLayer.BlockLayer.AttachCommon | qemu/block.c:3078-3177 | the new child with agreeing contexts, or nothing changed; fails exactly on an inactive node asked for more than reading or on contexts |
| BlockLayer.BlockLayer.RestoreContexts | qemu/block.c:3030-3051 | both components move back |
| BlockLayer.BlockLayer.AttachAbort | qemu/block.c:3020-3055 | undoes the attachment exactly |
| BlockLayer.BlockLayer.UndoAction | qemu/block.c:2330-2457 | each abort callback does what its action is undone by |
| BlockLayer.BlockLayer.Abort | qemu/util/transactions.c:60-79 | the graph, its pointers, contexts, inherits_from and reference counts are those at the start of the transaction |
| BlockLayer.BlockLayer.Commit | qemu/util/transactions.c:81-100 | replaced nodes lose the held reference and removed children are freed, nothing else |
| BlockLayer.BlockLayer.GetCumulativePerm | qemu/block.c:2633-2649 | what some parent uses and what every parent shares |
| BlockLayer.BlockLayer.ParentPermsConflict | qemu/block.c:2244-2268 | true exactly if two parents conflict |
| BlockLayer.BlockLayer.TopologicalDfs | qemu/block.c:2299-2322 | puts the subtree of the node in front; the list stays sorted, child-closed and without repetition |
| BlockLayer.BlockLayer.NodeRefreshPerm | qemu/block.c:2508-2578 | succeeds exactly if the node and its driver accept the permissions, and then the children are fresh |
| BlockLayer.BlockLayer.RefreshChildren | qemu/block.c:2567-2575 | every child gets what the driver derives, and nothing else changes |
| BlockLayer.BlockLayer.DoRefreshPerms | qemu/block.c:2587-2609 | settles the listed nodes, and fails only if no settled graph exists at all |
| BlockLayer.BlockLayer.CollectSubtrees | qemu/block.c:2619-2631 | the list is sorted and holds exactly the nodes below the roots |
| BlockLayer.BlockLayer.ListRefreshPerms | qemu/block.c:2619-2631 | refreshes exactly the subtrees of the roots; success means settled, failure that nothing could settle them |
| BlockLayer.BlockLayer.VisitChildren | qemu/block.c:5286-5298 | one round of the search queues the new children and notices the link itself |
| BlockLayer.BlockLayer.ShouldUpdateChild | qemu/block.c:5228-5305 | allows the link exactly if its class does not stay at its node and its owner cannot be reached from the replacement |
| BlockLayer.Hopeless | qemu/block.c:2587-2609 | a refusal found after the predecessors are settled is a refusal in every settled graph |
| BlockLayer.NotReached | qemu/block.c:5228-5305 | a search that never meets the link proves its owner unreachable |
| BlockOps.EmptyLayer | qemu/block.c:411-441 | what holds between operations holds at the start |
| BlockOps.RefreshConflictFree | qemu/block.c:2587-2631 | after a refresh no node of the whole graph has conflicting parents, if only links into the refreshed subtrees had been touched |
| BlockOps.SubtreesSettledUnique | qemu/block.c:2619-2649 | there is at most one way to settle the subtrees of given roots |
| BlockOps.RefreshPerms | qemu/block.c:2686-2705 | succeeds exactly if the subtrees can be settled; then there is no conflict anywhere |
| BlockOps.CommitGood | qemu/block.c:2423-2429 | a commit keeps the graph acyclic and conflict-free and conserves outside references |
| BlockOps.Finalize | qemu/include/qemu/transactions.h:57-64 | rolls back exactly, or commits to a good graph |
| BlockOps.RecurseHasChild | qemu/block.c:4327-4343 | true exactly if the child can be reached |
| BlockOps.AttachNoperm | qemu/block.c:3191-3223 | refuses exactly on a cycle, an inactive child of an active parent, or what bdrv_attach_child_common refuses |
| BlockOps.RootAttachChild | qemu/block.c:3234-3263 | succeeds exactly if the child can be attached and the subtree settled; otherwise only the stolen reference is gone |
| BlockOps.AttachChild | qemu/block.c:3275-3306 | the same below a block node, with the subtree of the parent settled |
| BlockOps.TrySetPerm | qemu/block.c:2707-2739 | settled with the new permissions, or unchanged; a failure to loosen is hidden and no other |
| BlockOps.RefreshAlone | qemu/block.c:2686-2705 | without a transaction of the caller an error leaves the graph alone |
| BlockOps.RootUnrefChild | qemu/block.c:3313-3338 | the child is gone, its node settled if possible, in the main context unless somebody refuses, and one reference lighter |
| BlockBacking.UnsetInherits | qemu/block.c:3381-3405 | exactly the nodes below the child that inherit from the root and have no other link from it lose the pointer |
| BlockBacking.InheritsFromRecursive | qemu/block.c:3436-3446 | true exactly if the parent is on the way along inherits_from; the walk ends because that way never comes back |
| BlockBacking.ShortcutEnds | qemu/block.c:3556-3559 | the one update that the answer allows, a shortcut to a node on the way, keeps it so |
| BlockBacking.IsSetEnds | qemu/block.c:3480-3565 | so does the whole of setting a link |
| BlockBacking.ClearSlot | qemu/block.c:3534-3538 | the old child is detached, marked for freeing, and its inheritors cleared |
| BlockBacking.AttachAndInherit | qemu/block.c:3544-3559 | the new child and the inherits_from update |
| BlockBacking.SetFileOrBackingNoperm | qemu/block.c:3480-3565 | refuses exactly without a driver, on a frozen link, without support, without a role, or if the attachment is refused |
| BlockBacking.RefusesFirst | qemu/block.c:3490-3529 | it refuses before any change exactly without a driver, on a frozen link, on a backing file for a driver that has none, or on a file for a format node without one; the role of the new child otherwise |
| BlockBacking.SetBackingHd | qemu/block.c:3573-3594 | succeeds exactly if the link may be set and the subtree settled; on failure every part of the graph is restored |
| BlockBacking.BackingPointsThere | qemu/block.c:3480-3565 | after success the backing pointer names the new child, which points at the given node, or is NULL |
| BlockReplace.MovedReach | qemu/block.c:5346-5378 | redirecting allowed links changes nothing below the replacement, so the answers do not depend on the order of the loop |
| BlockReplace.MovedAcyclic | qemu/block.c:5228-5378 | redirecting every allowed link keeps the graph acyclic |
| BlockReplace.ReplaceOne | qemu/block.c:5359-5376 | one link moves, is skipped, or stops the loop |
| BlockReplace.ReplaceNodeNoperm | qemu/block.c:5346-5378 | exactly the allowed links move; it fails exactly if one of them is frozen or, without auto_skip, one may not move |
| BlockReplace.FindCowParent | qemu/block.c:5409-5418 | the walk finds the node whose COW or filter link leads to the replacement |
| BlockReplace.ReplaceAndDetach | qemu/block.c:5426-5433 | exactly the allowed links move, and with detach_subchain the link to the replacement is removed |
| BlockReplace.ReplaceNode | qemu/block.c:5393-5448 | with or without detach_subchain: all of it done and both subtrees settled, exactly if the links may move and the subtrees can be settled, or every part of the graph restored |
| BlockReplace.AppendNoperm | qemu/block.c:5488-5515 | the two steps of bdrv_append and when they are refused |
| BlockReplace.Append | qemu/block.c:5488-5524 | the new node on top with all allowed links moved to it and the subtree settled, or every part of the graph restored; on top means: the new child belongs to the node and points at the old top, in the filtered role for a filter and in the COW role otherwise, the pointer for that role names it, and it is the chain between the two |
| BlockReplace.AppendedPoints | qemu/block.c:5488-5524 | so much follows from the settled graph, whatever the permissions |
| BlockChain.ChainEnds | qemu/block.c:5764-5844 | the chain below every node ends, so a NULL base can always be walked to |
| BlockChain.ChainLink | qemu/block.c:8312-8380 | the chain goes on by the attached child in the COW role, of a filter by its primary child, and by no other; a child that a format node passes through counts if the node keeps it as its backing file |
| BlockChain.SegmentUnique | qemu/block.c:5764-5844 | the links between a node and a base are determined |
| BlockFreeze.IsBackingChainFrozen | qemu/block.c:5764-5784 | true exactly if a link of the segment is frozen |
| BlockFreeze.MayFreeze | qemu/block.c:5805-5812 | true exactly if no node below a link forbids it |
| BlockFreeze.MarkFrozen | qemu/block.c:5814-5819 | exactly the links of the segment become frozen |
| BlockFreeze.FreezeBackingChain | qemu/block.c:5793-5822 | succeeds exactly if no link is frozen and none forbids it; a failed freeze changes no flag |
| BlockFreeze.UnfreezeBackingChain | qemu/block.c:5830-5844 | its assertion holds at every link, and exactly the segment is unfrozen |
| BlockFreeze.HoldsKept | qemu/block.c:2933-2939 | over any operation that leaves frozen links alone, as all of the above do, the frozen links stay the disjoint union of the held segments |
| BlockFreeze.FreezeHolds | qemu/block.c:5793-5822 | a successful freeze adds a segment disjoint from those held |
| BlockFreeze.UnfreezeHolds | qemu/block.c:5830-5844 | letting go of a segment leaves the others frozen |
| BlockFreeze.Acquire | qemu/block.c:5793-5822 | freezing for a new holder keeps that invariant |
| BlockFreeze.Release | qemu/block.c:5830-5844 | the matching unfreeze needs nothing but that the segment is held |
| BlockNullBase.NullBaseWalk | qemu/block.c:5830-5844 | the unfreeze down to a NULL base walks the frozen chain first and then whatever hangs below its last node |
| BlockNullBase.NullBaseAssertion | qemu/block.c:5830-5844 | whoever else froze links meanwhile, its assertion holds exactly if no link below the last node is unfrozen, and it unfreezes its own links only exactly if there is no link below |
| BlockNullBase.NullBaseAlone | qemu/block.c:5830-5844 | if nobody else freezes or unfreezes, it holds exactly if nothing was attached below |
| BlockNullBase.LinkQuiet | qemu/block.c:3573-3594 | bdrv_set_backing_hd between nodes that ask for no permission succeeds and adds one link |
| BlockNullBase.NullBaseExtended | qemu/block.c:5793-5844 | a run of set_backing_hd, freeze, set_backing_hd after which the unfreeze meets a link that is not frozen |
| Jobs.JobSystem.constructor | qemu/job.c:56-56 | no jobs: the invariant holds |
| Jobs.BlockJobsKeepRule | qemu/block/mirror.c:1329-1350 | mirror_cancel, commit_active_cancel and backup_cancel answer false only to a soft cancel of a job that is ready |
| Jobs.FinalizedOk | qemu/job.c:846-883 | a finalized job is out of its transaction, concluded or NULL, with one of commit and abort and one clean |
| Jobs.CancelledOk | qemu/job.c:888-924 | cancelling keeps the pause accounting; pause_count is positive where it is decremented |
| Jobs.EndedOk | qemu/job.c:1064-1096 | a force-cancelled job that runs to its end in an aborting transaction takes only steps of the table and ends in ABORTING, never in WAITING |
| Jobs.JobSystem.Unref | qemu/job.c:463-485 | freed with the last reference, only in NULL and outside any transaction |
| Jobs.JobSystem.DoDismiss | qemu/job.c:761-772 | NULL, out of the transaction, one reference lighter |
| Jobs.JobSystem.FinalizeSingle | qemu/job.c:846-883 | commit or abort, then clean, exactly once, and the job leaves its transaction |
| Jobs.JobSystem.Conclude | qemu/job.c:795-801 | concluded, and dismissed unless that is left to the user |
| Jobs.JobSystem.CancelAsync | qemu/job.c:888-924 | cancelled afterwards exactly if it was, or had not returned, or the driver forces it; force-cancelled exactly if it was or the driver forces it; a user pause ends |
| Jobs.JobSystem.FinishSync | qemu/job.c:1242-1270 | whichever members end meanwhile, the one waited for is completed and all are on the way out |
| Jobs.JobSystem.CancelOthers | qemu/job.c:945-957 | every member but the initiator is force-cancelled |
| Jobs.JobSystem.FinalizeAll | qemu/job.c:958-965 | until none is left: each member is drained if needed, which asserts that it was cancelled, and finalized |
| Jobs.JobSystem.TxnAbort | qemu/job.c:929-969 | every other member gets abort and clean; the initiator gets commit exactly if it neither failed nor was force-cancelled; a member that is not freed has a return value of 0 exactly if it was committed |
| Jobs.JobSystem.PrepareAll | qemu/job.c:972-987 | stops at the first member in list order that fails |
| Jobs.JobSystem.CommitAll | qemu/job.c:846-883 | every member gets commit and clean |
| Jobs.JobSystem.DoFinalize | qemu/job.c:996-1008 | all commit if all prepare; otherwise all others abort, and the finalizing job aborts exactly if it is the first to fail |
| Jobs.JobSystem.AllCompleted | qemu/job.c:1048-1053 | true exactly if every member is completed; the assertion on ret holds |
| Jobs.JobSystem.AllToPending | qemu/job.c:1020-1027 | all members become pending, each by a step of the table |
| Jobs.JobSystem.TxnSuccess | qemu/job.c:1037-1061 | the job waits, or as the last one takes the whole group to pending and on |
| Jobs.JobSystem.GroupCompleted | qemu/job.c:1055-1060 | pending, or finalized if no member is finalized by hand |
| Jobs.JobSystem.AbortGroup | qemu/job.c:929-969 | all members of a failed or force-cancelled initiator are aborted |
| Jobs.JobSystem.JobCompleted | qemu/job.c:1064-1075 | a failure aborts the group, the last success takes it further, any other job waits |
| Jobs.JobSystem.JobExit | qemu/job.c:1081-1096 | the same, from the main loop |
| Jobs.JobSystem.Cancel | qemu/job.c:1137-1163 | aborts the group exactly if the job is unstarted or has returned and is force-cancelled; otherwise records the request or dismisses a concluded job |
| Jobs.JobSystem.UserCancel | qemu/job.c:1165-1171 | allowed exactly by the verb table |
| Jobs.JobSystem.Finalize | qemu/job.c:1010-1017 | allowed exactly in PENDING; then the group is finalized |
| Jobs.JobSystem.Dismiss | qemu/job.c:774-785 | allowed exactly in CONCLUDED |
| Jobs.JobSystem.EarlyFail | qemu/job.c:787-792 | from CREATED to NULL without any call |
| Jobs.JobSystem.Create | qemu/job.c:391-456 | a new job, paused once, in its transaction, whatever that is doing; the invariant of the group holds afterwards exactly if it is neither aborting nor pending |
| Jobs.JobSystem.Start | qemu/job.c:1121-1135 | its assertions hold exactly in CREATED; the initial pause ends |
| Jobs.JobSystem.PausePoint | qemu/job.c:609-631 | pauses exactly if asked to and not force-cancelled |
| Jobs.JobSystem.LeavePause | qemu/job.c:632-642 | back to the status before the pause |
| Jobs.JobSystem.BecomeReady | qemu/job.c:1029-1034 | a step of the table |
| Jobs.JobSystem.RunReturns | qemu/job.c:1102-1119 | the return value waits for job_exit |
| Jobs.JobSystem.DrainBegin | qemu/blockjob.c:93-97 | one more pause, counted to the drained section |
| Jobs.JobSystem.DrainEnd | qemu/blockjob.c:123-127 | the assertion on pause_count holds |
| Jobs.JobSystem.UserPause | qemu/job.c:722-733 | allowed exactly by the verb table and once |
| Jobs.JobSystem.UserResume | qemu/job.c:740-758 | allowed exactly by the verb table on a user pause; iostatus is OK afterwards |
| Jobs.JobSystem.IostatusReset | qemu/blockjob.c:555-563 | the status is OK afterwards and nothing else has changed; its assertion cannot fail, because an error status implies a user pause |
| Jobs.JobSystem.ErrorAction | qemu/blockjob.c:577-622 | the action for each policy; stopping leaves a user-visible pause and an error status |
| Jobs.JobSystem.Ref | qemu/job.c:458-461 | one more reference |
| Jobs.JobSystem.ReleaseRef | qemu/job.c:463-485 | frees exactly with the last reference to a job in NULL |
| Jobs.JobSystem.EndUserPause | qemu/job.c:753-757 | the error status and the pause of the user go, and the job is woken if that was the last pause |
| Jobs.JobSystem.Complete | qemu/job.c:1223-1240 | allowed exactly in READY and STANDBY, for a job that is not cancelled and a driver that completes |
| Jobs.GroupAtomic | qemu/job.c:972-1008 | the finalized group has one outcome for all exactly if all prepare, or the finalizing job is the first to fail, or it is alone |
| Jobs.MixedOutcome | qemu/job.c:972-1008 | a run, from no jobs at all, in which one member of a group is committed and the other aborted |
| Jobs.FinalizeHolds | qemu/job.c:846-850 | in a valid system every member of a group that can be finalized is completed, as job_finalize_single_locked asserts |
| Jobs.LateMember | qemu/job.c:391-456 | a run in which a job created in a pending transaction breaks the invariant and that assertion |
| Jobs.UnstartedStays | qemu/job.c:958-965 | whatever is entered, ends or is finalized in the loop of the abort, a job that has neither been started nor completed stays as it is |
| Jobs.AbortHangs | qemu/job.c:929-969 | if another member has neither been started nor completed, the abort does not return: in every run of its loop a member stays on the list and is never completed; if there is none, it returns (Jobs.JobSystem.TxnAbort) |
| Jobs.HangingAbort | qemu/job.c:929-969 | a run, from no jobs at all, that comes to such an abort |
| JobFacts.TransitionTable | qemu/job.c:59-72 | the transitions are those of the matrix, row by row |
| JobFacts.VerbTable | qemu/job.c:74-85 | the verbs are those of the matrix, row by row |
| JobFacts.CompletedTable | qemu/job.c:306-326 | the last five statuses are those of a completed job |
| JobFacts.TableCloses | qemu/job.c:59-72 | a completed job stays so by every step of the table, and it becomes so only by WAITING, ABORTING or, unstarted, NULL |
| JobFacts.SoftCancels | qemu/block/mirror.c:1329-1350 | a soft cancel is not forced exactly by a mirror that is ready or in standby |
| JobFacts.NewJobIs | qemu/job.c:391-456 | a new job: CREATED, paused once, not cancelled, one reference, auto_finalize and auto_dismiss as given |
| JobFacts.CancelMeans | qemu/job.c:888-924 | field by field what a cancel changes and leaves alone |
| JobFacts.EnterMeans | qemu/job.c:538-560 | a job is entered exactly if it is started, has not returned and is not busy, and becomes busy |
| JobFacts.FinalMeans | qemu/job.c:795-883 | what a finalized job carries away: its return value or -ECANCELED, CONCLUDED or NULL, its reference |
| JobFacts.EndMeans | qemu/job.c:1064-1119 | a force-cancelled job that ends has failed, with what it returned or -ECANCELED |
| JobFacts.ErrorMeans | qemu/blockjob.c:577-622 | stopped by an error: one user pause, and the first error stays on record |
| JobFacts.ResumeMeans | qemu/job.c:740-758 | the end of a user pause takes the error status with it |
| JobFacts.DrainMeans | qemu/blockjob.c:93-127 | a drained section is one pause, and its end undoes it |
| JobFacts.DismissMeans | qemu/job.c:761-772 | NULL, and the reference of the job list gone |
| JobFacts.RefMeans | qemu/job.c:458-485 | a reference taken and released is no change |
| JobFacts.SoftCancelStopsComplete | qemu/job.c:1223-1240 | after a soft cancel of a ready job, which the driver does not force, the job is marked as cancelled and job_complete is refused |
| JobFacts.DrainAndBack | qemu/blockjob.c:93-127 | a drained section leaves the pauses and the status as they were |
| JobFacts.PauseAndBack | qemu/job.c:722-758 | so do a user pause and the resume after it |
| ImgBuffers.FindNonzero | qemu/qemu-img.c:1132-1146 | the first sector that is not all zero, or -1 exactly for a zero buffer |
| ImgBuffers.CompareBuffers | qemu/qemu-img.c:1263-1288 | the longest prefix of whole chunks that all match or all differ |
| ImgBuffers.IsAllocatedSectors | qemu/qemu-img.c:1158-1209 | unallocated means all zero; exactly when the answer is allocated; the request ends at the boundary nearest to the end of the run, upwards for data and downwards for zeroes, or with the buffer |
| ImgBuffers.IsAllocatedSectorsMin | qemu/qemu-img.c:1216-1253 | allocated exactly if the first piece is, so a zero buffer is not; after the data comes a long enough run of zeroes or the end; no run of zeroes longer than the minimum by two alignments is taken for data |
| ImgCompare.CompareChunk | qemu/qemu-img.c:1540-1583 | the verdict on a chunk is whether the bytes agree, for every status and chunking |
| ImgCompare.CheckTail | qemu/qemu-img.c:1601-1622 | true exactly if the rest of the longer image is zero |
| ImgCompare.TailDecides | qemu/qemu-img.c:1588-1623 | images that agree on the shorter length are the same exactly if the rest is zero |
| ImgCompare.Compare | qemu/qemu-img.c:1506-1626 | 0 exactly if the zero-extended images agree byte for byte; in strict mode, for the answers given, exactly if sizes, bytes and status agree and at every offset reached both answers end at the image end or neither does |
| ImgCompare.StrictSelf | qemu/qemu-img.c:1532-1533 | strict mode finds an image equal to itself whatever the answers exactly if the status of its last byte does not reach back over the one before, and with the same answers always |
| ImgCompare.StrictTellsApart | qemu/qemu-img.c:1532-1533 | a run in which two equal images, answered in one range and in two, compare as different |
| ImgRebase.Overlay.Write | qemu/qemu-img.c:4102-4108 | the written range is allocated and holds the bytes, nothing else changes; a write that fails has written a part of it |
| ImgRebase.CopyDifferences | qemu/qemu-img.c:4066-4120 | the overlay still shows its contents over the old backing, also after every single write and after an error, what stays unallocated reads the same in both, and only blocks in which they differ are written; the assertion on the buffer size holds |
| ImgRebase.ChunksDiffer | qemu/qemu-img.c:4089-4108 | where compare_buffers has found differing chunks, the backing files differ in every block |
| ImgRebase.RebaseStep | qemu/qemu-img.c:4000-4121 | one round comes to what RoundOutcome says of the answers to its queries, or to an I/O error: done, the assertion fails, or the widened range does not fit the buffers |
| ImgRebase.CopyRange | qemu/qemu-img.c:4053-4121 | the assertion fails exactly if a part of the widened range is allocated, and otherwise the buffers are overrun exactly if it is longer than they are |
| ImgRebase.Rebase | qemu/qemu-img.c:4000-4122 | after every write, also one that fails, the old contents are visible over the old backing, at the end over the new one; nothing is allocated in a block in which the backing files agree; without I/O errors the outcome is that of RunFrom for the answers given |
| ImgRebase.DoneTidy | qemu/qemu-img.c:4000-4122 | a loop that came to its end has found every byte allocated, or spared, or in a free block that fits the buffers |
| ImgRebase.UniformHolds | qemu/qemu-img.c:4055-4060 | with uniform blocks the assertion holds in every round |
| ImgRebase.TidyIsUniform | qemu/qemu-img.c:4055-4060 | outside the old chain that means that blocks are allocated as a whole or not at all, and the free ones fit |
| ImgRebaseStops.SomeAnswersWork | qemu/qemu-img.c:4000-4122 | for every block size: there are true answers with which the loop comes to its end exactly if every byte is allocated, or spared, or in a free block that fits the buffers |
| ImgRebaseStops.StopsExactly | qemu/qemu-img.c:4000-4122 | there are true answers with which the loop stops, by a failed assertion or an overrun, exactly if there is a place it can come to, with bytes left to copy whose widened range is allocated in part, or free and too long |
| ImgRebaseStops.AssertionAlwaysHolds | qemu/qemu-img.c:4000-4060 | the assertion holds for all true answers exactly if there is no such place; if every block fits the buffers, exactly if every block is allocated as a whole or not at all, or the backing file stays the same |
| ImgRebaseStops.MixedCluster | qemu/qemu-img.c:4000-4060 | a run on a cluster with one allocated subcluster, written compressed, in which the assertion fails |
| ImgRebaseStops.WidenedFits | qemu/qemu-img.c:4052-4054 | the widened range fits the buffers exactly if what was asked for, counted from the boundary below it and rounded up to blocks, does, or the rest of the image does |
| ImgRebaseStops.RoundOverruns | qemu/qemu-img.c:4052-4087 | a round overruns the buffers exactly if it has something free to copy that, so counted, is more than they hold |
| ImgRebaseStops.BuffersMayOverrun | qemu/qemu-img.c:4000-4087 | some true answers overrun the buffers exactly if there is a place for it; there is none if the backing file stays the same, nor outside the old chain if blocks divide the buffers evenly |
| ImgRebaseStops.AlignedNeverOverruns | qemu/qemu-img.c:4000-4087 | with answers that end on block boundaries or at the end of the image no round overruns the buffers, whatever the block size |
| ImgRebaseStops.BigBlockOverruns | qemu/qemu-img.c:4000-4087 | with a free first block that does not fit, every true answer leads to an overrun outside the old chain |
| ImgRebaseStops.BigCluster | qemu/qemu-img.c:4000-4087 | a run with one cluster of 4 MiB and a new backing file outside the old chain that overruns |
| ImgRebaseStops.DoesNotFit | qemu/qemu-img.c:4000-4087 | a run with an old backing file of one sector and clusters of 64 KiB whose second round overruns |
| ImgConvert.SelectPart | qemu/qemu-img.c:1699-1709 | the source that holds the sector, and where it begins; its assertion holds |
| ImgConvert.StatusOrSalvage | qemu/qemu-img.c:1746-1773 | an error, or a true answer; when salvaging, always an answer |
| ImgConvert.Convert.QueryStatus | qemu/qemu-img.c:1733-1796 | the status recorded is true of every sector it is recorded for, is what the flags of the answer say, and ends aligned to the alignment of the source unless it is shorter than that |
| ImgConvert.Convert.IterationSectors | qemu/qemu-img.c:1711-1816 | the next chunk is not empty, inside the image, fits the buffer if it is data, its status is true of all of it, and with compression it is whole clusters or the end |
| ImgConvert.Convert.TakeChunk | qemu/qemu-img.c:1996-2013 | the chunk begins where the last one ended, and its status is kept with it |
| ImgConvert.CoRead | qemu/qemu-img.c:1818-1869 | an error, or the sectors of the concatenated sources; when salvaging, no error, and zeroes only for sectors that could not be read on their own; without I/O errors no error and exactly the sources |
| ImgConvert.WriteSome | qemu/qemu-img.c:1877-1931 | one round leaves its sectors reading as the source; zero data is not written to a target that is zero already, and with -S 0 all data is |
| ImgConvert.CoWrite | qemu/qemu-img.c:1872-1934 | the chunk reads as the source, whether written, zeroed, left to the backing file or to a zero target; zero data is not written to a target that is zero already, and with -S 0 all data is |
| ImgConvert.CoCopyRange | qemu/qemu-img.c:1936-1965 | the chunk reads as the source, or nothing wrong has been written, so that the retry can copy it in the ordinary way |
| ImgConvertRun.StepKeeps | qemu/qemu-img.c:1967-2088 | every step of every coroutine keeps the chunks apart, their status true, every sector accounted for and the lock with one coroutine |
| ImgConvertRun.RunKeeps | qemu/qemu-img.c:1967-2151 | so does every schedule |
| ImgConvertRun.TakeMeans | qemu/qemu-img.c:2005-2044 | what becomes of a chunk that is handed out: data is read, or left to the block layer if copy_range is on; the rest waits for its turn or is written, zeroes as data with -S 0 |
| ImgConvertRun.ConvertIsFaithful | qemu/qemu-img.c:1967-2151 | a conversion that ends with 0 leaves a target that reads as the concatenated sources, fully allocated with -S 0 and no backing file; the chunks handed out tile the image |
| ImgConvertRun.ConvertDecides | qemu/qemu-img.c:2080-2087 | when every coroutine has exited, the result is 0 or an error; which one is said by FailsExactly |
| ImgConvertRun.FailsExactly | qemu/qemu-img.c:1995-2087 | in every run the result is an error exactly if a block status query, a read or a write has failed before |
| ImgConvertRun.NoErrorSucceeds | qemu/qemu-img.c:1995-2087 | a run without such a failure in which every coroutine has exited ends with 0 and the target reads as the sources |
| ImgConvertRun.OrderStep | qemu/qemu-img.c:2035-2078 | every step keeps the order of writes and the chain of waiting coroutines |
| ImgConvertRun.WritesAreInOrder | qemu/qemu-img.c:2035-2078 | writes follow each other from the start without gap, and all are written when the result is 0 |
| ImgConvertRun.WaitingWillBeEntered | qemu/qemu-img.c:2035-2078 | a waiting coroutine has a predecessor with its chunk in hand, also after an error, and the chain leads to one that is not waiting |
| ImgConvertRun.SomebodyCanMove | qemu/qemu-img.c:1991-2078 | with writes in order there is no deadlock: while a coroutine is running, one of those running can move |
| ImgConvertEnds.StepLowers | qemu/qemu-img.c:1967-2088 | every step lowers a measure: sectors not handed out, and what is left of the chunks in hand, attempts of copy_range included |
| ImgConvertEnds.ConvertEnds | qemu/qemu-img.c:1967-2151 | however the coroutines are scheduled and whatever fails, a run has at most ten steps to a sector and three to a coroutine |
| ImgConvertEnds.StuckIsDecided | qemu/qemu-img.c:2080-2151 | a run that cannot go on has ended: every coroutine has exited and the result is 0 or an error |
| ImgConvertExec.Conversion.constructor | qemu/qemu-img.c:2124-2136 | the coroutines before their first turn |
| ImgConvertExec.Conversion.HandOn | qemu/qemu-img.c:2063-2078 | the order of writes is handed to the coroutine that waits for it |
| ImgConvertExec.Conversion.TestTurn | qemu/qemu-img.c:2035-2044 | wait for the turn, write, or after an error hand on |
| ImgConvertExec.Conversion.BeginChunk | qemu/qemu-img.c:2021-2033 | what is done at the label retry before the read |
| ImgConvertExec.Conversion.LockStep | qemu/qemu-img.c:1991-1995 | what a coroutine does with the lock is a step of the machine: go on, or leave the loop and exit |
| ImgConvertExec.Conversion.TakeStep | qemu/qemu-img.c:1996-2033 | so is handing out the next chunk |
| ImgConvertExec.Conversion.ReadStep | qemu/qemu-img.c:2023-2044 | so is reading it; the assertion that it fits the buffer holds |
| ImgConvertExec.Conversion.ContinueStep | qemu/qemu-img.c:2037-2044 | so is going on when woken |
| ImgConvertExec.Conversion.CopyStep | qemu/qemu-img.c:2045-2053 | so is copying by the block layer, or, after a failure, the retry |
| ImgConvertExec.Conversion.WriteStep | qemu/qemu-img.c:2044-2078 | so is writing |
| ImgConvertExec.Conversion.Run | qemu/qemu-img.c:1967-2151 | under any schedule whatever: if the result is 0, the target reads as the concatenated sources; it is an error only if there were I/O errors; once all have exited, it is decided |
| ImgConvertExec.Conversion.RunToEnd | qemu/qemu-img.c:2124-2151 | the main loop ends whichever coroutine gets each turn; then all have exited, the result is decided, it is an error only if there were I/O errors, and if it is 0 the target reads as the concatenated sources |
| ImgConvertExec.ConvertCleanly | qemu/qemu-img.c:2090-2151 | from the first turn to the last, with any number of coroutines and no I/O errors: it returns 0 and the target reads as the sources, sector by sector; with -S 0 and no backing file every sector is allocated |
| DemoPipeline.LanesOfPack | Demo/can.c:26-46 | shifting out what was shifted in gives the same four bytes |
| DemoPipeline.PackHolds | Demo/can.c:26-46 | the two data registers hold the block |
| DemoPipeline.RegisterLayout | Demo/can.c:26-46 | the first byte of each half of the block is the lowest byte of its register |
| DemoPipeline.SendBlock | README_CAN.md:522-619 | a transmitted block of eight bytes is in the receive registers of the other controller, as an extended data frame of length eight, with an overrun exactly if its buffer was occupied |
| DemoPipeline.ReleaseBuffer | README_CAN.md:462-476 | releasing clears RBS and nothing else |
| DemoPipeline.ByteRead | Demo/can.c:122-152 | the read loop copies the next byte of the block |
| DemoPipeline.StepKeeps | Demo/main.c:61-153 | every step keeps one token and the block on its way |
| DemoPipeline.RunKeeps | Demo/main.c:44-153 | so does every interleaving |
| DemoPipeline.OneTaskInside | Demo/main.c:61-153 | at most one task is between its take and its give |
| DemoPipeline.BlocksArriveInOrder | Demo/main.c:61-153 | the k-th block left in characters2 for printing is the k-th block taken from characters |
| DemoPipeline.InputKept | Demo/main.c:61-85 | over every run: the blocks taken, followed by what characters holds of the next one, are the bytes that UART_getchar returned, in order |
| DemoPipeline.BytesArriveInOrder | Demo/main.c:61-153 | the k-th block printed is bytes 8k to 8k + 7 of what UART_getchar returned |
| DemoPipeline.RoundsAreFixed | Demo/main.c:44-153 | whatever the interleaving, the token comes round every 32 steps, and each round takes one block and prints one |
| DemoPipeline.RoundsPrint | Demo/main.c:44-153 | after n rounds n blocks have been printed, and they are all that UART_getchar has returned |
| DemoPipeline.NoOverrun | README_CAN.md:572-619 | CAN1 never reports an overrun, and the poll finds a frame |
| DemoPipeline.AlwaysOneEnabled | Demo/main.c:44-153 | there is always exactly one task that can move |

## Left out

- Freeing a node whose last reference is gone (`bdrv_delete`), drain counters, graph locks and coroutine scheduling.
- `bdrv_replace_child_bs` and reopening: further users of the same steps.
- Drivers' `.bdrv_set_perm` and `.bdrv_abort_perm_update`, refreshing limits, node names, error messages, option parsing, opening and creating images.
- Nodes that refuse a change of context themselves; the order of children and parents, which a rollback does not restore.
- ImgRebase.Rebase: the switch of the backing file name is not modelled.
- ImgRebase.RebaseStep: the assertion also asks that one answer of `bdrv_is_allocated` covers the whole widened range; only
  what the answer says of the range is modelled.
- Convert: rate limits, bitmaps, the encoding of compressed clusters, the first pass that counts allocated sectors for the
  progress display, and the request at the end that aligns a compressed image.
- ImgConvert.Convert.QueryStatus: block status is taken in whole sectors.
- ImgConvert.StatusOrSalvage: how the range shrinks from one attempt to the next is not stated.
- Jobs.JobSystem.FinishSync: that the awaited job returns is assumed, and jobs of other transactions do not run meanwhile; they share nothing with the members but
  the lock, and what they may do between calls is what the other methods do.
- Jobs.JobSystem.Create: job identifiers and their checks, speed, progress, events and notifiers are not modelled.
- Jobs.JobSystem.Unref: references that a function takes for its own duration, and references to transactions, are not modelled.
- DemoPipeline.SendBlock: identifiers, interrupts and the UART are not modelled; the demo enables no CAN interrupt.
- The other device models, the monitor commands and the remaining subcommands of qemu-img.
