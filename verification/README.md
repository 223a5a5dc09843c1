# Verification of Ferail's algorithms and protocols

Ferail is a file manager. Its crates without user interface contain protocols between threads, stores that
must ignore stale results, indexes that must agree with the data they summarise, and layout and text
algorithms. This project models them in Dafny and proves what they are for. `dafny verify dfyconfig.toml` verifies
all of it.

## What is modelled

- **Parallel directory walk** (`Walk`, `WalkSafety`, `WalkProgress`, `WalkDelivery`, `WalkCausality`, `WalkCuts`,
  `WalkCancellation`, `WalkOrder`, `RecursiveTotals`, `RecursiveCounts`, `RecursiveOrders`, `RecursiveDirectories`,
  `RecursiveSchedules`).
  Workers, the shared queue with its condition variable, the bounded event channel and the coordinator are one
  transition system; directories are fixed entry lists. Each thread moves one step at a time, in any order.
- **Disk usage** (`DiskUsageModel`, `DiskUsageTotals`, `DiskUsageFacts`, `DiskUsageTree`, `DiskUsageRemoval`,
  `DiskUsageShared`, `DiskUsageLayout`, `DiskUsageFilter`, `DiskUsageScan`, `DiskUsageEntries`, `WalkScan`). The tree keeps descendant totals along parent chains; a class with the
  source's loops is proved against functions that say what each operation does to the whole tree, and the
  meaning of the totals is proved about those functions.
- **Treemap** (`RealFacts`, `TreemapRows`, `Treemap`, `TreemapFamily`, `TreemapShown`, `TreemapPoints`). Squarified layout in real arithmetic, with padding,
  label strips and one-pixel culling.
- **Size-class allocator** (`AllocatorHeap`, `AllocatorSteps`, `Allocator`, `AllocatorThreads`, `AllocatorRuns`,
  `AllocatorResults`).
  Memory is a map from addresses to cells, free lists are links in that memory. The sequential allocator is a
  class; the locks are a transition system over the same small heap steps.
- **ANSI text** (`AnsiScreen`, `AnsiLaws`, `AnsiRenditions`, `AnsiSequences`, `AnsiInsertion`, `AnsiDocuments`,
  `AnsiRenderer`). The reference is a terminal on a total grid, for the
  subset of ECMA-48 (sections 5.4, 5.6 and 8.3.117) the renderer reads; the renderer works on a ragged canvas.
- **Asset scheduler** (`AssetLane`, `AssetLaws`, `AssetRuns`, `AssetLedger`, `AssetScheduler`). Lanes with budgets, priorities, eviction,
  cancellation and generations.
- **Duplicate search** (`FileStreams`, `Duplicates`, `DuplicateGroups`). Size, prefix hash, full hash, and bytes
  compared in chunks under short and failing reads.
- **Deadline probes** (`ProbePool`, `ProbeLaws`). Callers, pool threads, keys in flight and the idle stack.
- **Dates in filters** (`Calendar`, `DateFilter`, `DateTexts`). Two independent day-number conversions and the date terms.
- **Archive tree** (`TextOrder`, `ArchivePaths`, `ArchiveTree`, `ArchiveLaws`, `ArchiveIndex`). The path index and its rows.
- **Stores for late results** (`RootsModel`, `RootsStore`, `SurfaceStore`).

`Sums` holds sums over sequences that several modules share.

## What the proofs found

- A cancellation applied before any worker has taken a directory empties the queue, the workers leave, and the
  coordinator's receive fails with nothing pending: the loop ends early there, but no event is lost
  (`CancelBeforeFirstPopEndsInRecvFailure`).
- The cycle check skips nodes announced as files. A link it accepts closes a cycle exactly when the node is
  already on the container's chain, which needs a parent that was announced again as a file
  (`LinkClosesCycleIff`). Three facts do it: the root holds a node, is announced again as a file, and is then linked
  below that node (`ReannouncedParentClosesCycle`).
- A file linked from two containers can spoil the totals when one of them is removed; five facts build such a tree
  (`SharedMemberIsReachable`). On every tree a stream of facts can build, totals survive a removal if and only if
  whatever disappears from under a surviving node without being in the subtree weighs nothing
  (`RemovalKeepsTotalsIff`).
- Recursive totals depend on the schedule when two names of one file report different sizes: two finished runs of
  one walk with two workers disagree (`ScheduleDecidesWhichNameCounts`). Totals ignore the order of the entries if
  and only if the names agree or even the least sum saturates (`TotalsIgnoreOrderIff`); they ignore the schedule
  already when the first names in each directory agree (`TotalsIgnoreSchedule`).
- A text without escape is returned as it is, so inserting a control string into it shows unless the text is
  already what a terminal would make of it: no control characters but line breaks, no trailing blanks, no blank end,
  and no more or longer lines than the screen (`InsertionIsInvisibleIff`). A lone carriage return disappears
  (`ReturnDisappears`).
- The date parser takes day 31 in every month. Such a date names a day of the next month
  (`RoundTripIffDayExists`, `ThirtiethOfFebruary`, `BareDateIsItsDay`).
- The date column prints the UTC date while the filter's bounds are shifted by the zone offset. For a given moment
  they agree exactly when both dates are the same, and for all moments only at offset zero
  (`FilterFollowsColumnIff`, `AgreementNeedsNoOffset`, `ColumnAndFilterDisagree`).
- A printed date reads back if and only if its year is not negative (`PrintedDateReadsBackIff`,
  `NegativeYearIsLost`).
- A pending asset request that is reprioritised over, because the new one has another generation or a higher
  priority, is the only one that leaves the queue without being started or reported (`OvertakenIff`).
- After a discovery of platform roots begins, a root that was being started stays Starting and cannot be started
  again until some snapshot is applied, whatever happens to other roots (`CaughtRootStays`). Whether a snapshot
  result is applied depends only on no later discovery, so one delivered twice is applied twice
  (`SnapshotCountsIffNewest`); activations cannot be (`ResultCountsIffUndisturbed`).
- `normalize` halves runs of slashes once, so `a///b` keeps an empty component. It gives the names between the
  slashes joined by single ones if and only if no three slashes stand in a row inside the path (`NormalFormIff`). The
  index handles the others too, but looking a node up by its path, which normalises again, finds every node if and
  only if no entry has such a path (`NodesAreNormalIff`).
- A probe that panics takes its key with it: from then on every probe for that key is refused (`PanickedKeyIsLost`).
- A block that alloc returns was held by nobody when the call entered its critical section, whatever other threads do,
  with one exception: memory of the system that its holder gave back since can come in again as a new slab
  (`AllocReturnsAFreeBlock`).

## Model

| member | source | states |
|---|---|---|
| WalkSafety.PendingIsExact | crates/ferail-fs-native/src/directory_reader.rs:203-317 | In every interleaving, cancelled or not, `pending` is the queued directories plus those held by workers plus the Done events in the channel, and the loop ends only with an empty queue, no busy worker and an empty channel. |
| WalkSafety.SubtractionsNeverClip | crates/ferail-fs-native/src/directory_reader.rs:272-306 | Neither saturating subtraction from `pending` ever clips. |
| WalkSafety.RecvFailsOnlyWhenNothingIsPending | crates/ferail-fs-native/src/directory_reader.rs:283-285 | The receive can only fail after an applied cancellation that left nothing pending. |
| WalkSafety.CancelBeforeFirstPopEndsInRecvFailure | crates/ferail-fs-native/src/directory_reader.rs:271-285 | A concrete run in which it does fail: cancellation before any directory was taken. |
| WalkSafety.ChannelIsBounded | crates/ferail-fs-native/src/directory_reader.rs:205-207 | In every run at most two events for each worker wait to be heard, none with more than 256 entries, and a worker with something to send waits only while there are that many. |
| WalkProgress.NeverStuck | crates/ferail-fs-native/src/directory_reader.rs:212-309 | Short of the final state some thread can move without a spurious wake-up: no deadlock despite the bounded channel, no lost wake-up. |
| WalkProgress.MeasureDrops | crates/ferail-fs-native/src/directory_reader.rs:212-309 | A measure on the state falls with every step that is not a spurious wake-up, with or without cancellation. |
| WalkProgress.RunsAreBounded | crates/ferail-fs-native/src/directory_reader.rs:212-309 | No run without spurious wake-ups is longer than the measure of its start, so the walk of a finite tree ends. |
| WalkDelivery.EveryVisitHappensExactlyOnce | crates/ferail-fs-native/src/directory_reader.rs:198-317 | In every finished uncancelled run each visitor call is made exactly as often as the tree asks for it, whatever the schedule. |
| WalkDelivery.EachWorkerTellsWholeScripts | crates/ferail-fs-native/src/directory_reader.rs:232-262 | What the visitor hears from one worker is a sequence of whole directories: Started, batches, Done. |
| WalkCuts.EachWorkerTellsCutScripts | crates/ferail-fs-native/src/directory_reader.rs:219-317 | In every finished run, cancelled or not, a worker has told one script for each directory it took, in order, cut at most where its reader saw the flag; the visitor hears all but batches that arrive after the cancellation was applied, so every Started has its Done. |
| WalkCancellation.CancellationIsFinal | crates/ferail-fs-native/src/directory_reader.rs:271-292 | From the check that sees the flag on, in every continuation: the walk is stopped, the queue stays empty, no worker takes another directory and the visitor hears of no more entries. |
| WalkOrder.TakenInOrderFound | crates/ferail-fs-native/src/directory_reader.rs:209-306 | In every run directories are taken in the order in which the visitor found them, whichever worker takes them; uncancelled, those not taken yet are the queue. |
| WalkDelivery.EachDirectoryIsStartedOnce | crates/ferail-fs-native/src/directory_reader.rs:286-299 | Every directory reached is started exactly as often as it is reached. |
| WalkDelivery.ChunksConcatenate | crates/ferail-fs-native/src/directory_reader.rs:239-258 | Every batch but the last has exactly 256 entries, none is empty, and they concatenate to the directory's entries in order. |
| WalkDelivery.VisitsAreScripts | crates/ferail-fs-native/src/directory_reader.rs:154-166 | The visits a tree asks for are one script for each directory reached. |
| WalkDelivery.SerialWalk | crates/ferail-fs-native/src/directory_reader.rs:175-197 | The loop for one worker, wherever the cancellation is seen: whole scripts, each cut only where its reader saw the flag, in the order in which directories are found, up to the first check that sees the flag; no directory more often than it is reached; uncancelled, exactly the calls the tree asks for. |
| WalkCausality.CallsFollowTheirBatch | crates/ferail-fs-native/src/directory_reader.rs:198-317 | In every interleaving, cancelled or not and for any visitor, each call is for the root or for a folder of a batch the visitor was called with before. |
| RecursiveTotals.TotalsVisitor.Visit | crates/ferail-fs-native/src/disk_usage_scanner.rs:412-448 | The closure over running totals and seen links, tied to the function that says what one event does to them. |
| RecursiveTotals.TotalsAreClampedSums | crates/ferail-fs-native/src/disk_usage_scanner.rs:400-451 | The totals are the clamped sums over files that count: single-linked ones and the first name of each other. |
| RecursiveCounts.TotalsEntryByEntry | crates/ferail-fs-native/src/disk_usage_scanner.rs:411-447 | Entry by entry, without a set of links seen: a file adds its size unless an earlier entry is another name of it, a folder counts when it is entered, and each total is the clamped sum. |
| RecursiveTotals.CountIgnoresOrder | crates/ferail-fs-native/src/disk_usage_scanner.rs:411-441 | When the names of a file agree on its size, any order of the same entries gives the same sums. |
| RecursiveTotals.TotalsDoNotDependOnSchedule | crates/ferail-fs-native/src/disk_usage_scanner.rs:400-451 | So every finished uncancelled parallel run, with any number of workers, gives the totals of the serial one. |
| RecursiveDirectories.TotalsIgnoreSchedule | crates/ferail-fs-native/src/disk_usage_scanner.rs:400-451 | Schedules keep the order inside a directory: any two finished runs agree if only the first names that the directories hold of each file agree, whatever later names report. |
| RecursiveOrders.SameInEveryOrderIff | crates/ferail-fs-native/src/disk_usage_scanner.rs:434-441 | One saturating measure is the same in every order of the entries if and only if the names of each file agree on it or the least sum over all orders already saturates. |
| RecursiveOrders.TotalsIgnoreOrderIff | crates/ferail-fs-native/src/disk_usage_scanner.rs:411-447 | All four totals ignore the order if and only if that holds for bytes and for blocks. |
| RecursiveOrders.ConsistencyIsNeeded | crates/ferail-fs-native/src/disk_usage_scanner.rs:434-441 | While the counters have room, agreement of the names is necessary and sufficient. |
| RecursiveSchedules.ScheduleDecidesWhichNameCounts | crates/ferail-fs-native/src/disk_usage_scanner.rs:400-451 | When two subdirectories hold one name each of a file, two finished runs of the same walk with two workers exist, and each reports the sizes of the name it heard first. |
| DiskUsageTotals.FactKeepsTotals | crates/ferail-disk-usage/src/facts.rs:46-77 | Each fact keeps parent chains acyclic and each node's three totals equal to the sums over its proper descendants, while the totals fit 64 bits. |
| DiskUsageTotals.StreamKeepsTotals | crates/ferail-disk-usage/src/facts.rs:79-83 | The same for every stream of facts, in any order, sizes before links included. |
| DiskUsageTotals.AdoptKeeps | crates/ferail-disk-usage/src/model.rs:211-249 | Registering a parent for a node with a subtree of its own adds that subtree's weight to the whole chain exactly. |
| DiskUsageTotals.LinkClosesCycleIff | crates/ferail-disk-usage/src/model.rs:211-261 | An accepted link closes a cycle if and only if the node is on the container's chain, and then it was announced as a file after becoming a parent. |
| DiskUsageTotals.ReannouncedParentClosesCycle | crates/ferail-disk-usage/src/model.rs:211-261 | Three facts from a new tree after which the parent chains have a cycle. |
| DiskUsageFacts.FactsTellTheTree | crates/ferail-disk-usage/src/model.rs:160-261 | After any stream of facts, said from the fact list alone: which nodes there are, each one's bytes and blocks as the clamped sums of what was reported for it, its kind, scan state and members, and its parent as the first container linked to it without closing a cycle. |
| DiskUsageFacts.SizesFollowTheFacts | crates/ferail-disk-usage/src/model.rs:165-209 | What a node weighs on each axis: reported bytes, reported blocks, and blocks where there are any or else bytes. |
| DiskUsageFacts.GrandIsReported | crates/ferail-disk-usage/src/model.rs:165-209 | All nodes together weigh what all facts together report. |
| DiskUsageFacts.ScannedBlocksAreTheRootTotal | crates/ferail-fs-native/src/disk_usage_scanner.rs:215-352 | After a scan the root's totals of blocks and of bytes are the sums of all blocks and of all bytes reported. |
| DiskUsageObject.DiskUsageTree.RegisterParent | crates/ferail-disk-usage/src/model.rs:211-249 | The walk up the chain with its cycle check leaves the tree that the adoption function gives. |
| DiskUsageObject.DiskUsageTree.PropagateAdd | crates/ferail-disk-usage/src/model.rs:263-284 | The loop over the chain adds to every ancestor, each once, and to nobody else. |
| DiskUsageObject.DiskUsageTree.AddSize | crates/ferail-disk-usage/src/model.rs:165-177 | Own size and all ancestor totals change together, on all three axes. |
| DiskUsageObject.DiskUsageTree.AddAllocated | crates/ferail-disk-usage/src/model.rs:179-209 | Blocks change two axes at once: the effective one replaces the byte size when the first block arrives. |
| DiskUsageObject.DiskUsageTree.AddLinkUnchecked | crates/ferail-disk-usage/src/model.rs:160-163 | The edge and the parent are recorded together. |
| DiskUsageObject.DiskUsageTree.ApplyFact | crates/ferail-disk-usage/src/facts.rs:46-77 | The dispatch leaves the tree the fact's function gives, creating the container first. |
| DiskUsageObject.DiskUsageTree.ApplyFacts | crates/ferail-disk-usage/src/facts.rs:79-83 | A batch is its facts one after the other. |
| DiskUsageObject.DiskUsageTree.RemoveSubtree | crates/ferail-disk-usage/src/model.rs:308-345 | The loops take out what the container edges reach, subtract along the chain and drop back edges. |
| DiskUsageRemoval.RemovalKeepsSound | crates/ferail-disk-usage/src/model.rs:308-345 | With one container per node, removing any node removes exactly its subtree and leaves chains, edges and all totals right. |
| DiskUsageRemoval.SubtractionIsExact | crates/ferail-disk-usage/src/model.rs:309-335 | The saturating subtraction never clamps and gives the sum over what survives. |
| DiskUsageShared.StreamIsLinked | crates/ferail-disk-usage/src/facts.rs:79-83 | Whatever a stream of facts links, and however often, each parent edge is a container edge and chains stay well formed. |
| DiskUsageShared.RemovalTakesSubtreeIff | crates/ferail-disk-usage/src/model.rs:308-345 | On such trees a removal takes the whole subtree, and nothing else if and only if every member its containers hold has its parent in the subtree. |
| DiskUsageShared.RemovalKeepsTotalsIff | crates/ferail-disk-usage/src/model.rs:308-345 | On such trees all totals are exact after a removal if and only if every node that disappears from under a survivor without being in the subtree weighs nothing on each axis. |
| DiskUsageShared.SharedMemberIsReachable | crates/ferail-disk-usage/src/model.rs:308-345 | Five facts, four links and one size, build a tree in which removing a container leaves wrong totals behind. |
| DiskUsageLayout.BuildInner | crates/ferail-disk-usage/src/aggregate.rs:182-264 | On a sound tree the depth-limited recursion builds the reference layout: full subtree sums everywhere, children down to the limit. |
| DiskUsageLayout.RootTotalIgnoresDepth | crates/ferail-disk-usage/src/aggregate.rs:235-262 | The root total is the same for every depth limit in both size modes, so cached totals agree with the full sum. |
| DiskUsageLayout.MembersCoverDescendants | crates/ferail-disk-usage/src/aggregate.rs:251-259 | The members' subtrees together are exactly the descendants. |
| DiskUsageFilter.BuildFiltered | crates/ferail-disk-usage/src/aggregate.rs:78-167 | Whatever the depth limit, the filtered tree weighs the union of the subtrees of all matches, and is missing only when they weigh nothing; the focus itself is no match. |
| DiskUsageFilter.MembersCount | crates/ferail-disk-usage/src/aggregate.rs:126-151 | What a container without a match counts is what its members count, without overlap. |
| DiskUsageScan.ScanVisitor.Visit | crates/ferail-fs-native/src/disk_usage_scanner.rs:197-345 | The visitor's inserts into the seen sets, its decision about each entry, its buffer, ids and statistics give exactly the facts and children of the event, and flushing keeps the emitted order. |
| DiskUsageScan.EventsLead | crates/ferail-fs-native/src/disk_usage_scanner.rs:215-345 | The facts of any deliverable order of events are admissible and build a tree below the root that agrees with the statistics. |
| DiskUsageScan.ScannedBytesAreTheRootTotal | crates/ferail-fs-native/src/disk_usage_scanner.rs:215-352 | After a finished scan every node is below the root, and the root's Apparent total is the reported byte count. |
| DiskUsageEntries.ScanTellsEachEntry | crates/ferail-fs-native/src/disk_usage_scanner.rs:197-345 | Entry by entry, looking only at the entries heard before it: which are entered, which are stubs or further names of a file, the bytes and blocks reported for each, its kind, who is whose member, and the statistics. |
| DiskUsageEntries.RootTotalsAreTheEntries | crates/ferail-fs-native/src/disk_usage_scanner.rs:215-352 | So the root's totals are the sums over the entries themselves. |
| DiskUsageEntries.DirsAreStarts | crates/ferail-fs-native/src/disk_usage_scanner.rs:211-214 | The directories counted are those the visitor was told to have started. |
| WalkScan.EveryScanIsDeliverable | crates/ferail-fs-native/src/disk_usage_scanner.rs:205-352 | In every run of the parallel walk with the scanner's visitor, finished or not, cancelled or not, the calls come in a deliverable order, none is for a directory without a context, and the facts build a sound tree whose root total is the byte count reported. |
| WalkScan.EachIdentityIsEnteredOnce | crates/ferail-fs-native/src/disk_usage_scanner.rs:190-245 | When the platform reports identities, no more directories are entered than new identities are seen, so a volume with cycles is walked as a finite tree. |
| TreemapRows.BestRowLen | crates/ferail-disk-usage/src/layout.rs:190-213 | The row's worst aspect ratio never rises while it grows to the returned length, and the next item would make it worse. |
| TreemapRows.RunningFormulaIsWorst | crates/ferail-disk-usage/src/layout.rs:200-206 | The formula over running sum, minimum and maximum is the true worst ratio over the row as laid out. |
| TreemapRows.RatioFormula | crates/ferail-disk-usage/src/layout.rs:190-226 | Squared sum against squared edge times area is the ratio of an item's sides in its row. |
| Treemap.Squarify | crates/ferail-disk-usage/src/layout.rs:136-184 | The boxes are best rows, one after the other, each along the shorter side of what is left, with boxes one behind the other in it; they are disjoint, in order and proportional, and rows and leftover make up the starting box. |
| Treemap.PlaceRow | crates/ferail-disk-usage/src/layout.rs:152-182 | One turn of the loop: the best row along the shorter side, and what is placed plus what is left is still everything. |
| Treemap.AddNodeRect | crates/ferail-disk-usage/src/layout.rs:228-282 | A node's whole picture: its rectangle with flags and label strip, then its children's level in its content exactly when there is depth, room and something to draw, and so on down. |
| Treemap.LayoutChildren | crates/ferail-disk-usage/src/layout.rs:106-134 | One contiguous block for each visible child, in order, each the child's whole picture in a tile whose area is its share of the box; tiles and leftover make up the box; preorder. |
| Treemap.ComputeTreemap | crates/ferail-disk-usage/src/layout.rs:56-98 | The whole picture at every depth: the root fills the bounds, every level is complete in its parent's content with proportional tiles, in preorder, siblings half-open disjoint. |
| TreemapFamily.EveryRectangleHasItsParent | crates/ferail-disk-usage/src/layout.rs:56-134 | Every rectangle but the root's has an earlier one a level up, with only deeper ones between, that stands for its node's parent, encloses it in its content and gives it the share its size demands. |
| TreemapShown.RectanglesSay | crates/ferail-disk-usage/src/layout.rs:228-282 | Each rectangle below the root stands for a node, is at least a pixel each way, and lays out children exactly when the node has some, the depth allows it and more than two pixels are left each way inside the padding and the label strip of 15 pixels, which it has from 60 by 44 on. |
| TreemapShown.LargeChildrenAreShown | crates/ferail-disk-usage/src/layout.rs:106-184 | At every depth, each child of a node whose rectangle lays out children has its own rectangle if its part of the size is at least the part that a pixel is of the shorter side. |
| TreemapPoints.ChildrenAreInset | crates/ferail-disk-usage/src/layout.rs:228-282 | In coordinates: a child lies a pixel inside its parent's edges and below its label strip, and has the part of the area there that its size is of its parent's. |
| Treemap.HitTest | crates/ferail-disk-usage/src/layout.rs:102-104 | In coordinates: a rectangle is found if and only if the point is in one, left and top edges included, right and bottom edges not; it holds the point, no later one does, and in a treemap it is the unique deepest. |
| TreemapPoints.TileAt | crates/ferail-disk-usage/src/layout.rs:38-104 | Layout and search together: something is hit exactly when there is a picture and the point is in the bounds, and the tile hit is the deepest under the point and lies in every other. |
| Treemap.SameDepthIsDisjoint | crates/ferail-disk-usage/src/layout.rs:38-40 | In coordinates: a point in one rectangle of a level is in no other of that level. |
| AllocatorHeap.ClassIndex | crates/aros-alloc/src/lib.rs:40-45 | The class found is the smallest that holds the size; none exactly above the limit. |
| AllocatorHeap.ClassForIsSmallest | crates/aros-alloc/src/lib.rs:131-137 | No class exactly for more than 2048 bytes or an alignment above 16; otherwise the smallest class that holds the size. |
| AllocatorHeap.LiveBlocksAreDisjoint | crates/aros-alloc/src/lib.rs:131-150 | Live allocations are aligned and never overlap, across classes too. |
| AllocatorHeap.FreeBlocksAreApart | crates/aros-alloc/src/lib.rs:131-165 | A listed block overlaps no live one. |
| AllocatorSteps.PushCarvedKeeps | crates/aros-alloc/src/lib.rs:111-120 | One turn of refill's loop lists exactly one new block and keeps lists, partition and geometry of all classes. |
| AllocatorSteps.FinishTakeKeeps | crates/aros-alloc/src/lib.rs:145-149 | Popping the head hands out a block that was free and keeps everything. |
| AllocatorSteps.PushFreedKeeps | crates/aros-alloc/src/lib.rs:159-164 | Pushing a freed block keeps everything. |
| AllocatorSteps.ProgramWritesAreHarmless | crates/aros-alloc/src/lib.rs:131-165 | Whatever a program writes into a block it holds, no list is damaged. |
| Allocator.ArosAlloc.Refill | crates/aros-alloc/src/lib.rs:103-121 | A fresh slab becomes a list of all its blocks in address order; other memory is untouched. |
| Allocator.ArosAlloc.Alloc | crates/aros-alloc/src/lib.rs:131-150 | The first listed block, after a refill if needed; null if and only if the system has none and the list is empty or no class serves the layout; nothing held changes. |
| Allocator.ArosAlloc.Dealloc | crates/aros-alloc/src/lib.rs:152-165 | The block heads its list again; what is still held keeps its contents. |
| Allocator.ArosAlloc.Realloc | crates/aros-alloc/src/lib.rs:167-183 | The first min(old, new) bytes survive, a failure changes nothing, the same class keeps the address; afterwards exactly the new block is held instead of the old one, and other holdings keep their contents. |
| Allocator.HeldBlocksApart | crates/aros-alloc/src/lib.rs:131-183 | Any two held blocks are disjoint, from classes or the system. |
| AllocatorThreads.StepKeeps | crates/aros-alloc/src/lib.rs:56-183 | Every step of every thread and of the programs keeps the heap in order, one owner per lock, and locks in step with owners. |
| AllocatorRuns.AnyRunIsSafe | crates/aros-alloc/src/lib.rs:56-183 | In every interleaving: mutual exclusion, complete acyclic lists whenever a lock is free, disjoint held blocks. |
| AllocatorRuns.OthersLeaveTheListAlone | crates/aros-alloc/src/lib.rs:61-69 | While a thread holds a class lock nobody else changes its head, list or progress. |
| AllocatorResults.AllocReturnsAFreeBlock | crates/aros-alloc/src/lib.rs:131-150 | In every interleaving, what a call returns is aligned and held with the layout asked for, is the head of the list where that was not empty when it entered, is no other pending result and about to be freed by nobody, and was held by nobody then, but for system memory given back since; it is null exactly if the system refused a slab, and only where the list was empty. |
| AllocatorResults.RunKeepsResults | crates/aros-alloc/src/lib.rs:131-150 | In every state of every run the pending results are held blocks, each of one call. |
| AllocatorRuns.HeldContentsStay | crates/aros-alloc/src/lib.rs:131-165 | Memory of a held block changes only under its holder's stores. |
| AllocatorRuns.SomeThreadCanMove | crates/aros-alloc/src/lib.rs:61-73 | While a call is under way, its thread or the owner of the lock it spins on can move. |
| AllocatorRuns.CriticalSectionsEnd | crates/aros-alloc/src/lib.rs:103-165 | A critical section ends after boundedly many steps of its own thread, whatever others do. |
| AnsiLaws.DocumentIsBounded | crates/ferail-core/src/text_encoding.rs:234-373 | With an escape in the text: at most the allowed lines and columns, no control character, no blank end. |
| AnsiLaws.SpansSorted | crates/ferail-core/src/text_encoding.rs:336-373 | Spans are sorted, disjoint and maximal. |
| AnsiLaws.SpansStyleEachCharacter | crates/ferail-core/src/text_encoding.rs:336-373 | Each character has its cell's style, by exactly the span it lies in. |
| AnsiLaws.SpansOnBoundaries | crates/ferail-core/src/text_encoding.rs:336-373 | Spans start and end between characters. |
| AnsiDocuments.RenderedShowsTheScreen | crates/ferail-core/src/text_encoding.rs:234-373 | Read back from text, UTF-8 byte offsets and ranges: each cell of the screen is the character at its line and column with the style of the range its first byte is in, and blank where the document has no such place. |
| AnsiDocuments.DocumentDeterminesTheGrid | crates/ferail-core/src/text_encoding.rs:337-373 | Two screens with one document are the same screen. |
| AnsiLaws.ExecSplits | crates/ferail-core/src/text_encoding.rs:241-335 | Interpreting a text that ends in the ground state and then its continuation is interpreting both. |
| AnsiLaws.ControlStringsAreInert | crates/ferail-core/src/text_encoding.rs:427-439 | A terminated OSC, DCS, SOS, PM or APC string leaves grid, cursor and style alone before any continuation. |
| AnsiLaws.InsertionChangesNoDocument | crates/ferail-core/src/text_encoding.rs:241-335 | So inserting one changes no rendering of a text that has an escape. |
| AnsiInsertion.DrawnAsIsIff | crates/ferail-core/src/text_encoding.rs:227-373 | A text without escape equals its own grid document if and only if it has no control character but line breaks, fits the screen, and has no trailing blanks and no blank end. |
| AnsiInsertion.InsertionIsInvisibleIff | crates/ferail-core/src/text_encoding.rs:227-373 | Inserting a control string at a ground point changes nothing if and only if the text has an escape or is such a text. |
| AnsiInsertion.ReturnDisappears | crates/ferail-core/src/text_encoding.rs:227-233 | One text that changes: a lone carriage return is shown, and is gone once a title sequence follows it. |
| AnsiRenderer.RenderAnsi | crates/ferail-core/src/text_encoding.rs:227-373 | The interpreter on the ragged canvas renders exactly the document of the grid. |
| AnsiRenderer.ApplyCsi | crates/ferail-core/src/text_encoding.rs:246-305 | Each control sequence does to canvas and cursor what the grid terminal does. |
| AnsiRenderer.ApplySgr | crates/ferail-core/src/text_encoding.rs:379-419 | The loop over renditions, extended colours included, gives the reference style, in which each part is as the last code that sets it says. |
| AnsiRenditions.SgrIsRendition | crates/ferail-core/src/text_encoding.rs:379-419 | Foreground, background and weight are each what the last code that sets them says, by numeric range, with the parameters of extended colours skipped; a code that sets another part leaves them. |
| AnsiSequences.RenditionsSetTheStyle | crates/ferail-core/src/text_encoding.rs:299-299 | A rendition sequence changes the style so, and neither the screen nor the position. |
| AnsiSequences.RedForeground | crates/ferail-core/src/text_encoding.rs:387-387 | ESC [31m gives a red foreground, no background and no weight. |
| AnsiSequences.CharacterIsPlacedAndStyled | crates/ferail-core/src/text_encoding.rs:241-373 | Position, renditions and one character are rendered as that many lines and blanks, the character, and a span with the style its renditions give. |
| AnsiSequences.ParametersReadBack | crates/ferail-core/src/text_encoding.rs:263-268 | The decimal parameters of a sequence are read as those numbers, also behind a question mark. |
| AnsiSequences.OtherPartsCountAsZero | crates/ferail-core/src/text_encoding.rs:263-267 | A part that is no number, or one beyond 64 bits, counts as zero; a plus sign may stand before one. |
| AnsiSequences.ArrowsMoveTheCursor | crates/ferail-core/src/text_encoding.rs:274-277 | Up, down, right and left move by the parameter, at least by one, and stop at the edges. |
| AnsiSequences.PositionsPlaceTheCursor | crates/ferail-core/src/text_encoding.rs:270-278 | Rows and columns count from one and stop at the edges. |
| AnsiSequences.LineIsErased | crates/ferail-core/src/text_encoding.rs:285-298 | Erasing in the line, cell by cell for every mode; other rows and the cursor stay. |
| AnsiSequences.ScreenIsCleared | crates/ferail-core/src/text_encoding.rs:279-284 | Clearing blanks every cell and goes to the corner in modes 2 and 3, and does nothing in others. |
| AnsiSequences.OtherCommandsDoNothing | crates/ferail-core/src/text_encoding.rs:300-301 | Every other command is inert. |
| AnsiSequences.CharactersAreDrawn | crates/ferail-core/src/text_encoding.rs:321-333 | A printed character takes the cell under the cursor with its style; past the last column it is lost. |
| AnsiSequences.LineControlsMove | crates/ferail-core/src/text_encoding.rs:314-320 | Return, newline and tab. |
| AnsiSequences.StringsLeaveNoTrace | crates/ferail-core/src/text_encoding.rs:306-310 | Strings of all five families, spelt out with their terminators, leave the screen as it is. |
| AnsiSequences.OtherEscapesAreTwoCharacters | crates/ferail-core/src/text_encoding.rs:311-311 | An escape with any other character is those two characters and does nothing. |
| AssetRuns.RunsKeep | crates/ferail-core/src/asset_work.rs:153-339 | In every run each scope and key is reserved at most once, pending or active, and both budgets hold. |
| AssetLaws.OneRequestForOneThing | crates/ferail-core/src/asset_work.rs:153-339 | The same by scope and key: no two requests, waiting or running, are for one thing. |
| AssetLaws.RepeatedRequests | crates/ferail-core/src/asset_work.rs:176-211 | A request for something reserved does nothing exactly if that runs, or waits in its generation with at least its priority, and otherwise takes over the place of what waits. |
| AssetLaws.NewRequests | crates/ferail-core/src/asset_work.rs:212-245 | A request for something new waits if there is room; in a full queue it is refused exactly if nothing there is less urgent, and otherwise takes the place of the least urgent and oldest. |
| AssetLaws.TakenIsNewest | crates/ferail-core/src/asset_work.rs:176-245 | Whichever way it is taken, everything else that waits has waited longer. |
| AssetLaws.TheMostUrgentStarts | crates/ferail-core/src/asset_work.rs:247-267 | Something starts exactly when something waits and a worker is free: the most urgent, of those the newest. |
| AssetLaws.AcknowledgementCountsIff | crates/ferail-core/src/asset_work.rs:269-282 | An acknowledgement counts exactly if the thing runs in that generation. |
| AssetLaws.CancellingIsByGeneration | crates/ferail-core/src/asset_work.rs:286-303 | What a cancellation removes, what it signals, and when it finds nothing. |
| AssetLaws.RetiringIsByScopeAndGeneration | crates/ferail-core/src/asset_work.rs:315-334 | Retiring reaches exactly the requests of the scope in another generation, waiting or running. |
| AssetRuns.EveryReservationIsAccountedFor | crates/ferail-core/src/asset_work.rs:172-334 | In every run what was accepted is pending, has started or was reported as evicted, cancelled or retired; what has started runs or was acknowledged. |
| AssetLedger.EveryRequestIsAccountedFor | crates/ferail-core/src/asset_work.rs:172-334 | In every run each request that entered the queue is still pending, has started, was reported as evicted, cancelled or retired, or was overtaken in its slot. |
| AssetLedger.OvertakenIff | crates/ferail-core/src/asset_work.rs:192-211 | A request is overtaken if and only if one for its pending slot arrives with another generation or a higher priority; nothing reports it. |
| AssetRuns.StartsAreOrdered | crates/ferail-core/src/asset_work.rs:247-267 | Between submissions work starts in strictly falling order of priority, then recency. |
| AssetRuns.RefusedIffNoRoom | crates/ferail-core/src/asset_work.rs:212-245 | A request is refused if and only if its slot is new and the queue is full of requests at least as urgent. |
| AssetRuns.OnlyItsAcknowledgementFrees | crates/ferail-core/src/asset_work.rs:269-306 | An active slot is freed only by completing its own generation, and no cancellation is taken back. |
| AssetRuns.RetirementIsThorough | crates/ferail-core/src/asset_work.rs:315-334 | Retiring leaves nothing stale pending and signals everything stale that runs. |
| AssetScheduler.BoundedAssetLane.SubmitDetailed | crates/ferail-core/src/asset_work.rs:176-245 | The searches and updates do what submitting may do. |
| AssetScheduler.BoundedAssetLane.StartNext | crates/ferail-core/src/asset_work.rs:247-267 | The lexicographic maximum of priority and recency starts if a worker is free. |
| AssetScheduler.BoundedAssetLane.CompleteRequest | crates/ferail-core/src/asset_work.rs:270-282 | Only the running generation completes. |
| AssetScheduler.BoundedAssetLane.CancelRequest | crates/ferail-core/src/asset_work.rs:286-303 | Pending work leaves at once, running work is only signalled. |
| AssetScheduler.BoundedAssetLane.RetireScopeGeneration | crates/ferail-core/src/asset_work.rs:315-334 | The retaining loop and the signalling loop. |
| AssetScheduler.AssetWorkCoordinator.RetireEverywhere | crates/ferail-core/src/asset_work.rs:411-431 | Retiring reaches all four lanes and reports each payload under its lane. |
| FileStreams.ReadFull | crates/ferail-fs-native/src/dupes.rs:678-687 | However short the reads, the buffer is filled as far as the file allows. |
| FileStreams.FilesEqualStreaming | crates/ferail-fs-native/src/dupes.rs:657-673 | An answer is byte equality, and only a failing read prevents one. |
| Duplicates.ByteVerifySplit | crates/ferail-fs-native/src/dupes.rs:639-652 | Comparing with one representative per cluster gives the content classes, each once; under failing reads clusters are still homogeneous. |
| Duplicates.GroupBy | crates/ferail-fs-native/src/dupes.rs:359-375 | The hash map holds, key by key, the readable candidates in order. |
| Duplicates.ClassOfClass | crates/ferail-fs-native/src/dupes.rs:346-401 | Looking inside a coarse class loses none of a finer one. |
| Duplicates.PartialStageReadsTheHead | crates/ferail-fs-native/src/dupes.rs:357-375 | Files of one size meet in the second stage if their first 65536 bytes agree, and with a hash without collisions only then. |
| Duplicates.FullStageReadsAll | crates/ferail-fs-native/src/dupes.rs:387-405 | Readable files with the same bytes meet in the third stage, and with a hash without collisions no others. |
| Duplicates.Refine | crates/ferail-fs-native/src/dupes.rs:346-446 | Each stage, with buckets in any order: groups are sound always, exactly the classes when comparisons cannot fail, and all of them when not cancelled. |
| DuplicateGroups.ResultMeansContent | crates/ferail-fs-native/src/dupes.rs:344-451 | Without collisions, or in paranoid mode for any hash, the result is exactly the content-equality classes of two or more readable files, each once. |
| DuplicateGroups.RightIffNoCollision | crates/ferail-fs-native/src/dupes.rs:405-416 | In normal mode the result is right if and only if no two different files meet on all three keys. |
| DuplicateGroups.BuildMembers | crates/ferail-fs-native/src/dupes.rs:549-578 | A member is a hard link if and only if an earlier member of the group has its identity. |
| DuplicateGroups.OccupantsAreDistinctFiles | crates/ferail-fs-native/src/dupes.rs:421-425 | The occupants counted are the distinct files plus the members without identity. |
| DuplicateGroups.FindDuplicates | crates/ferail-fs-native/src/dupes.rs:344-455 | The whole exact branch: which groups are found, what is reported of each, and in what batches. |
| ProbePool.StepKeeps | crates/ferail-fs-native/src/deadline.rs:40-118 | Every step of callers and threads keeps keys, claims, queues and the idle stack in order. |
| ProbePool.OneProbePerKey | crates/ferail-fs-native/src/deadline.rs:86-118 | In every run at most one unreturned probe per key, keys in flight are exactly those of unreturned probes, no thread is idle twice. |
| ProbePool.RefusedIffInFlight | crates/ferail-fs-native/src/deadline.rs:91-97 | A repeat is refused if and only if the earlier probe of its key has not returned. |
| ProbePool.FailureFreesTheKey | crates/ferail-fs-native/src/deadline.rs:110-116 | When no thread can be started the key is free again. |
| ProbeLaws.KeyIsTakenUntilGivenBack | crates/ferail-fs-native/src/deadline.rs:86-118 | From the call that takes a key on, every other call for it is refused in every later state until the key is given back. |
| ProbeLaws.GivingBackFreesTheKey | crates/ferail-fs-native/src/deadline.rs:102-116 | Giving it back, by the probe or after a failed start, frees it. |
| ProbeLaws.PanickedKeyIsLost | crates/ferail-fs-native/src/deadline.rs:101-108 | A probe that panics never gives its key back: in no later state is another call for it accepted. |
| ProbeLaws.LastIdleIsUsedFirst | crates/ferail-fs-native/src/deadline.rs:40-68 | Idle threads are a stack. |
| ProbeLaws.OutcomesAreFinal | crates/ferail-fs-native/src/deadline.rs:78-82 | What a caller got, an answer or nothing by its deadline, no later step takes back. |
| ProbePool.JobsGoToFreeThreads | crates/ferail-fs-native/src/deadline.rs:40-50 | A job only goes to a living thread with no unfinished job, so sending never fails. |
| ProbePool.ThreadsAreReused | crates/ferail-fs-native/src/deadline.rs:40-68 | A thread is started only when every free one is already claimed. |
| ProbePool.AStuckProbeDelaysNoOther | crates/ferail-fs-native/src/deadline.rs:40-118 | Whatever other probes are stuck on, a call moves on unless it is over or its own probe runs. |
| ProbePool.DistanceShrinks | crates/ferail-fs-native/src/deadline.rs:40-118 | No step moves a call away from its probe and its own steps bring it closer. |
| ProbePool.AnswersComeAfterReturn | crates/ferail-fs-native/src/deadline.rs:78-82 | An answer exists only once the call's own probe has returned and its key is free. |
| Calendar.DayNumberCountsDays | crates/ferail-core/src/filter_expr.rs:406-422 | One day later is one more, over months, leap years, centuries and negative eras. |
| Calendar.EpochIsZero | crates/ferail-core/src/filter_expr.rs:420-421 | Counting starts at 1970-01-01. |
| Calendar.DateOfDayNumber | crates/ferail-core/src/lib.rs:622-635 | The date of a valid date's day number is that date. |
| Calendar.DayNumberOfDate | crates/ferail-core/src/lib.rs:622-635 | Every day has a valid date, and its day number is the day. |
| Calendar.OrderOfDates | crates/ferail-core/src/filter_expr.rs:406-422 | Valid dates are ordered as their day numbers. |
| Calendar.RoundTripIffDayExists | crates/ferail-core/src/filter_expr.rs:409-413 | An accepted date comes back as itself if and only if its month has that day. |
| Calendar.ThirtiethOfFebruary | crates/ferail-core/src/filter_expr.rs:409-413 | One such date: 2023-02-30 comes back as 2023-03-02. |
| DateFilter.BareDateIsItsDay | crates/ferail-core/src/filter_expr.rs:394-395 | A bare date accepts exactly the moments whose local date it is, for every zone offset. |
| DateFilter.BareDateFinds | crates/ferail-core/src/filter_expr.rs:143-150 | So a bare date finds the entries modified on that local day, never those without a modification time, and those created on it. |
| DateFilter.ComparisonsCompareDates | crates/ferail-core/src/filter_expr.rs:379-393 | Each comparison accepts exactly the moments whose local date compares so. |
| DateFilter.RangeIsItsDays | crates/ferail-core/src/filter_expr.rs:374-378 | A range accepts exactly the local dates from its first to its last. |
| DateFilter.TodayIsFromNowOn | crates/ferail-core/src/filter_expr.rs:367-367 | Today and later. |
| DateFilter.YesterdayIsTheDayBefore | crates/ferail-core/src/filter_expr.rs:368-368 | Exactly the moments whose next day is today. |
| DateTexts.RelativeTermsReachBack | crates/ferail-core/src/filter_expr.rs:364-373 | Week, month and year reach back 7, 30 and 365 days from now to the second and have no end. |
| DateTexts.DashedIsReadIff | crates/ferail-core/src/filter_expr.rs:406-413 | Three numbers between dashes, with leading zeros and blanks around, are read as that date exactly if month and day are in range and the year fits 64 bits. |
| DateTexts.OnlyDatesAreRead | crates/ferail-core/src/filter_expr.rs:406-413 | Conversely, whatever is read as a date is three such numbers, each perhaps with a plus sign. |
| DateTexts.SplitAtFirstDots | crates/ferail-core/src/filter_expr.rs:374-374 | A range is split at the first two dots in a row; without them it is none. |
| DateTexts.SecondDayInSeconds | crates/ferail-core/src/filter_expr.rs:394-395 | One day in seconds, under any offset. |
| DateTexts.ColumnPrintsIff | crates/ferail-core/src/lib.rs:570-661 | The column prints a whole date exactly for moments a year or more back or a minute or more ahead. |
| DateFilter.PrintedDateReadsBackIff | crates/ferail-core/src/lib.rs:658-661 | What the date column prints parses back to the date it shows if and only if the year is not negative, years of five digits and more included. |
| DateFilter.NegativeYearIsLost | crates/ferail-core/src/lib.rs:658-661 | One date that does not: the first day of the year before the year zero. |
| DateFilter.ShownDateAcceptedIff | crates/ferail-core/src/filter_expr.rs:143-147 | Filtering by the date the column shows for a moment accepts that moment if and only if the zone offset does not move it to another day. |
| DateFilter.FilterFollowsColumnIff | crates/ferail-core/src/filter_expr.rs:143-147 | For a moment, the filter accepts exactly the date the column shows if and only if local and UTC day are the same. |
| DateFilter.AgreementNeedsNoOffset | crates/ferail-core/src/lib.rs:570-661 | Column and filter agree on every moment if and only if the zone offset is zero. |
| DateFilter.ColumnAndFilterDisagree | crates/ferail-core/src/lib.rs:658-661 | At an offset of one hour, a moment that the column shows as 1970-01-01 and that the modified term for 1970-01-01 rejects. |
| ArchivePaths.SortSiblings | crates/ferail-archive/src/tree.rs:147-154 | The sort gives the one display order: folders first, names without case, then paths. |
| ArchiveLaws.RunsAreHalved | crates/ferail-archive/src/tree.rs:234-236 | Outer slashes go, and a run of k slashes inside becomes half as long, rounded up. |
| ArchiveLaws.NormalFormIff | crates/ferail-archive/src/tree.rs:234-236 | Normalising keeps the names between the slashes, and gives them joined by single slashes if and only if no three slashes stand in a row inside. |
| ArchiveLaws.NormalIff | crates/ferail-archive/src/tree.rs:234-236 | A path is its own normal form if and only if no slash is at an end and no two stand in a row. |
| ArchiveLaws.LowerIs | crates/ferail-archive/src/tree.rs:147-154 | Each of 26 letters loses its case; every other character stays. |
| ArchiveLaws.TextOrderIs | crates/ferail-archive/src/tree.rs:147-154 | The first difference decides, and a beginning comes before the whole. |
| ArchiveTree.NodesAreRooted | crates/ferail-archive/src/tree.rs:81-120 | Every node's parent is the root or a directory node. |
| ArchiveLaws.NodesAre | crates/ferail-archive/src/tree.rs:81-103 | The nodes are the entries and everything on the way up from them. |
| ArchiveLaws.DirectoriesAre | crates/ferail-archive/src/tree.rs:104-107 | The directories are the nodes that hold a node and those an entry announces as one. |
| ArchiveLaws.NodesAreNormalIff | crates/ferail-archive/src/tree.rs:123-126 | Looking up by path, which normalises again, finds every node if and only if no entry has a path with three slashes in a row inside. |
| ArchiveTree.LevelLists | crates/ferail-archive/src/tree.rs:131-179 | A level lists exactly the nodes whose directories below it are all open. |
| ArchiveTree.LevelIsDistinct | crates/ferail-archive/src/tree.rs:137-179 | No node is listed twice. |
| ArchiveTree.LevelNests | crates/ferail-archive/src/tree.rs:137-179 | Rows come in preorder: each after its open directory, one level deeper, with nothing shallower between. |
| ArchiveLaws.SiblingsComeInOrder | crates/ferail-archive/src/tree.rs:147-154 | Rows of one directory come directories first, then by name without case, wherever in the list they are. |
| ArchiveLaws.RowsSay | crates/ferail-archive/src/tree.rs:155-175 | The columns of a row: its name is what follows the last slash, it can be expanded exactly if it is a directory that holds something, and only files have a size. |
| ArchiveIndex.ArchiveTreeIndex.Insert | crates/ferail-archive/src/tree.rs:81-120 | The component loop adds exactly the prefixes of the normalised path, each under its parent. |
| ArchiveIndex.LastSizeCounts | crates/ferail-archive/src/tree.rs:107-116 | Of several entries for one file the last one's size counts. |
| ArchiveIndex.ArchiveTreeIndex.VisibleRows | crates/ferail-archive/src/tree.rs:131-179 | Terminates and lists in preorder, exactly once, the nodes whose proper ancestors are all open. |
| ArchiveIndex.ArchiveTreeIndex.MatchingRows | crates/ferail-archive/src/tree.rs:185-226 | Exactly the nodes whose name contains the text, each once, with its columns: directories first, then by name without case, for any two rows of the list, equal ones in the index's own order. |
| ArchiveIndex.ArchiveTreeIndex.Len | crates/ferail-archive/src/tree.rs:224-226 | The sum over directories is the number of nodes. |
| ArchiveIndex.AllRows | crates/ferail-archive/src/tree.rs:185-226 | The empty filter lists all of them. |
| RootsModel.DiscoveryKeepsIff | crates/ferail-core/src/platform_locations.rs:122-139 | Accepting a snapshot keeps the store in order if and only if it repeats no root and reports none as Starting. |
| RootsModel.FinishTakesEffectIffLive | crates/ferail-core/src/platform_locations.rs:161-191 | Only liveness of its token decides whether a result takes effect. |
| RootsStore.RunsKeep | crates/ferail-core/src/platform_locations.rs:115-191 | In every run a root is Starting if and only if one activation of it is recorded. |
| RootsStore.ResultCountsIffUndisturbed | crates/ferail-core/src/platform_locations.rs:161-191 | A result takes effect if and only if since its activation no discovery began or was applied and it was not finished before. |
| RootsStore.StartingHasOneActivation | crates/ferail-core/src/platform_locations.rs:115-191 | In every run a Starting root has exactly one recorded activation, and that one is live if and only if no discovery has begun since it was issued. |
| RootsStore.CaughtRootStays | crates/ferail-core/src/platform_locations.rs:115-191 | A root caught by a new discovery is unchanged in every later state until a snapshot is applied, whatever is started or finished meanwhile. |
| RootsStore.SnapshotCountsIffNewest | crates/ferail-core/src/platform_locations.rs:122-139 | In every run a snapshot result is applied if and only if no later discovery has begun, however often it is delivered. |
| RootsStore.PlatformRootsStore.FinishRoot | crates/ferail-core/src/platform_locations.rs:161-191 | The checks and updates of finishing an activation. |
| RootsStore.ResultSetsItsRoot | crates/ferail-core/src/platform_locations.rs:161-191 | A live result makes its root ready with the path, stopped when cancelled and unavailable with the error otherwise; other roots stay. |
| RootsStore.PlatformRootsStore.StartRoot | crates/ferail-core/src/platform_locations.rs:143-158 | Only a stopped or unavailable root starts, under a fresh serial. |
| RootsStore.PlatformRootsStore.TakeSnapshot | crates/ferail-core/src/platform_locations.rs:122-139 | Only the newest discovery replaces the roots, in display order, and ends every activation. |
| RootsStore.SnapshotIsShownInOrder | crates/ferail-core/src/platform_locations.rs:128-136 | An applied snapshot is shown whole: the default first, then by title without case, then by id. |
| SurfaceStore.RowsAreTheAcceptedOnes | crates/ferail-core/src/platform_namespace.rs:459-510 | The rows shown are exactly the accepted batches of the current request, in order, while loading or ready. |
| SurfaceStore.BatchCountsIff | crates/ferail-core/src/platform_namespace.rs:474-493 | A batch is accepted if and only if no later request began, its request is not complete and it is within its bound. |
| SurfaceStore.StaleIffNotNewest | crates/ferail-core/src/platform_namespace.rs:474-493 | A batch is stale if and only if its request is not the newest; it is oversized only beyond 512 items. |
| SurfaceStore.FrozenOnceComplete | crates/ferail-core/src/platform_namespace.rs:474-506 | A complete surface does not change until the next request. |
| SurfaceStore.PlatformSurfaceStore.ApplyBatch | crates/ferail-core/src/platform_namespace.rs:474-493 | The order of refusals and what an accepted batch changes. |

## Left out

- Walk: reading a directory is a fixed entry list with a flag for failure; the readers of the platforms are not part of this model.
- Walk: directories form a finite tree. A graph with cycles is walked as the finite tree that the visitor's pruning leaves of it; that the pruning enters each reported identity once is `EachIdentityIsEnteredOnce`.
- Walk: memory ordering of the cancellation flag; the coordinator sees it at a nondeterministic moment.
- DiskUsageTotals.FactKeepsTotals: totals are exact while all sizes together fit 64 bits; beyond that they clamp.
- DiskUsageRemoval.RemovalKeepsSound: needs one container per node, which the scan provides; for nodes with several containers the exact condition is `RemovalKeepsTotalsIff`.
- DiskUsageTree: the checked form of adding a link, node names, categories and modification times, which do not enter totals.
- DiskUsageLayout.BuildInner: says nothing of a node met a second time, which a sound tree does not have; sorting children by size is not modelled.
- DiskUsageFilter.BuildFiltered: the order of children; the predicate over nodes is given as the set of nodes it accepts.
- RecursiveDirectories.TotalsIgnoreSchedule: the other direction. Which directory can be heard first depends on where its folder stands and on the number of workers, and different files can make up for each other in a sum; two runs that differ are `ScheduleDecidesWhichNameCounts`.
- DiskUsageScan: progress reports, cloud placeholders, firmlink lists and the fast platform scans.
- Treemap: 32-bit floating point and its rounding; all arithmetic is real, and areas are bounded by the largest finite value.
- AllocatorThreads.StepKeeps: programs use a pointer only after the call that returns it has ended. A step reads the head and writes one link or the head; finer steps of the owner would see the same head (`OthersLeaveTheListAlone`). Weak memory order is not modelled.
- Allocator: the diagnostic counters do not wrap, and requests to the system are answered by a parameter.
- AnsiScreen: decoding of bytes to characters, and code points outside what one character of the model holds.
- AssetLane: the 64-bit sequence does not wrap; keys are three numbers; the cancellation flag shared with a worker is a field of the active slot.
- Duplicates: the walk that collects candidates, the hash cache (a coherent one returns the same hash), the hash functions themselves, similar images and clone detection.
- DuplicateGroups.FindDuplicates: cancellation ends the search between buckets; groups found before it are still delivered.
- ProbePool: poisoned locks; a waiting caller stops at a nondeterministic moment instead of a deadline.
- Calendar: 64-bit overflow, and years beyond 32 bits, which the second conversion truncates.
- DateFilter: years beyond 32 bits, moments hidden by private mode, and the column of creation times, which is printed with an offset for each moment.
- DateFilter: only ASCII white space is trimmed and only ASCII letters are lowered; size terms and other terms are not modelled.
- ArchiveIndex: row columns other than size; only ASCII letters have case.
- RootsStore: generation counters do not wrap; version numbers of roots.
- SurfaceStore: generation counters do not wrap; item fields other than identity; capability flags and actions.
- PlatformLocationHistory is not modelled: two stacks, settled by reading.
- Catalogues, tokens, formats, labels, debugging output, file operations, icons, video and everything that calls the operating system.
