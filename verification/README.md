# PhyAI serving core: cache, gateway and kernels

This project models the parts of PhyAI where state is shared, split or tiled, and proves what they promise.

**The tiered radix prefix cache** (`phyai-ext/csrc/radix_cache`). A prefix tree over page-sized keys whose nodes
carry unit ids per tier, free-list allocators, move-only unit handles, leaf-first eviction with optional demotion,
and asynchronous demote and promote operations with a pending budget per tier.

- `RadixPages`, `RadixTree`, `RadixSlots`, `RadixWalk`, `RadixStore` read the tree as one finite map per tier from
  page prefixes to unit ids, and prove what walking, splitting, inserting, dropping and collecting do to these maps.
- `RadixRuns` composes this over runs; `RadixObserved` shows that the cache's calls are those operations.
- `RadixUnits`, `RadixConserve`, `RadixSystem` prove conservation of unit ids over runs of every call, including the
  operations on live handles; `RadixInflight`, `RadixDemote`, `RadixTransfer`, `RadixBudget` treat operations in flight;
  `RadixTidy` shows that no empty nodes are left behind; `RadixPins`, `RadixSpans`, `RadixChains` and `RadixHolds`
  treat pins held over other calls. `RadixWitness` gives the runs in which the code does less than one would expect.
- `RadixEvict`, `RadixCapacity` treat the choice of candidates and the eviction loops.
- `RadixAllocator`, `RadixDescend`, `RadixPrefixCache`, `RadixNodeRef` are the objects themselves, with their fields,
  loops and byte strings; every method is proved to do what the functions of the other modules say.

A node pointer is a key of a table of nodes, so reading a freed node is a missing key. The tree's own sources
(`radix_tree.cpp`, `tree_node.cpp`, `node_resource.h`) are modelled as they stand.

**The gateway** (`phyai-gateway`). `Registry`, `RegistryRuns` and `RegistryLaws` are the replica registry;
`RegistryBalance` is its load balancing; `HealthMonitor` is a round of health checks; `GatewayClient` and
`GatewayLaws` are the inference client as interleaved steps. `LeRobotSessions` and `LeRobotLaws` are the session
protocol with an event log; `LeRobotTransfer` is the chunk loop. Each region under a lock is one atomic step, and runs
interleave the steps of all threads arbitrarily.

**Smaller refinements.** `FileStore` is the append-only record store; `ConvKernel` and `EmbeddingKernel` are two tiled
kernels over exact numbers with an uninterpreted activation. `Basics` holds what several modules share.

## Where the code does something else than it says

- `radix_tree.h` says `insert_suffix` returns an existing node as it is. The code destroys the new node and returns
  a pointer to it when its parent already has a child on that page (`RadixStore.DanglingIff` says exactly when;
  `RadixRuns.DanglingIffElsewhere` says it for runs that never demote or promote). The model calls this undefined.
- Appending a handle to itself is let through: a full one inserts its own range into itself, which is undefined, and
  then clears it, so its units are lost (`RadixSystem.SelfAppendLoses`). `RadixSystem.AppendConservesIff` says that
  appending keeps every unit exactly when the handles differ or the appended one is empty; the model calls the
  losing call undefined, so conservation over runs is about runs without it.
- A resource being transferred is not protected from splits: `pending_op` keeps one node and one count, and
  `RadixInflight.SplitAgreesIff` shows that splitting such a node always breaks the agreement of table and tree.
  Starting onto a tier that is already pending, evicting with such a target, and finishing a demotion whose source is
  itself pending, break it too. `RadixSystem.CarefulIff` lists exactly the calls that keep it; each of the four ways
  to break it is a run from a new cache in `RadixWitness` (`StartedTwice`, `SplitInTransit`, `EvictedOnto`,
  `SourceLost`).
- The pending budget is checked and incremented in separate steps. `RadixBudget.CanExceedIff` says from which states
  a counter can exceed its cap without a further check: exactly those where what is pending and what the threads
  past their check were cleared for exceed it together. With no two such threads on one tier it never does
  (`RadixBudget.SoloBounded`); with two it can whenever their operations fit alone and not together
  (`RadixBudget.TwoStartersExceed`).
- A split copies the reference count to both halves, and releasing a pin only climbs from the pinned node. When a walk
  leaves the pinned node itself part-way, the half that goes to the new node keeps the count after the release and
  is not evictable (`RadixWitness.PinLeft`). A pin held over any matches and inserts leaves no trace if and only if
  none of their walks does that (`RadixSpans.PinSpanIff`). Splitting a node above the pinned one does no harm, since
  both halves are then on the chain.
- A pin protects from eviction alone. While it is held, the units collected for its node stay what they are unless a walk
  cuts the node, something is reserved onto its chain, or a completion takes the tier off a node of the chain: these
  three look at no count, and they are all there is (`RadixHolds.HoldsIff`, over runs of every call, with other pins
  coming and going). `RadixWitness.PinnedTaken` is a finished demotion that takes a pinned resource.
- `prefix_cache.h` promises eviction until enough units are available. The candidates are collected once, so a node that
  becomes one on the way is not looked at: `RadixCapacity.RoomIff` says that there is room at the end exactly when
  what is free and what the evictable candidates hold cover the need, and `RadixWitness.StopsShort` is a chain of
  two unpinned nodes of which only the lower one goes.
- A transfer from a tier to itself is let through. Finishing such a demotion takes off the resource it has just made
  ready; a childless node is then left empty in the tree, and its page cannot be cached again (`RadixWitness.Stranded`).
  `RadixTidy.StepTidyIff` says that no other call leaves an empty node.
- `unit_allocator.h` speaks of ids 1..total; the code hands out 1..total-1.
- `file_storage_backend::start_read` is described as verifying contents; it checks the length alone.
- The observation stream accepts TRANSFER_END without TRANSFER_BEGIN.
- `masked_embedding_lookup` with rows but no columns divides by a block size of zero.

## Model

| member | source | states |
|---|---|---|
| RadixPages.CommonAtomPrefix | phyai-ext/csrc/radix_cache/tree/radix_tree.cpp:21-34 | the scan stops at the first atom on which the two byte strings differ, or at the end of the shorter |
| RadixPages.RoundedIsShared | phyai-ext/csrc/radix_cache/tree/radix_tree.cpp:59-65 | rounding the common atom count down to a page gives the number of leading pages the two keys share |
| RadixPages.ChopJoin | phyai-ext/csrc/radix_cache/tree/radix_tree.cpp:51-54 | a page-aligned query is its page keys, one after the other |
| RadixDescend.MatchedPages | phyai-ext/csrc/radix_cache/tree/radix_tree.cpp:59-65 | comparing bytes atom by atom and rounding finds the shared pages of a segment and the rest of the query |
| RadixDescend.UpdateTiers | phyai-ext/csrc/radix_cache/tree/radix_tree.cpp:78-88 | a tier goes on exactly when its chain is unbroken and the node's resource is ready |
| RadixDescend.WalkBytes | phyai-ext/csrc/radix_cache/tree/radix_tree.cpp:38-93 | the walk over bytes does what the walk over pages does, to the tree and to its result |
| RadixTree.SplitKeeps | phyai-ext/csrc/radix_cache/tree/tree_node.cpp:33-77 | splitting at a page boundary keeps links, page keys and one unit per page |
| RadixTree.JoinSplit | phyai-ext/csrc/radix_cache/tree/tree_node.cpp:33-77 | joining the halves of a split gives the tree back; both halves have the pins, state and handle of the whole, and the upper one the first k pages and units |
| RadixTree.OwnerUnique | phyai-ext/csrc/radix_cache/tree/radix_tree.cpp:38-93 | no two nodes store the same page of the same path |
| RadixTree.UnlinkKeeps | phyai-ext/csrc/radix_cache/tree/radix_tree.cpp:115-128 | erasing an orphan keeps the tree well formed and makes it smaller, so pruning ends |
| RadixSlots.SplitKeepsSlots | phyai-ext/csrc/radix_cache/tree/tree_node.cpp:33-77 | a split, which cuts every resource at the same page, changes nothing that is stored on any tier |
| RadixSlots.AddLeafSlots | phyai-ext/csrc/radix_cache/tree/radix_tree.cpp:95-113 | a new leaf adds exactly its own pages, on the tiers it carries |
| RadixSlots.DetachSlots | phyai-ext/csrc/radix_cache/prefix_cache.cpp:209-213 | detaching a resource removes exactly its node's pages from its tier |
| RadixSlots.PruneSlots | phyai-ext/csrc/radix_cache/tree/radix_tree.cpp:115-128 | pruning changes nothing that is stored |
| RadixWalk.StepMoves | phyai-ext/csrc/radix_cache/tree/radix_tree.cpp:51-92 | every step matches at least one page and keeps the walk on the query's path |
| RadixWalk.WalkFindsLongest | phyai-ext/csrc/radix_cache/tree/radix_tree.cpp:38-93 | per tier, the walk returns the length of the longest mapped prefix and the node whose path it is, and changes no map |
| RadixWalk.EndNotStored | phyai-ext/csrc/radix_cache/tree/radix_tree.cpp:55-56 | where the walk stops short, the next page is stored nowhere |
| RadixStore.CollectReads | phyai-ext/csrc/radix_cache/prefix_cache.cpp:64-85 | collecting along a stored chain returns the mapped ids in page order |
| RadixStore.InsertRefines | phyai-ext/csrc/radix_cache/prefix_cache.cpp:124-162 | insert keeps the mapped ids, maps each longer prefix to the supplied unit at its page, leaves other tiers alone, frees the supplied overlap, and returns the query's node, from which collecting reads the whole query |
| RadixStore.DanglingIff | phyai-ext/csrc/radix_cache/tree/radix_tree.cpp:95-113 | insert has a node to return exactly when the page after the matched prefix is held by no node |
| RadixStore.DropRefines | phyai-ext/csrc/radix_cache/prefix_cache.cpp:209-250 | dropping a leafmost node and pruning removes exactly its own prefixes from its tier |
| RadixRuns.UpClosedAncestors | phyai-ext/csrc/radix_cache/prefix_cache.cpp:145-157 | in an upward closed tree a node that holds a tier has every ancestor but the root hold it |
| RadixRuns.WalkUp | phyai-ext/csrc/radix_cache/tree/radix_tree.cpp:38-93 | walking and splitting keep every tier upward closed |
| RadixRuns.InsertUp | phyai-ext/csrc/radix_cache/prefix_cache.cpp:124-157 | insert keeps every tier upward closed |
| RadixRuns.DropUp | phyai-ext/csrc/radix_cache/prefix_cache.cpp:209-250 | dropping eviction with pruning keeps every tier upward closed |
| RadixRuns.DropSole | phyai-ext/csrc/radix_cache/tree/radix_tree.cpp:115-128 | without demotion a dropped node goes, and pruning stops there |
| RadixRuns.DanglingIffElsewhere | phyai-ext/csrc/radix_cache/tree/radix_tree.cpp:95-113 | in such runs insert is undefined exactly when another tier maps the query's first page |
| RadixRuns.SecondTierStops | phyai-ext/csrc/radix_cache/tree/radix_tree.cpp:95-113 | caching one page on the device and then on the host is such an insert |
| RadixRuns.ApplyRefines | phyai-ext/csrc/radix_cache/prefix_cache.cpp:48-162 | every match, insert and drop shows only what one finite map per tier allows, and changes the maps accordingly |
| RadixRuns.RunRefines | phyai-ext/csrc/radix_cache/prefix_cache.cpp:48-162 | over every run the cache is observationally a finite map per tier; a run stops only before an insert that is undefined |
| RadixRuns.EmptyStart | phyai-ext/csrc/radix_cache/prefix_cache.cpp:26-46 | a new cache maps nothing on any tier |
| RadixObserved.CallsAreOps | phyai-ext/csrc/radix_cache/prefix_cache.cpp:48-162 | the cache's match and insert do to the tree what a run's operations do |
| RadixObserved.EvictionIsDrop | phyai-ext/csrc/radix_cache/prefix_cache.cpp:209-250 | evicting a leafmost evictable node without a target is a run's drop |
| RadixObserved.LoopIsRun | phyai-ext/csrc/radix_cache/prefix_cache.cpp:285-291 | a dropping eviction loop is a run of drops, so the refinement over runs covers it |
| RadixUnits.FreshIsUniverse | phyai-ext/csrc/radix_cache/unit_allocator.cpp:7-13 | a new free list holds each of 1..total-1 once and nothing else |
| RadixUnits.PoppedUnits | phyai-ext/csrc/radix_cache/unit_allocator.cpp:15-25 | allocation moves units from the free list to the handle, none made or lost |
| RadixUnits.LastFirst | phyai-ext/csrc/radix_cache/unit_allocator.h:13-15 | the unit given back last is handed out first |
| RadixUnits.AcceptedAll | phyai-ext/csrc/radix_cache/unit_allocator.cpp:27-32 | deallocation drops none of the ids the allocator hands out |
| RadixUnits.AcceptedIff | phyai-ext/csrc/radix_cache/unit_allocator.cpp:27-32 | of the ids given, deallocation takes back exactly those from 1 to total - 1, each as often as it is given |
| RadixUnits.SplitUnits | phyai-ext/csrc/radix_cache/tree/tree_node.cpp:57-67 | a split keeps the units attached to the tree |
| RadixUnits.PruneUnits | phyai-ext/csrc/radix_cache/tree/radix_tree.cpp:115-128 | pruning loses no unit |
| RadixConserve.MatchHeld | phyai-ext/csrc/radix_cache/prefix_cache.cpp:48-62 | a match, splits included, keeps each tier's units |
| RadixConserve.InsertHeld | phyai-ext/csrc/radix_cache/prefix_cache.cpp:124-162 | the units handed to insert end up attached or free |
| RadixConserve.EvictHeld | phyai-ext/csrc/radix_cache/prefix_cache.cpp:209-250 | eviction, dropping or demoting, keeps each tier's units |
| RadixConserve.CompleteHeld | phyai-ext/csrc/radix_cache/prefix_cache.cpp:379-410 | both outcomes of a completion keep each tier's units |
| RadixSystem.StepConserves | phyai-ext/csrc/radix_cache/owned_units.cpp:10-65 | every defined call on cache or handles keeps free list, nodes, live handles and released ids together equal to the universe |
| RadixSystem.AppendConservesIff | phyai-ext/csrc/radix_cache/owned_units.cpp:43-54 | appending, where allocators agree, keeps every tier's units if and only if the handles differ or the appended one is empty |
| RadixSystem.SelfAppendLoses | phyai-ext/csrc/radix_cache/ffi_binding.cpp:348-350 | one unit allocated and its handle appended to itself: no defined result, and the ids cleared would leave the unit nowhere |
| RadixSystem.RunGood | phyai-ext/csrc/radix_cache/prefix_cache.cpp:124-447 | over every run the tree stays well formed, units are conserved, and each pending counter is the sum of its operations within a positive cap |
| RadixSystem.OnePlace | phyai-ext/csrc/radix_cache/unit_allocator.h:33-37 | in every state reached by defined calls each of 1..total-1 is in exactly one place, no other id is anywhere, and the active count is the number of units on nodes, in handles and released |
| RadixSystem.NodesApart | phyai-ext/csrc/radix_cache/owned_units.cpp:10-65 | no unit is attached to two nodes, or twice to one |
| RadixSystem.CarefulIff | phyai-ext/csrc/radix_cache/prefix_cache.cpp:333-447 | a call keeps the table of operations and the pending resources in agreement if and only if it is careful, and a completion is then never undefined |
| RadixSystem.RunInFlight | phyai-ext/csrc/radix_cache/prefix_cache.cpp:333-447 | over every run of careful calls each operation's node is in the tree and holds its destination pending under its handle |
| RadixSystem.RunRetired | phyai-ext/csrc/radix_cache/prefix_cache.cpp:379-388 | a completed handle is refused ever after and never issued again |
| RadixInflight.ReserveCounted | phyai-ext/csrc/radix_cache/prefix_cache.cpp:201-248 | a reservation that passed the budget check keeps the counter equal to its sum and within the cap |
| RadixInflight.StartKeepsIff | phyai-ext/csrc/radix_cache/prefix_cache.cpp:333-377 | starting keeps table and tree in agreement exactly when the destination was not pending |
| RadixInflight.EvictKeepsIff | phyai-ext/csrc/radix_cache/prefix_cache.cpp:209-250 | eviction keeps it except exactly when it demotes onto a pending destination |
| RadixInflight.CompleteKeepsIff | phyai-ext/csrc/radix_cache/prefix_cache.cpp:379-410 | completion keeps it except exactly when a finished demotion's source is itself pending |
| RadixInflight.SplitAgreesIff | phyai-ext/csrc/radix_cache/tree/tree_node.cpp:33-77 | a split keeps it exactly when no resource of the node is pending |
| RadixInflight.MatchKeepsIff | phyai-ext/csrc/radix_cache/prefix_cache.cpp:48-62 | a match keeps it exactly when the query leaves no pending node part-way |
| RadixInflight.InsertKeepsIff | phyai-ext/csrc/radix_cache/prefix_cache.cpp:124-162 | the same for insert |
| RadixInflight.FailAllEmpties | phyai-ext/csrc/radix_cache/prefix_cache.cpp:430-447 | failing everything, in any order and from any state where no freed node is read, empties the table, counts every operation and zeroes the counters |
| RadixInflight.FailAllDefined | phyai-ext/csrc/radix_cache/prefix_cache.cpp:430-447 | with table and tree in agreement no freed node is read, and nothing stays pending |
| RadixDemote.FailAllDrops | phyai-ext/csrc/radix_cache/prefix_cache.cpp:430-447 | with table and tree in agreement, failing everything, in any order, takes away exactly the pending resources and leaves every other as it was |
| RadixInflight.CompleteRetires | phyai-ext/csrc/radix_cache/prefix_cache.cpp:379-388 | completing retires the handle and a second completion is refused |
| RadixInflight.StartIssues | phyai-ext/csrc/radix_cache/prefix_cache.cpp:506-509 | a new operation gets a handle never issued before |
| RadixDemote.StartOkIff | phyai-ext/csrc/radix_cache/prefix_cache.cpp:333-377 | with exact counters, starting ends with the first of the four errors whose condition holds: a tier disabled, no source, positive cap exceeded by the pending units of the table and the node's own, too few free units; otherwise the node holds the destination pending under the next handle with as many units as the source, the table lists just that operation more, and nothing else changed |
| RadixDemote.EvictDemotesIff | phyai-ext/csrc/radix_cache/prefix_cache.cpp:209-250 | an eviction does nothing to a pinned or pending resource; otherwise it demotes if and only if the target is enabled, has the units free and the budget for them by the sum over the table, and then puts exactly that operation in flight; if not it drops, starts nothing, and only nodes that held nothing else may go |
| RadixDemote.CompleteLaw | phyai-ext/csrc/radix_cache/prefix_cache.cpp:379-410 | a completion is refused exactly for an unknown handle; on success the destination is ready with its ids and pins and a demotion's source is gone, on failure the destination is gone, and no other resource changes |
| RadixTidy.PruneTidies | phyai-ext/csrc/radix_cache/tree/radix_tree.cpp:115-128 | pruning from the one node that may have become empty leaves no node but the root without child and resource |
| RadixTidy.StepTidyIff | phyai-ext/csrc/radix_cache/prefix_cache.cpp:48-447 | no call leaves such an empty node behind, except exactly a finished demotion of a tier to itself that takes the last resource of a childless node |
| RadixTidy.AlwaysTidy | phyai-ext/csrc/radix_cache/prefix_cache.cpp:379-410 | over every run from a new cache whose transfers and eviction targets lie between different tiers, failed completions included, no node but the root is ever empty |
| RadixTidy.DemoteFailIsDrop | phyai-ext/csrc/radix_cache/prefix_cache.cpp:391-399 | evicting onto a tier the node does not hold and failing that operation leaves the tree that dropping leaves, the table and counters of before, and the same free units |
| RadixWitness.Stranded | phyai-ext/csrc/radix_cache/prefix_cache.cpp:401-404 | one page demoted from the device to the device: finishing leaves an empty node, and caching the page again is undefined |
| RadixWitness.CachedIs | phyai-ext/csrc/radix_cache/prefix_cache.cpp:124-162 | allocating units and inserting as many pages into a new cache leads to one node that holds them |
| RadixWitness.StartedTwice | phyai-ext/csrc/radix_cache/prefix_cache.cpp:333-354 | one page cached: starting its demotion twice goes through and parts table and tree |
| RadixWitness.SplitInTransit | phyai-ext/csrc/radix_cache/prefix_cache.cpp:48-62 | two pages cached and being demoted: matching the first parts table and tree |
| RadixWitness.EvictedOnto | phyai-ext/csrc/radix_cache/prefix_cache.cpp:209-250 | one page being demoted: evicting it with the same target parts table and tree |
| RadixWitness.SourceLost | phyai-ext/csrc/radix_cache/prefix_cache.cpp:379-410 | one page being demoted to the host and from there to the disk: finishing the second parts table and tree |
| RadixPins.UnpinPin | phyai-ext/csrc/radix_cache/tree/node_ref.h:17-22 | releasing a pin at once undoes it |
| RadixPins.SplitChain | phyai-ext/csrc/radix_cache/tree/tree_node.cpp:33-77 | both halves of a split ancestor are on the chain of a pinned node; of the pinned node itself only the first half is |
| RadixPins.SplitPinned | phyai-ext/csrc/radix_cache/tree/node_resource.h:51-58 | a split commutes with pinning unless it cuts the pinned node's own resource |
| RadixPins.RunPinned | phyai-ext/csrc/radix_cache/tree/radix_tree.cpp:38-93 | a walk in the pinned tree is the same walk with the pin carried over, unless it cuts the pinned resource |
| RadixPins.RunCuts | phyai-ext/csrc/radix_cache/tree/radix_tree.cpp:38-93 | a walk that cuts it leaves a raised count off the chain |
| RadixPins.LeakSplit | phyai-ext/csrc/radix_cache/tree/tree_node.cpp:33-77 | no later split brings such a count back onto the chain |
| RadixSpans.PinSpanIff | phyai-ext/csrc/radix_cache/tree/node_ref.h:11-54 | pin, any defined matches, inserts, allocations and handle calls, unpin: the same state as without the pin, if and only if no walk leaves the pinned node part-way while it holds the tier |
| RadixWitness.PinLeft | phyai-ext/csrc/radix_cache/tree/node_ref.h:42-50 | a node of two pages pinned, its first page matched, the pin released: the second page's node keeps a count of 1 |
| RadixWitness.FirstMatched | phyai-ext/csrc/radix_cache/tree/tree_node.cpp:33-77 | the same match without a pin leaves both counts 0 |
| RadixChains.CollectSplit | phyai-ext/csrc/radix_cache/tree/tree_node.cpp:33-77 | a split changes what is collected at no node but the one it cuts, which loses the units cut off |
| RadixChains.CollectDiffers | phyai-ext/csrc/radix_cache/prefix_cache.cpp:64-85 | changing the units of one node of a chain changes what is collected along it |
| RadixChains.GuardSplit | phyai-ext/csrc/radix_cache/tree/node_resource.h:51-58 | splitting another node keeps every resource of a pinned chain counting all the pins that cover it |
| RadixChains.PinGuards | phyai-ext/csrc/radix_cache/tree/node_ref.h:17-21 | a new pin is counted along its whole chain, beside the pins there were |
| RadixChains.GuardUnpin | phyai-ext/csrc/radix_cache/tree/node_ref.h:42-50 | releasing another, overlapping pin leaves the chain's resources counting the rest |
| RadixHolds.NotEvictable | phyai-ext/csrc/radix_cache/prefix_cache.cpp:209-213 | no resource of a pinned chain is evictable |
| RadixHolds.StepHolds | phyai-ext/csrc/radix_cache/prefix_cache.cpp:48-447 | one call of any kind changes the units collected for a pinned node if and only if it is one of the three harmful ones |
| RadixHolds.HoldsIff | phyai-ext/csrc/radix_cache/tree/node_ref.h:11-54 | over every run those units stay what they are in every state if and only if no call is harmful |
| RadixWitness.PinnedTaken | phyai-ext/csrc/radix_cache/prefix_cache.cpp:379-410 | a page pinned on the device and demoted: finishing takes the pinned resource off the node |
| RadixNodeRef.NodeRef.constructor | phyai-ext/csrc/radix_cache/tree/node_ref.h:17-21 | climbing from the node to the root raises exactly the counts of the tier on its chain |
| RadixNodeRef.NodeRef.Release | phyai-ext/csrc/radix_cache/tree/node_ref.h:42-50 | climbing again lowers the positive ones; a second release does nothing |
| RadixNodeRef.NodeRef.MovedFrom | phyai-ext/csrc/radix_cache/tree/node_ref.h:26 | the new object has the pin, the old one nothing |
| RadixNodeRef.NodeRef.MoveAssign | phyai-ext/csrc/radix_cache/tree/node_ref.h:27-35 | the target's pin is released and the other's taken over; self-assignment does nothing |
| RadixTransfer.StartThenFail | phyai-ext/csrc/radix_cache/prefix_cache.cpp:333-399 | starting and failing restores tree, table and counters, and the free units as a set |
| RadixTransfer.StartThenFinish | phyai-ext/csrc/radix_cache/prefix_cache.cpp:333-410 | starting and finishing leaves the destination ready with the units reserved, returns a demoted source's units, keeps a promoted source, and changes no other node |
| RadixBudget.RunSummed | phyai-ext/csrc/radix_cache/prefix_cache.cpp:232-241 | under any interleaving of starters and completers each counter is the sum of the table, and handles are distinct |
| RadixBudget.CanExceedIff | phyai-ext/csrc/radix_cache/prefix_cache.cpp:201-248 | from any state some continuation without a check takes a counter over its cap if and only if what is pending and what all threads past their check were cleared for exceed it together |
| RadixBudget.SoloBounded | phyai-ext/csrc/radix_cache/prefix_cache.cpp:201-248 | as long as no two threads past their check aim at one tier, every counter is the sum of the table and within its positive cap |
| RadixBudget.OneStarterBounded | phyai-ext/csrc/radix_cache/prefix_cache.cpp:333-377 | so from the initial state with one starting thread, whose starts may fail after their check, and any number of completing ones |
| RadixBudget.InitialCovered | phyai-ext/csrc/radix_cache/prefix_cache.h:220-222 | the initial counters are exact, within the caps, and no thread is past a check |
| RadixBudget.TwoStartersExceed | phyai-ext/csrc/radix_cache/prefix_cache.cpp:201-207 | any two operations on one tier that fit alone and not together exceed the cap when both threads check before either enters |
| RadixBudget.StartAlone | phyai-ext/csrc/radix_cache/prefix_cache.cpp:333-354 | one thread's check, handle and entry in sequence put the operation in the table under the next handle and its units into the counter exactly when the budget allows it, and otherwise change nothing |
| RadixBudget.UndoneAlone | phyai-ext/csrc/radix_cache/prefix_cache.cpp:333-388 | a start given up after its check leaves nothing behind; one that went in and finished leaves only the handle |
| RadixEvict.LeafmostIff | phyai-ext/csrc/radix_cache/prefix_cache.cpp:164-167 | a candidate is a node that holds the tier and has no proper descendant holding it, in terms of parent links |
| RadixEvict.CoversStep | phyai-ext/csrc/radix_cache/prefix_cache.cpp:183-193 | a descendant holds the tier exactly when a child holds or covers it |
| RadixEvict.CollectEvictCandidates | phyai-ext/csrc/radix_cache/prefix_cache.cpp:164-199 | the explicit-stack traversal ends and returns exactly the candidates, each once, for trees of any shape |
| RadixCapacity.SortByRank | phyai-ext/csrc/radix_cache/prefix_cache.cpp:282-283 | sorting by priority permutes the candidates into order |
| RadixCapacity.EvictRest | phyai-ext/csrc/radix_cache/prefix_cache.cpp:285-291 | evicting one candidate, pruning included, leaves every other candidate in the tree with its resource |
| RadixCapacity.NeededLeast | phyai-ext/csrc/radix_cache/prefix_cache.cpp:285-291 | the number taken is the least that covers the deficit |
| RadixCapacity.LoopTakes | phyai-ext/csrc/radix_cache/prefix_cache.cpp:285-291 | the loop takes off the tier exactly the shortest prefix of the evictable candidates that covers the deficit, frees exactly their units, and leaves the others as they were |
| RadixCapacity.LoopEnough | phyai-ext/csrc/radix_cache/prefix_cache.cpp:252-292 | it ends with enough room or with every evictable candidate gone from the tier |
| RadixCapacity.RoomIff | phyai-ext/csrc/radix_cache/prefix_cache.cpp:252-292 | the loop makes room exactly when what is free and what the evictable candidates hold cover the need |
| RadixDemote.LoopShifts | phyai-ext/csrc/radix_cache/prefix_cache.cpp:285-291 | of the nodes an eviction loop with a target takes, exactly those whose units find free units and budget in their turn, given what the earlier ones took, are on their way to the target, each under the next new handle, and the table gains just those operations; the others are dropped |
| RadixDemote.AllLast | phyai-ext/csrc/radix_cache/prefix_cache.cpp:216-243 | where the target has room and budget for all that is taken, nothing is dropped |
| RadixDemote.LoopOnlyDrops | phyai-ext/csrc/radix_cache/prefix_cache.cpp:258-276 | a loop without an enabled target starts no operation and changes no other tier's resources or free units |
| RadixPrefixCache.CascadeSqueezes | phyai-ext/csrc/radix_cache/prefix_cache.cpp:256-276 | a destination short of room sheds, by drops alone, just the shortest prefix of its evictable candidates, lowest priority first, that covers its deficit; it ends with room, or with every evictable candidate gone, and with room exactly when what was free and what those candidates held cover the need; any other destination is left as it was |
| RadixWitness.StopsShort | phyai-ext/csrc/radix_cache/prefix_cache.cpp:278-291 | two nested unpinned pages and one free unit, three asked for: the loop evicts the lower page and ends with two free |
| RadixCapacity.EachDrops | phyai-ext/csrc/radix_cache/prefix_cache.cpp:294-306 | eviction by predicate drops every evictable candidate chosen, leaves the others, and frees exactly the dropped units |
| RadixAllocator.UnitAllocator.constructor | phyai-ext/csrc/radix_cache/unit_allocator.cpp:7-13 | the loop builds the list total-1 down to 1 |
| RadixAllocator.UnitAllocator.Allocate | phyai-ext/csrc/radix_cache/unit_allocator.cpp:15-25 | pops the units into a new handle, last in first out, or refuses and changes nothing |
| RadixAllocator.UnitAllocator.Deallocate | phyai-ext/csrc/radix_cache/unit_allocator.cpp:27-32 | pushes back the ids in range, in order |
| RadixAllocator.OwnedUnits.MovedFrom | phyai-ext/csrc/radix_cache/owned_units.cpp:14-16 | the new handle takes everything, the old one is spent |
| RadixAllocator.OwnedUnits.Destroy | phyai-ext/csrc/radix_cache/owned_units.cpp:10-12 | the ids go back to the allocator they came from |
| RadixAllocator.OwnedUnits.MoveAssign | phyai-ext/csrc/radix_cache/owned_units.cpp:18-27 | the target's ids are freed and replaced; self-assignment does nothing |
| RadixAllocator.OwnedUnits.TakeFirst | phyai-ext/csrc/radix_cache/owned_units.cpp:29-34 | splits off the first ids, or refuses and changes nothing |
| RadixAllocator.OwnedUnits.TakeLast | phyai-ext/csrc/radix_cache/owned_units.cpp:36-41 | splits off the last ids, or refuses and changes nothing |
| RadixAllocator.OwnedUnits.Append | phyai-ext/csrc/radix_cache/owned_units.cpp:43-54 | concatenates; an empty handle adopts the other's allocator, a full one insists on it; an empty handle appended to itself stays as it is |
| RadixAllocator.OwnedUnits.Release | phyai-ext/csrc/radix_cache/owned_units.cpp:56-59 | hands the ids to the caller and spends the handle |
| RadixPrefixCache.Normalised | phyai-ext/csrc/radix_cache/prefix_cache.cpp:37-45 | a tier is enabled exactly when configured so and given units |
| RadixPrefixCache.PrefixCache.constructor | phyai-ext/csrc/radix_cache/prefix_cache.cpp:26-46 | a new object is the new cache of the model |
| RadixPrefixCache.PrefixCache.Match | phyai-ext/csrc/radix_cache/prefix_cache.cpp:48-62 | refuses exactly the queries that are not page-aligned; otherwise reports the longest mapped prefix of every tier |
| RadixPrefixCache.PrefixCache.CollectUnitsInto | phyai-ext/csrc/radix_cache/prefix_cache.cpp:64-85 | reports the count, writes the ids root first if they fit, and leaves the rest of the buffer alone |
| RadixPrefixCache.PrefixCache.Insert | phyai-ext/csrc/radix_cache/prefix_cache.cpp:124-162 | the error cases change nothing; otherwise the state is that of the model's insert, the handle is emptied, and node and counts are those of the matched prefix |
| RadixPrefixCache.PrefixCache.EvictNodeResource | phyai-ext/csrc/radix_cache/prefix_cache.cpp:209-250 | the state is that of the model's eviction, and the result is the units freed |
| RadixPrefixCache.PrefixCache.EnsureCapacity | phyai-ext/csrc/radix_cache/prefix_cache.cpp:252-292 | cascade and eviction loop over candidates in order of priority, each taking just what its deficit asks for; the cascade makes room on a short destination exactly when it can and leaves any other alone; there is room at the end exactly when what was free after the cascade and the evictable candidates cover the need, and otherwise every evictable candidate is off the tier; with a target, what is taken is demoted as long as room and budget last and only the rest dropped |
| RadixPrefixCache.PrefixCache.EvictByPredicate | phyai-ext/csrc/radix_cache/prefix_cache.cpp:294-306 | drops the selected candidates and returns the units they held |
| RadixPrefixCache.PrefixCache.Allocate | phyai-ext/csrc/radix_cache/prefix_cache.cpp:317-320 | succeeds exactly on an enabled tier with enough units |
| RadixPrefixCache.PrefixCache.StartTransfer | phyai-ext/csrc/radix_cache/prefix_cache.cpp:333-377 | the errors in their order, or the state with the reservation and a new handle |
| RadixPrefixCache.PrefixCache.Complete | phyai-ext/csrc/radix_cache/prefix_cache.cpp:379-410 | the state is that of the model's completion, for both outcomes |
| RadixPrefixCache.PrefixCache.FailAllInflight | phyai-ext/csrc/radix_cache/prefix_cache.cpp:430-447 | where no freed node is read: empties the table, returns its size and zeroes the counters |
| Registry.StripEnds | phyai-gateway/phyai_gateway/services/model_registry.py:88-92 | a stripped name neither starts nor ends with white space, and stripping again changes nothing |
| Registry.StripCuts | phyai-gateway/phyai_gateway/services/model_registry.py:88-92 | stripping cuts off white space at the ends and nothing else |
| Registry.ModelRegistryService.Register | phyai-gateway/phyai_gateway/services/model_registry.py:87-128 | refuses blank names; otherwise the stripped pair is registered under the returned id |
| Registry.ModelRegistryService.Heartbeat | phyai-gateway/phyai_gateway/services/model_registry.py:130-152 | accepted exactly for a known, not removed entry that is managed or not expired, which then has the new heartbeat |
| Registry.ModelRegistryService.RemoveBackend | phyai-gateway/phyai_gateway/services/model_registry.py:164-171 | marks the entry removed and sweeps; false for an unknown or removed one |
| Registry.ModelRegistryService.RecordHealth | phyai-gateway/phyai_gateway/services/model_registry.py:183-202 | a success clears the failures, the threshold-th failure makes the entry unhealthy |
| Registry.ModelRegistryService.AcquireServer | phyai-gateway/phyai_gateway/services/model_registry.py:215-239 | sweeps, chooses, and raises the chosen entry's load |
| Registry.ModelRegistryService.ReleaseServer | phyai-gateway/phyai_gateway/services/model_registry.py:241-246 | lowers a positive load and sweeps |
| Registry.ModelRegistryService.RemoveExpired | phyai-gateway/phyai_gateway/services/model_registry.py:253-267 | deletes exactly the idle entries that were removed or lapsed, keeping the order |
| RegistryLaws.SweptIff | phyai-gateway/phyai_gateway/services/model_registry.py:253-267 | a sweep deletes exactly the entries that were removed, or are unmanaged and silent for more than 15 seconds, and have no request in flight |
| RegistryLaws.SweptInOrder | phyai-gateway/phyai_gateway/services/model_registry.py:253-267 | the entries it keeps stay in order |
| RegistryLaws.HeartbeatLaw | phyai-gateway/phyai_gateway/services/model_registry.py:138-152 | a heartbeat is accepted exactly from a known entry that was not removed and is managed or at most 15 seconds old; that entry gets the new time, and every other is swept as ever |
| RegistryLaws.HeartbeatRenews | phyai-gateway/phyai_gateway/services/model_registry.py:138-152 | after an accepted heartbeat the entry is there; unmanaged, it can be chosen and outlives every sweep within the timeout of it |
| RegistryLaws.RemoveLaw | phyai-gateway/phyai_gateway/services/model_registry.py:164-171 | removing marks the entry and sweeps; without such an entry nothing changes |
| RegistryLaws.RemovedNotSelectable | phyai-gateway/phyai_gateway/services/model_registry.py:164-171 | afterwards no entry with that id can be chosen, at any time |
| RegistryLaws.RecordLaw | phyai-gateway/phyai_gateway/services/model_registry.py:183-202 | a result changes exactly the managed entry it is about: failures and health as counted |
| RegistryLaws.AcquireLaw | phyai-gateway/phyai_gateway/services/model_registry.py:215-239 | a server is chosen exactly when one of that model is there, not removed, and healthy if managed or at most 15 seconds old if not; it is the earliest of the least loaded, and it alone changes, by one request more |
| RegistryLaws.ReleaseLaw | phyai-gateway/phyai_gateway/services/model_registry.py:241-246 | a release takes one request off its server, if it has any, and sweeps |
| RegistryLaws.RegisterRefreshes | phyai-gateway/phyai_gateway/services/model_registry.py:94-127 | registering a pair that is there renews that entry alone, which becomes managed but unhealthy if it now is and was not |
| RegistryLaws.RegisterAdds | phyai-gateway/phyai_gateway/services/model_registry.py:110-120 | otherwise one entry is added at the end |
| RegistryLaws.RunAlive | phyai-gateway/phyai_gateway/services/model_registry.py:87-267 | over every run that never removes it or makes it managed, a server whose heartbeats and registrations are never further apart than the timeout stays registered, can be chosen, and has its next heartbeat accepted |
| RegistryRuns.ApplyInv | phyai-gateway/phyai_gateway/services/model_registry.py:87-267 | after every call no two entries that were not removed share endpoint and model, and a removed entry has requests in flight |
| RegistryRuns.RunInv | phyai-gateway/phyai_gateway/services/model_registry.py:87-267 | the same over every run |
| RegistryRuns.RunLapsed | phyai-gateway/phyai_gateway/services/model_registry.py:130-152 | an expired unmanaged entry is never selectable again, and its heartbeats are refused, until its pair is registered |
| RegistryRuns.RegisterRevives | phyai-gateway/phyai_gateway/services/model_registry.py:87-128 | registration makes an unmanaged pair selectable at once |
| RegistryRuns.RunRemoved | phyai-gateway/phyai_gateway/services/model_registry.py:164-171 | a removed entry stays removed and never gains a request |
| RegistryRuns.RunTracks | phyai-gateway/phyai_gateway/services/model_registry.py:183-202 | among any other calls, a managed entry is healthy exactly when its history contains a success and fewer failures than the threshold after the last one |
| RegistryRuns.BecomesManaged | phyai-gateway/phyai_gateway/services/model_registry.py:106-122 | an entry that becomes managed starts with the empty history |
| RegistryBalance.BestIsChoice | phyai-gateway/phyai_gateway/services/model_registry.py:219-232 | the loop finds the earliest inserted of the least loaded eligible entries, or nothing exactly when none is eligible |
| RegistryBalance.AcquireSpread | phyai-gateway/phyai_gateway/services/model_registry.py:215-239 | from any loads an acquisition keeps the spread within the larger of 1 and what it was |
| RegistryBalance.FairShares | phyai-gateway/phyai_gateway/services/model_registry.py:215-239 | k acquisitions from idle over n fixed replicas leave each with k/n rounded down or up |
| HealthMonitor.RoundRecords | phyai-gateway/phyai_gateway/services/health.py:46-81 | recording results one by one gives every managed entry its own answer and changes nothing else |
| HealthMonitor.BackendHealthMonitor.CheckOnce | phyai-gateway/phyai_gateway/services/health.py:46-81 | after a round every managed entry that was not removed has its own new result, every other is unchanged, and the monitor has channels to exactly those entries' endpoints, those it had before being kept |
| GatewayClient.ApplyPersists | phyai-gateway/phyai_gateway/services/model_registry.py:253-267 | an entry with requests in flight outlives every call but its last release |
| GatewayClient.AcquireCounted | phyai-gateway/phyai_gateway/clients/model_inference.py:56-60 | acquiring keeps every in-flight count equal to the outstanding requests |
| GatewayClient.ReleaseCounted | phyai-gateway/phyai_gateway/clients/model_inference.py:105-106 | so does releasing |
| GatewayClient.SnapshotChannels | phyai-gateway/phyai_gateway/clients/model_inference.py:66-68 | no channel in use is among the stale ones |
| GatewayClient.RunSafe | phyai-gateway/phyai_gateway/clients/model_inference.py:56-106 | over all interleavings in-flight counts equal outstanding requests, acquired servers stay registered, and no request is on a closed channel |
| GatewayClient.AlwaysSafe | phyai-gateway/phyai_gateway/clients/model_inference.py:28-106 | the same from a new client and a new registry on |
| GatewayClient.ChannelTable.ChannelFor | phyai-gateway/phyai_gateway/clients/model_inference.py:63-80 | closes exactly the channels of endpoints no longer listed and returns the endpoint's channel, opened if missing |
| GatewayLaws.AcquireLaw | phyai-gateway/phyai_gateway/clients/model_inference.py:56-60 | a request gets a server exactly when one may serve its model, namely the registry's choice, and touches no channel |
| GatewayLaws.SnapshotLaw | phyai-gateway/phyai_gateway/clients/model_inference.py:63-66 | with the lock free a request takes it and finds stale exactly the channels to endpoints under which no server that stays is registered |
| GatewayLaws.SectionLaw | phyai-gateway/phyai_gateway/clients/model_inference.py:63-80 | whatever steps of other requests and registry calls come in between, the section closes every channel not listed when the lock was taken, no other, and ends once all are closed with the request on its endpoint's channel: what the method ChannelFor does in one go |
| GatewayLaws.RunLockOk | phyai-gateway/phyai_gateway/clients/model_inference.py:63-80 | in every interleaving the request that has the lock can finish its section by its own steps |
| GatewayLaws.RegistryIsRun | phyai-gateway/phyai_gateway/clients/model_inference.py:56-106 | under every interleaving the registry goes through a run of its own calls |
| LeRobotSessions.RunInv | phyai-gateway/phyai_gateway/adapters/lerobot.py:59-309 | the session invariant holds in every interleaving of calls |
| LeRobotSessions.WaitingIsCurrent | phyai-gateway/phyai_gateway/adapters/lerobot.py:242-249 | a waiting observation belongs to its open session's current setup |
| LeRobotSessions.ConsumedOnce | phyai-gateway/phyai_gateway/adapters/lerobot.py:261-278 | each accepted observation is consumed at most once, and only while it is the latest |
| LeRobotSessions.ReturnedIsCurrent | phyai-gateway/phyai_gateway/adapters/lerobot.py:303-309 | actions are returned only if no Ready and no new setup came since the observation was accepted |
| LeRobotLaws.RunDetermined | phyai-gateway/phyai_gateway/adapters/lerobot.py:59-309 | in every interleaving the log determines each session: closed exactly when reset, with the setup last installed, holding the last accepted observation if nothing came after |
| LeRobotLaws.SetupLaw | phyai-gateway/phyai_gateway/adapters/lerobot.py:165-173 | a setup is installed exactly when the session was not reset, under an identity never used before, and discards what waited |
| LeRobotLaws.ReadLaw | phyai-gateway/phyai_gateway/adapters/lerobot.py:175-183 | an observation call goes on exactly under the setup current when it reads it |
| LeRobotLaws.ObservationLaw | phyai-gateway/phyai_gateway/adapters/lerobot.py:242-249 | an observation is accepted exactly when its session is open with the setup the call read, whatever waits there, and is then what waits: the latest wins |
| LeRobotLaws.TakeLaw | phyai-gateway/phyai_gateway/adapters/lerobot.py:261-278 | actions are asked for exactly when an observation waits, and for that one, which then waits no longer |
| LeRobotLaws.ReturnLaw | phyai-gateway/phyai_gateway/adapters/lerobot.py:303-309 | actions are returned exactly when neither a Ready nor a new setup came since their observation was accepted |
| LeRobotLaws.ReadyLaw | phyai-gateway/phyai_gateway/adapters/lerobot.py:59-70 | a Ready gives its client a session of its own, empty, and resets the one it had and no other |
| LeRobotLaws.RunOpen | phyai-gateway/phyai_gateway/adapters/lerobot.py:59-70 | in every interleaving the open sessions are exactly those the clients' last Readys made |
| LeRobotLaws.LookLaw | phyai-gateway/phyai_gateway/adapters/lerobot.py:492-501 | a call that is let in works on its client's session, which is open at that moment |
| LeRobotTransfer.Receive | phyai-gateway/phyai_gateway/adapters/lerobot.py:184-232 | accepts exactly the streams framed as (BEGIN MIDDLE*)? END with positive size within the limit; the payload is the chunks in order |
| FileStore.RecordRoundTrip | phyai-ext/csrc/radix_cache/storage_backend.cpp:66-72 | a record of ids decodes to the ids when a unit has room for them |
| FileStore.EncodeRecord | phyai-ext/csrc/radix_cache/storage_backend.cpp:66-72 | the encoding loop builds the record |
| FileStore.ReservedTiles | phyai-ext/csrc/radix_cache/storage_backend.cpp:73-79 | reservations cover exactly the file from its initial end to the end offset, one after the other, and each key points to its latest write |
| FileStore.RegionsApart | phyai-ext/csrc/radix_cache/storage_backend.cpp:73-79 | no two reserved regions overlap |
| FileStore.PwriteIs | phyai-ext/csrc/radix_cache/storage_backend.cpp:80-81 | a write leaves its bytes at its offset, zeros in a hole before it, and everything else; an empty one leaves the file alone |
| FileStore.PerformImage | phyai-ext/csrc/radix_cache/storage_backend.cpp:80-81 | whichever writes have happened, in whatever order, their regions hold what was written |
| FileStore.AnyOrderSameFile | phyai-ext/csrc/radix_cache/storage_backend.cpp:60-82 | once all have happened the file is its initial contents followed by the records in order of reservation |
| FileStore.LatestDecodes | phyai-ext/csrc/radix_cache/storage_backend.cpp:60-103 | a key's region decodes to the ids of its latest reserved write |
| FileStore.FileStorageBackend.StartWrite | phyai-ext/csrc/radix_cache/storage_backend.cpp:60-82 | without a unit size it fails and changes nothing; otherwise it reserves and writes the record |
| FileStore.FileStorageBackend.StartRead | phyai-ext/csrc/radix_cache/storage_backend.cpp:84-103 | succeeds exactly when the key is known and the bytes can be read |
| ConvKernel.Accumulate | phyai-kernel/phyai_kernel/triton/causal_conv1d.py:39-59 | the masked accumulation loop computes the padded convolution at the token's time for every channel of the block |
| ConvKernel.StoredOnce | phyai-kernel/phyai_kernel/triton/causal_conv1d.py:32-37 | every channel of every token is stored by exactly one program of the grid |
| Basics.CellApart | phyai-kernel/phyai_kernel/triton/causal_conv1d.py:65-91 | in a contiguous output different cells have different flat addresses |
| ConvKernel.Program | phyai-kernel/phyai_kernel/triton/causal_conv1d.py:65-91 | a program stores each of its channels in the tensor it belongs to, at its flat address, and touches nothing else |
| ConvKernel.RunGrid | phyai-kernel/phyai_kernel/triton/causal_conv1d.py:181-201 | programs in any order leave the padded, truncated and activated convolution, split in three |
| ConvKernel.Causal | phyai-kernel/phyai_kernel/triton/causal_conv1d.py:40-43 | the output at a time depends on no later input |
| EmbeddingKernel.TiledOnce | phyai-kernel/phyai_kernel/triton/masked_embedding.py:51-57 | every output cell lies in the tile of exactly one program |
| EmbeddingKernel.Program | phyai-kernel/phyai_kernel/triton/masked_embedding.py:51-77 | a program stores the lookup in its tile of the contiguous output and touches nothing else |
| EmbeddingKernel.MaskedEmbeddingLookup | phyai-kernel/phyai_kernel/triton/masked_embedding.py:109-168 | refuses shards the table cannot hold; runs exactly when there are columns or no rows; programs in any order leave the masked lookup |
| EmbeddingKernel.RanksSumToEmbedding | phyai-kernel/phyai_kernel/triton/masked_embedding.py:3-7 | for any consecutive partition the ranks' lookups sum to the plain row inside the vocabulary and to zero outside |

## Left out

- Foreign-function bindings, tensors in the DLPack format, the xxh3 hash, event payloads, observers, clocks and usage
  statistics of nodes. Priority is an arbitrary ranking of nodes; `std::sort` may order ties in any way.
- The Mamba slot of a node, and the hybrid cache built on it.
- `composite_node_ref`, which is a list of `node_ref`s.
- RadixSpans.PinSpanIff: no eviction, transfer or other pin in between, since what those do depends on the counts.
- RadixSystem.StepConserves: a full handle appended to itself is undefined and not covered.
- RadixAllocator.OwnedUnits.Append: the same call is excluded.
- `wait_op`, and threads inside the cache beyond the interleavings of `RadixBudget`.
- `unit_allocator::reset_to_full`, which nothing calls; a negative total, which the allocator refuses; widths of the
  source's integers.
- RadixPrefixCache.PrefixCache.Insert: nothing is claimed, beyond a valid object, where the source would use a node it
  has just destroyed; and handles of another cache's allocators are not accepted.
- RadixPrefixCache.PrefixCache.FailAllInflight: stated where the source reads no freed node, which agreement of table
  and tree ensures.
- RadixCapacity.LoopTakes: stated for a demotion target other than the tier itself; demoting a tier to itself frees nothing.
- RadixDemote.CompleteLaw: what `complete_op` reads afterwards for its events, from a node or resource that may just have
  been freed, is not modelled.
- RadixRuns.RunRefines: demotion, promotion and their completions may leave gaps on a tier on purpose and are covered by
  conservation and the in-flight invariants instead.
- The allocators' lists and the resources' ids are sequences, as vectors are; the children of a node are visited in any
  order, as in a hash map.
- RegistryRuns.RunTracks: the threshold is fixed over the history, and at least 1, as the health monitor requires.
- Registry.ModelRegistryService.Register: the address grammar of `validate_backend` is not modelled; server ids are fresh
  numbers.
- HealthMonitor.BackendHealthMonitor.CheckOnce: one undisturbed round; stopping in the middle of a round is not modelled.
- `ModelInferenceClient.close`, deadlines, polling and cancellation: a request may finish at any point.
- LeRobotSessions.RunInv: decoding of setups and observations is not modelled; a call may abort at any point instead.
- The in-memory storage backend; short writes and failing system calls of the file backend.
- ConvKernel.RunGrid: inputs are indexed by batch, time and channel, not by strides; rounding to the tensor's type is the
  identity.
- EmbeddingKernel.MaskedEmbeddingLookup: the table is indexed by row and column; devices and element types are not
  modelled.
