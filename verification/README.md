# lzmalloc, modelled and proved in Dafny

lzmalloc is a thread-caching allocator: per-thread heaps over slabs and page spans, a chunk cache under them (the
VMM), and a radix index from addresses to chunk headers. This project models that core with the constants of the
default Linux profile (chunk 2 MB, page 4096, cache line 64, slab limit 32768, 32 cached chunks per node, batch 64,
16 nodes) and proves what its parts promise each other. `dafny verify dfyconfig.toml` checks the whole project.

## How it is laid out

- `Common`, `Bits`: options, duplicate-free sequences, build constants; the bit operations of the source on naturals.
- `Sizes`: the size-class mathematics.
- `Heaps`, `Spans`, `ThreadHeap`: one thread-local heap as a value. Bins of slabs, page spans, and which blocks are
  out. These are the specification of the in-place code and the heap inside the concurrent model.
- `Links`, `SlabBlocks`, `SlabBins`: the slab side in place. Doubly linked lists, block addresses, bump cursor, free
  list with encoded links, and the bin operations, each proved against `Heaps`.
- `SpanEngine`: the span side in place. Bitmap words, length table and list, proved against `Spans` and `ThreadHeap`.
- `RemoteFree`, `Interleaving`, `Linearization`, `ProtocolRuns`: the cross-thread free protocol. `Interleaving` is the
  step system of the code (links in memory, mailbox head, the flush loop split into load, link and
  compare-and-swap); `RemoteFree` is a ledger that says where each handed-out block is; `Linearization` proves that
  every step is one atomic step of the ledger or none; `ProtocolRuns` draws the conclusions for all runs.
- `ProtocolCalls`: what whole calls achieve in that protocol. When an allocation answers NULL, when a chunk is
  released, when a remote free flushes, and that no call gets stuck.
- `Lifecycle`: threads that adopt heaps, exit, and leave them on the zombie list, running that protocol.
- `Vmm`, `VmmPlaces`, `VmmRuns`, `VmmCalls`: the chunk cache as interleaved steps under its spinlocks, its ledger,
  whole runs, and whole calls of allocation and purge.
- `Radix`: the two-level index under racing setters and readers, against an atomic map.
- `BaseHeap`: the bootstrap allocator's compare-and-swap bump loop.
- `Mappings`, `Routing`, `Router`: cutting mappings, which engine serves a request and what it promises, and the index
  kept by the router in place.
- `Extents`, `BlockBytes`: the address and length of a block in a heap, and in every run of the free protocol: blocks
  that are out never overlap, never move, and links are written only into blocks that were given back.
- `Bytes`, `Machine`, `MachineRuns`: byte-addressed memory, and the allocator as one step system in which the heaps
  with their free protocol, the chunk cache, direct mappings, the index and the bytes move together. Chunks change
  hands between cache and heaps, so that a chunk the cache gives is nobody's is proved here and not assumed.
- `Clients`, `Contents`: what clients can rely on in every run of that machine. Addresses resolve to their header,
  usable sizes suffice and persist, places share no byte, contents change by their client's writes only; hence realloc
  keeps the old bytes and calloc gives zeroes.
- `Calls`: lz_malloc, lz_free, lz_calloc and lz_realloc as the events they perform in that machine, each proved by its
  effect: what it returns, what it ends, and what others keep.

Concurrent parts are step systems over any number of threads: a state, actions with guards, and theorems about every
state that any sequence of actions can reach. Memory is sequentially consistent. The client is well behaved: it frees
only live blocks, once each, by their returned address. What the system or another component answers (a mapping, a
chunk from the VMM, the caller's node, a spurious failure of a weak compare-and-swap) is a parameter of the action. In
`Machine` the chunk is one that the cache model gave; a mapping is memory that nothing is mapped at.

In the step systems, a thread's own heap is changed in one step, because no other thread touches it; every access to
shared memory (mailbox heads, links, pool tops, counts, locks, index entries, the base offset) is a step of its own.

## Model

| member | source | states |
|---|---|---|
| Sizes.ClassIsLeast | src/internal/sizes.h:48-85 | for sizes 1 to 2^63, size <= class size iff the class of the size is at most that class: the least class that holds the request |
| Sizes.ClassOfSize | src/internal/sizes.h:48-85 | the class of a class size is that class |
| Sizes.ClassMonotone | src/internal/sizes.h:48-67 | larger requests never get smaller classes |
| Sizes.HoldsExactly | src/internal/sizes.h:48-85 | over all 64-bit sizes the class holds the request exactly up to 7 * 2^61; above that the class size wraps |
| Sizes.Slack | src/internal/sizes.h:48-85 | waste is under 16 bytes up to 128 and under a quarter of the request above |
| Sizes.SlabClasses | src/internal/sizes.h:48-85 | sizes up to 32768 stay below class 40 and within 16 to 32768 bytes |
| Sizes.ClassKeepsAlignment | src/internal/sizes.h:48-85 | for an alignment dividing 64, the class size of a multiple is a multiple |
| Heaps.FreeBlockReturns | src/tlh/tlh.c:293-311 | freeing keeps the bin invariant, moves exactly that block to the free list, and lets the chunk go only when no other block is out |
| Heaps.RescuedSlabWasFull | src/tlh/tlh.c:306-311 | a count that drops to max - 1 belongs to the current slab or to one in the full list |
| Heaps.UsedCountsBlocks | src/tlh/tlh.c:304-305 | used_objects is the number of carved blocks off the free list |
| Heaps.AllocFastTakes | src/tlh/tlh.c:225-233 | the fast path hands out exactly one block that nobody held and keeps the bin invariant |
| Heaps.AllocWarmTakes | src/tlh/tlh.c:235-260 | so does the warm path, or it leaves an exhausted current slab with every block as before |
| Heaps.AllocSlowTakes | src/tlh/tlh.c:140-182 | so does the slow path on an exhausted bin, from the first partial slab or a new one |
| Heaps.FastExact | src/tlh/tlh.c:225-233 | the fast path serves exactly when the current slab has a block on its free list |
| Heaps.FinishedExact | src/tlh/tlh.c:140-267 | warm and slow path together fail exactly when every slab of the bin is full and there is no chunk, and which slab serves |
| Heaps.FreeReleases | src/tlh/tlh.c:37-60 | a free lets its chunk go exactly when it was the last block out and the slab is not the current one with nothing to replace it |
| Heaps.PartialCanServe | src/tlh/tlh.c:160-164 | the partial slab the slow path dereferences has a free block |
| Heaps.RetiredIsFull | src/tlh/tlh.c:145-150 | only a slab with every block used is retired to the full list |
| SlabBlocks.ObfuscateTwice | src/core/security.h:35-39 | decoding a link at its storing address recovers the pointer, null included, for any secret |
| SlabBlocks.ObfuscateHides | src/core/security.h:35-39 | decoding with another secret or at another address recovers the pointer exactly when the two masks are the same |
| SlabBlocks.CursorBound | src/tlh/tlh.c:248-259 | the bound test of the bump cursor passes exactly for block numbers below max_objects |
| SlabBlocks.AddrApart | src/engines/slab.c:36-52 | blocks lie on a grid and do not overlap |
| SlabBlocks.WriteElsewhere | src/tlh/tlh.c:298-303 | a write into a block off the free list leaves the encoded list as it was |
| SlabBlocks.SlabHeader.constructor | src/engines/slab.c:36-52 | a new slab has nothing carved, a live cursor, an empty free list and the capacity of its block size |
| SlabBlocks.SlabHeader.Pop | src/tlh/tlh.c:226-231 | decoding the head's link pops the first slot of the free sequence |
| SlabBlocks.SlabHeader.Push | src/tlh/tlh.c:298-304 | encoding the old head into the block pushes its slot in front |
| SlabBlocks.SlabHeader.Carve | src/tlh/tlh.c:248-259 | carves the next block of the grid, or clears the cursor exactly when all max_objects are carved |
| SlabBlocks.SlabHeader.First | src/tlh/tlh.c:175-178 | the first block of a new slab |
| SlabBlocks.SlabHeader.ClientWrites | src/tlh/tlh.c:298-303 | client writes into used blocks do not disturb the slab |
| Links.List.PushFront | src/tlh/tlh.c:29-34 | splicing at the head keeps next and prev consistent and prepends |
| Links.List.PopFront | src/tlh/tlh.c:152-158 | taking the head keeps the rest well formed and clears the node's links |
| Links.RemoveFrom | src/tlh/tlh.c:50-56 | the unlink that does not know which of two lists a node is in removes it from the right one and leaves the other's head |
| Links.List.Remove | src/tlh/tlh.c:25-28 | unlinking any node removes exactly it and keeps both directions consistent |
| SlabBins.SlabBin.RescueFromFull | src/tlh/tlh.c:18-35 | the in-place rescue is the specified one: full to the head of partial, nothing for the current slab |
| SlabBins.SlabBin.RecycleEmpty | src/tlh/tlh.c:37-60 | the in-place recycling is the specified one; the chunk is released except for a current slab with no partial one to replace it |
| SlabBins.SlabBin.Free | src/tlh/tlh.c:293-311 | push, rescue and recycle in place equal the specified free, and say whether the chunk was released |
| SlabBins.SlabBin.TryFast | src/tlh/tlh.c:225-233 | the in-place fast path is the specified one, block and address |
| SlabBins.SlabBin.TryWarm | src/tlh/tlh.c:241-260 | the in-place warm path is the specified one, with the cursor cleared when it fails |
| SlabBins.SlabBin.AllocCold | src/tlh/tlh.c:140-182 | the in-place slow path is the specified one: retire, promote or create, and NULL only without a chunk |
| SlabBins.SlabBin.FinishAlloc | src/tlh/tlh.c:235-267 | the rest of an allocation after the mailbox was drained |
| Spans.ReserveOk | src/engines/span.c:113-114 | reserving a free run keeps bitmap, length table and counter in agreement |
| Spans.ReleaseOk | src/engines/span.c:127-145 | so does releasing at any page |
| Spans.ReserveRelease | src/engines/span.c:113-145 | releasing what was just reserved restores the span |
| Spans.ReleaseChangesExactly | src/engines/span.c:127-145 | a release changes the span exactly when an allocation starts at the page |
| Spans.InteriorStartsNothing | src/engines/span.c:134-137 | no allocation starts at an interior page of another |
| Spans.EmptyExactly | src/engines/span.c:156-157 | the counter is 1 exactly when nothing is allocated |
| Spans.PruneIsSafe | src/engines/span.c:66 | the page-count test never skips a span that has a fit |
| ThreadHeap.FindSpanExact | src/engines/span.c:61-73 | the search fails exactly when no active span has a run |
| ThreadHeap.SpanBlockOk | src/engines/span.c:53-118 | a span allocation hands out one new block, or changes nothing and fails exactly when the VMM does and nothing fits |
| ThreadHeap.TakeBackOk | src/tlh/tlh.c:293-325 | the owner's free takes back exactly that block, and its chunk leaves the heap exactly when no other block of it is out and it is not the current slab of a bin without partial ones |
| ThreadHeap.FinishAllocOk | src/tlh/tlh.c:235-267 | allocation after the drain hands out one new block, or none exactly when every slab of the class is full and the VMM gave none; a new chunk is used exactly when every slab is full |
| ThreadHeap.FinishChooses | src/tlh/tlh.c:140-182 | the block comes from the current slab while it has one, then from the first partial slab, then from the new chunk |
| ThreadHeap.FinishIsFinished | src/tlh/tlh.c:235-267 | the heap's allocation is the one that SlabBins does in place on the bin |
| SpanEngine.Scan | src/engines/span.c:15-47 | the scan with its zero-word skip returns the lowest start of a run of n free pages, or -1 exactly when n is 0 or there is none |
| SpanEngine.FindContiguous | src/engines/span.c:15-47 | scan and marking in place: exactly the found pages become used, and none on failure |
| SpanEngine.MarkFree | src/engines/span.c:139-142 | the freeing loop sets exactly the bits of the interval |
| SpanEngine.SpanHeader.constructor | src/engines/span.c:86-94 | a formatted chunk has every page free but the first |
| SpanEngine.SpanHeader.TakeFirst | src/engines/span.c:103-114 | on a pristine chunk the search finds and marks the run at page 1, and nothing exactly for no pages |
| SpanEngine.SpanHeader.Give | src/engines/span.c:127-145 | the in-place free of the header is the specified release |
| SpanEngine.SpanList.Search | src/engines/span.c:61-73 | the loop over the list finds the first span that serves, and its lowest run |
| SpanEngine.SpanList.FromChunk | src/engines/span.c:76-118 | a new chunk goes to the head of the list and serves from page 1; the failsafe is reached exactly for no pages |
| SpanEngine.SpanList.Alloc | src/engines/span.c:53-118 | lz_span_alloc in place equals the specified allocation, list, tables and result |
| SpanEngine.SpanList.Free | src/engines/span.c:124-166 | lz_span_free_local in place equals the specified free, with the chunk unlinked exactly when it becomes empty |
| SpanEngine.FreedOk | src/engines/span.c:124-166 | a free takes back exactly the allocation that starts at the page, and is a no-op elsewhere |
| SpanEngine.RequiredExact | src/engines/span.c:54 | for sizes routed here the page count is the least that holds the size, and zero for size zero only |
| SpanEngine.AllocatedExact | src/engines/span.c:53-118 | exactly when the result is NULL, a block or the fatal failsafe |
| RemoteFree.PushInv | src/tlh/tlh.c:66-87 | the atomic push of a batch keeps every block of the ledger in exactly one place |
| RemoteFree.DrainInv | src/tlh/tlh.c:89-93 | so does the atomic take-all of a mailbox |
| RemoteFree.AppendInv | src/tlh/tlh.c:330-341 | so does appending to the outgoing batch |
| RemoteFree.ReapOneInv | src/tlh/tlh.c:97-133 | so does one turn of the reap loop |
| Linearization.PublishSimulates | src/tlh/tlh.c:74-82 | a compare-and-swap on the value seen is the atomic push, whatever happened in between |
| Linearization.LinkSimulates | src/tlh/tlh.c:74-75 | writing the tail's link moves no block |
| Linearization.ReapSimulates | src/tlh/tlh.c:97-133 | one turn of the reap loop finds a clear link in a live chunk of its own heap and is the atomic step |
| ProtocolRuns.Step | src/tlh/tlh.c:66-134 | every possible action of every thread is safe and is one atomic ledger step or none |
| ProtocolRuns.NeverWrong | src/tlh/tlh.c:89-134 | in every reachable state every action is safe: no read of a released chunk or an overwritten link |
| ProtocolRuns.CasPrepends | src/tlh/tlh.c:66-87 | a successful compare-and-swap leaves an acyclic mailbox equal to batch followed by old mailbox, no node lost or doubled |
| ProtocolRuns.DrainTakesAll | src/tlh/tlh.c:89-93 | the exchange takes the whole mailbox in order and leaves it empty |
| ProtocolRuns.OnePlace | src/tlh/tlh.c:66-134 | in every run a block is out exactly when it is at a place (client, hand, batch, mailbox, worklist), and at one only |
| ProtocolRuns.UsedCountsPlaces | src/tlh/tlh.c:213-342 | in every run used_objects of every slab counts its blocks at some place |
| ProtocolRuns.ReleaseIsSafe | src/tlh/tlh.c:37-60 | a chunk is released only by its owner's free or reap, and then no block of it is anywhere |
| ProtocolRuns.LiveUntouched | src/tlh/tlh.c:298-342 | no allocator step changes the link word of a block that its client keeps; BlockBytes.LinksInReturned and BlockBytes.LiveBytesUntouched say it of the blocks written and of every byte |
| ProtocolRuns.NothingIsLost | src/tlh/tlh.c:66-134 | a block stops being out only when its owner takes it back |
| ProtocolRuns.NothingIsDuplicated | src/tlh/tlh.c:213-267 | a block is given to a client only by an allocation and never while it is out |
| ProtocolRuns.ReapAdvances | src/tlh/tlh.c:97-133 | a reap pass works on a finite chain, removes its first node each turn, and nobody else changes it |
| ProtocolRuns.MailStays | src/tlh/tlh.c:66-93 | only the owner takes blocks out of its mailbox |
| ProtocolRuns.MailGrows | src/tlh/tlh.c:66-87 | what others do to a mailbox is to put blocks in front of it: the chain it was stays behind them, in order |
| ProtocolCalls.ReleaseExactly | src/tlh/tlh.c:37-60 | in every run a chunk is released exactly when its owner takes back its only block that is out, unless it is the slab the bin keeps |
| ProtocolCalls.SlabAnswers | src/tlh/tlh.c:235-267 | in every run a slab allocation answers NULL exactly when its class is full and the VMM gave nothing, and uses the VMM's chunk exactly when its class is full |
| ProtocolCalls.PagesAnswers | src/engines/span.c:53-118 | the same for pages: exactly when no active span has a run |
| ProtocolCalls.SlabCall | src/tlh/tlh.c:212-267 | an undisturbed allocation off the fast path takes back its whole mailbox and gives a block of its class, with the exact condition for NULL |
| ProtocolCalls.RemoteFreeBatches | src/tlh/tlh.c:326-342 | a remote free flushes first exactly when the batch holds 64 blocks or blocks of another owner, and else the block goes in front of the batch |
| ProtocolCalls.BatchBounded | src/tlh/tlh.c:332-335 | a batch never holds more than 64 blocks |
| ProtocolCalls.FlushCall | src/tlh/tlh.c:66-87 | undisturbed, a flush puts the whole batch in front of the target's mailbox in three steps |
| ProtocolCalls.FlushRetries | src/tlh/tlh.c:74-82 | a failed compare-and-swap leaves the current head, so that undisturbed the next round publishes |
| ProtocolCalls.ReapCall | src/tlh/tlh.c:89-134 | undisturbed, a reap pass takes back exactly the blocks of its worklist |
| ProtocolCalls.NeverStuck | src/tlh/tlh.c:66-134 | in every run a thread inside a call can take its next step |
| ProtocolCalls.AnyoneCanFree | src/tlh/tlh.c:281-342 | in every run any idle thread can free any live block |
| ProtocolCalls.AllocCanStart | src/tlh/tlh.c:225-240 | in every run an idle thread can start a slab allocation, on the fast path exactly when the current slab has a free-listed block |
| Lifecycle.AdoptsFirst | src/hooks/lzmalloc.c:71-82 | a thread that looks at the zombie list takes its first heap and runs with it, and makes one exactly when the list is empty |
| Lifecycle.MadeOnlyWithoutZombies | src/hooks/lzmalloc.c:157-172 | in every history a heap is made only by a thread whose look found the list empty |
| Lifecycle.BuriedFirst | src/hooks/lzmalloc.c:130-133 | the heap of an exiting thread becomes the first of the list |
| Lifecycle.NeverBlocked | src/hooks/lzmalloc.c:71-172 | after any history every thread can go on, or waits for the zombie lock whose holder can |
| Lifecycle.EventStep | src/hooks/lzmalloc.c:71-82 | adoption, exit and protocol steps keep heaps, zombie list and its lock in order, whatever the interleaving |
| Lifecycle.EveryHeapHasOneHome | src/hooks/lzmalloc.c:111-172 | after any history each heap is held by one thread or exactly once on the zombie list, where its batch is empty |
| Lifecycle.MailWaits | src/hooks/lzmalloc.c:111-172 | from any state in which a heap is on the zombie list, through any events up to and including its adoption, its mailbox is the one it had behind what was pushed since, and the adopter's first drain takes all of it |
| VmmRuns.EveryRun | src/engines/vmm.c:122-245 | in every interleaving of alloc, free and purge the pointers spell a ledger of places with counts, locks and header data in agreement |
| VmmRuns.Conservation | src/engines/vmm.c:122-245 | every mapped chunk is in exactly one of a node pool, the global pool, a thread's hand or a client |
| VmmRuns.PoolExact | src/engines/vmm.c:127-134 | a pool holds at most 32 distinct chunks of its own node with the magic, and its count is exact whenever its lock is free |
| VmmRuns.ReturnedChunk | src/engines/vmm.c:136-166 | a returned chunk was in nobody's use and carries the caller's node, the magic and no link; the lemmas of VmmCalls say when there is one |
| VmmCalls.AllocFromGlobal | src/engines/vmm.c:141-166 | an undisturbed allocation on an empty pool takes the top of the global pool, with node, magic and no link |
| VmmCalls.AllocAsks | src/engines/vmm.c:141-146 | with both pools empty it asks the system for an extent, holding no lock |
| VmmCalls.AllocProvisions | src/engines/vmm.c:68-107 | the extent provides the chunk; the other 31 become the global pool |
| VmmCalls.AllocRefused | src/engines/vmm.c:141-157 | if the system refuses, the call ends with nothing changed |
| VmmCalls.AllocAfterRefusal | src/engines/vmm.c:144-166 | and if others filled the global pool meanwhile, it takes the top all the same |
| VmmCalls.NullOnlyAfterAsking | src/engines/vmm.c:141-157 | in every run an allocation ends with a chunk, or with NULL only after the system answered during that same call |
| VmmCalls.PurgeCall | src/engines/vmm.c:212-245 | an undisturbed purge empties and zeroes all sixteen pools, and the global pool then holds what it held and every cached chunk, each once |
| VmmRuns.FreeAccepts | src/engines/vmm.c:169-174 | every chunk a client holds passes the magic test and names an existing node |
| VmmRuns.MutualExclusion | src/engines/vmm.c:44-62 | one thread at most is inside each lock's section |
| VmmRuns.NoDeadlock | src/engines/vmm.c:122-245 | a thread inside a call can move, or the thread that holds the very lock it waits for can |
| VmmRuns.WaiterHoldsNothing | src/engines/vmm.c:44-62 | no thread waits for a lock while it holds one |
| VmmRuns.HeadersUnowned | src/engines/vmm.c:122-245 | the cache never changes link, node or magic of a chunk that a client has |
| VmmRuns.PoolSectionEnds | src/engines/vmm.c:127-134 | a pool's critical section ends after a bounded number of its holder's steps |
| VmmRuns.GlobalSectionEnds | src/engines/vmm.c:100-106 | so does the global one, the provisioning loop included |
| VmmRuns.FreeToPool | src/engines/vmm.c:178-190 | a free that finds room puts the chunk on top of its node's pool and counts it |
| VmmRuns.FreeToGlobal | src/engines/vmm.c:186-205 | a free at the bound puts it on top of the global pool |
| VmmRuns.AllocFromPool | src/engines/vmm.c:127-139 | an allocation takes the top of its node's pool |
| VmmRuns.FreeThenAlloc | src/engines/vmm.c:122-206 | free then alloc on the same node, undisturbed, gives the chunk back and restores pools, counts and clients |
| Radix.SplitExact | src/core/rtree.h:62-65 | two addresses share a slot exactly when their chunk numbers agree modulo 2^27 |
| Radix.SplitInjective | src/core/rtree.h:62-65 | on 48-bit addresses the index split is injective on chunks |
| Radix.LeafStays | src/core/rtree.c:60-73 | an installed leaf is never replaced or unmapped |
| Radix.StoreFound | src/core/rtree.c:75 | a store, the race loser's included, changes the answer for its slot and no other |
| Radix.QuietFound | src/core/rtree.c:46-73 | loading, mapping and installing a leaf change no answer |
| Radix.Linearizable | src/core/rtree.c:41-76 | in every interleaving of setters and readers the tree acts as a plain map: every answer is the map's and no installed update is lost |
| Radix.OneEffect | src/core/rtree.c:41-80 | each call takes effect once, at its last step, on its own slot; without effect only when the system refuses a leaf |
| Radix.EffectAsAsked | src/core/rtree.c:41-80 | in every run a call ends with the effect it was called for: a set stores its own value at its own address, a get reads there |
| Radix.NoLeafLeaks | src/core/rtree.c:60-73 | every mapped leaf is installed or about to be, so the loser of a race has unmapped its own |
| Radix.NeverFaults | src/core/rtree.h:67-74 | no step ever follows a pointer to an unmapped leaf |
| BaseHeap.BlocksApart | src/hooks/posix_hooks.c:38-64 | in every interleaving returned blocks with their headers are disjoint and inside the 4 MB heap, each with the size and alignment of its claim |
| BaseHeap.ServedAsAsked | src/hooks/posix_hooks.c:38-64 | in every run the block a call returns is aligned as that call asked, holds and records the size it asked for and wastes little; the process is stopped exactly when it does not fit |
| BaseHeap.CallCompletes | src/hooks/posix_hooks.c:38-64 | an undisturbed call claims the next region in one round and returns it if it fits |
| BaseHeap.RetrySeesCurrent | src/hooks/posix_hooks.c:45-52 | a round succeeds exactly on the current offset without a spurious failure, and after a failed one the loop has the current offset |
| BaseHeap.OffsetGrows | src/hooks/posix_hooks.c:42-52 | the offset is a multiple of 16 and grows exactly with each success |
| BaseHeap.LostToAnother | src/hooks/posix_hooks.c:50-52 | an exchange that fails for good reason lost to a claim made since the offset was read |
| Mappings.CutExact | src/hooks/lzmalloc.c:37-65 | prefix, kept part and suffix partition the mapping, the kept part starts on a chunk boundary, and the cuts are whole pages |
| Mappings.KeptStart | src/internal/common.h:65 | the kept part starts where the macro's add-and-mask puts it, aligned mapping or not |
| Mappings.ExtentFresh | src/engines/vmm.c:68-106 | an extent cut out of fresh memory is 32 new, distinct chunks inside the mapping |
| Routing.MallocUsable | src/hooks/lzmalloc.c:187-229 | every route promises the bytes asked for and at most a few more (under 16 up to 128, a quarter up to 32 KB, a page up to 1 MB, none above), and a direct mapping holds them and wastes less than a chunk; Clients.MallocServes says that the promise is what usable_size reads |
| Routing.DirectFits | src/hooks/lzmalloc.c:199-201 | a direct mapping holds its payload exactly when the two 64-bit additions do not wrap |
| Routing.MemalignAligned | src/hooks/lzmalloc.c:299-345 | refusal exactly for what is no power of two; otherwise an aligned address for every chunk and slot |
| Routing.MemalignUsable | src/hooks/lzmalloc.c:303-345 | every route promises the bytes asked for and at most a few more; Clients.MemalignServes says that the promise is what usable_size reads |
| Routing.MemalignExactly | src/hooks/lzmalloc.c:316-337 | for sizes from one byte the alignment is guaranteed exactly up to 2 MB |
| Routing.MemalignZero | src/hooks/lzmalloc.c:306-309 | for size zero and small alignments it is guaranteed exactly up to 16 |
| Router.Index.Resolve | src/hooks/lzmalloc.c:379-388 | an address resolves to the one header whose blocks cover it, or to none |
| Router.Index.AllocDirect | src/hooks/lzmalloc.c:198-228 | the direct path enters every 2 MB block of its mapping and keeps the index exact |
| Router.Index.Free | src/hooks/lzmalloc.c:231-259 | a free finds the covering header, takes a direct mapping out of the index block by block, and passes anything else to the heaps |
| Router.Index.Enter | src/engines/slab.c:23-33 | a slab or span chunk enters the index and keeps it exact |
| Router.Index.Leave | src/engines/slab.c:61-72 | and leaves it again |
| Router.Index.DirectRoundTrip | src/hooks/lzmalloc.c:198-255 | direct allocation followed by free restores index and headers |
| Router.ClearUndoesSet | src/hooks/lzmalloc.c:223-251 | the clearing loop undoes the setting loop on blocks that were not indexed |
| Extents.InsideChunk | src/engines/slab.c:36-52 | a block that is out in a heap lies inside its chunk, behind the chunk, slab or span headers |
| Extents.HeapApart | src/engines/span.c:113-118 | two blocks that are out in one heap share no byte, slab blocks and page runs alike |
| BlockBytes.EveryHeapSized | src/engines/slab.c:51 | in every run every slab has exactly the capacity that fits its chunk |
| BlockBytes.BlockInside | src/engines/slab.c:36-52 | in every run a block that is out lies inside its own chunk behind the headers, and has room for a link |
| BlockBytes.BlocksApart | src/tlh/tlh.c:213-267 | in every run no byte belongs to two blocks that are out, whatever their heaps |
| BlockBytes.ExtentKept | src/tlh/tlh.c:293-342 | a block that stays out keeps owner, address and length through every step |
| BlockBytes.LinksInReturned | src/tlh/tlh.c:298-342 | a link is written only into a block that is out and that no client keeps: never into a free-listed block, an uncarved slot or a released chunk |
| BlockBytes.LiveBytesUntouched | src/tlh/tlh.c:66-134 | in every run no byte that a step may write (headers of its own chunks, the link, a chunk it formats) is a byte of a block that its client keeps |
| BlockBytes.OwnerGrows | src/engines/slab.c:17-30 | a chunk joins the heaps only as the chunk that an allocation formats |
| BlockBytes.HandedIsLive | src/tlh/tlh.c:213-267 | what an allocation step hands out was not out and is then live and out |
| BlockBytes.HandedLen | src/tlh/tlh.c:213-267 | and has the bytes of its class or its pages |
| Bytes.StoreAllRead | src/hooks/lzmalloc.c:206-218 | a header field is read back as stored if no later store overlaps it |
| Bytes.Copy | src/hooks/lzmalloc.c:293 | memcpy between separate ranges writes exactly the target, with the bytes of the source |
| Bytes.Clear | src/hooks/lzmalloc.c:272 | memset writes exactly the range, with zeroes |
| Bytes.OverflowTest | src/hooks/lzmalloc.c:265 | the division test is exactly overflow of the product |
| MachineRuns.StepAllowed | src/engines/slab.c:17-30 | a chunk the cache gave is nobody's, so every allocation step is possible and safe: the two models meet |
| MachineRuns.EventFine | src/engines/slab.c:61-72 | every event is safe; a released chunk passes the cache's tests |
| MachineRuns.EventInv | src/engines/span.c:76-165 | every event keeps supply of chunks, direct mappings and index in agreement |
| MachineRuns.PreparedByte | src/hooks/lzmalloc.c:205-218 | the header stores of the direct path leave its mapping zero behind byte 80 and other memory as it was |
| MachineRuns.PreparedReads | src/hooks/lzmalloc.c:217-218 | the two sizes stored behind the header are read back |
| MachineRuns.MappingByte | src/hooks/lzmalloc.c:198-255 | nobody but its own client and its unmapping writes a byte of a direct mapping |
| Clients.IndexIsExact | src/hooks/lzmalloc.c:222-251 | after any run the index maps exactly the chunks of live slabs and spans and every 2 MB block of each live direct mapping, each to its header |
| Clients.AddressResolves | src/hooks/lzmalloc.c:231-241 | the address of every block and payload that is out leads to its own header, payloads past the first 2 MB included |
| Clients.UsableIsSize | src/hooks/lzmalloc.c:379-407 | in every run what usable_size reads through index and header is the true size of the block or payload |
| Clients.UsableNowhere | src/hooks/lzmalloc.c:380-388 | NULL and addresses outside every chunk and mapping have usable size 0 |
| Clients.PlacesApart | src/hooks/lzmalloc.c:187-229 | in every run no byte belongs to two blocks or payloads |
| Clients.AnswerSize | src/hooks/lzmalloc.c:187-229 | what an allocation answers was nobody's and has the address and the size of its route |
| Clients.MallocServes | src/hooks/lzmalloc.c:187-229 | usable_size(malloc(n)) >= n on all three routes, read through the index of the state after the call |
| Clients.MemalignServes | src/hooks/lzmalloc.c:303-345 | the same for memalign, with the alignment |
| Clients.StaysUsable | src/hooks/lzmalloc.c:379-407 | and it stays so, whatever anybody does, until the block is taken back or unmapped |
| Contents.EventKeepsByte | src/tlh/tlh.c:66-342 | no event changes a byte of a block or payload that stays with its client, except that client's own write |
| Contents.RunKeepsBytes | src/tlh/tlh.c:66-342 | over any run an undisturbed block or payload keeps address, size and every byte |
| Contents.OthersKeep | src/hooks/lzmalloc.c:261-297 | an allocation and its client's memset or memcpy leave every byte that others hold |
| Contents.ReallocDecides | src/hooks/lzmalloc.c:285-289 | for a block that is out and a size from one byte, realloc keeps it exactly when the new size fits its true size and moves it otherwise; the other inputs are in Calls |
| Contents.ReallocKeepsPrefix | src/hooks/lzmalloc.c:278-297 | on the moving path, with any interleaved run before and after, the new block has room for n bytes and begins with the old bytes |
| Contents.CopyBlock | src/hooks/lzmalloc.c:293 | old and new block do not overlap, so memcpy copies |
| Contents.DirectIsZero | src/hooks/lzmalloc.c:198-228 | the payload of a direct allocation is zero although nobody clears it |
| Contents.CallocAsks | src/hooks/lzmalloc.c:261-267 | calloc refuses exactly the products above SIZE_MAX and asks for the true product otherwise |
| Contents.CallocIsZero | src/hooks/lzmalloc.c:261-276 | on all three routes the bytes asked for are zero, above 1 MB without a memset and below with it |
| Calls.MallocOutcome | src/hooks/lzmalloc.c:187-229 | malloc answers a new, live, resolvable place of at least the size asked for and little more, or NULL; for a slab or span NULL means a full class or no run and no chunk from the VMM |
| Calls.MallocKeepsLive | src/hooks/lzmalloc.c:187-229 | a malloc leaves every byte of what clients hold |
| Calls.MallocPossible | src/hooks/lzmalloc.c:187-197 | in every run an idle thread can complete a malloc of up to 1 MB on its own, and it succeeds if the cache gave a chunk |
| Calls.DirectPossible | src/hooks/lzmalloc.c:198-228 | a larger one succeeds whenever the system has memory for it |
| Calls.FreeOutcome | src/hooks/lzmalloc.c:231-259 | a free through index and header ends exactly the place at that address |
| Calls.FreeKeepsOthers | src/hooks/lzmalloc.c:231-259 | and leaves every byte of what others hold |
| Calls.FreePossible | src/hooks/lzmalloc.c:231-259 | in every run any idle thread can make the call |
| Calls.CallocOutcome | src/hooks/lzmalloc.c:261-276 | calloc returns NULL at once exactly on overflow, NULL when malloc does, and otherwise a new place with all bytes zero |
| Calls.ReallocNull | src/hooks/lzmalloc.c:279 | realloc(NULL, n) is malloc(n) |
| Calls.ReallocZero | src/hooks/lzmalloc.c:280-283 | realloc(p, 0) ends p and returns NULL |
| Calls.ReallocInPlace | src/hooks/lzmalloc.c:285-288 | a size that fits returns p with nothing changed |
| Calls.ReallocForeign | src/hooks/lzmalloc.c:285-286 | an address without header is refused |
| Calls.ReallocGrows | src/hooks/lzmalloc.c:290-297 | a larger size gives a new place with the old bytes and ends the old one, or NULL with the old one as it was |
| Calls.ReallocKeepsOthers | src/hooks/lzmalloc.c:278-297 | whatever a realloc does, others keep every byte |
| Contents.ClearBlock | src/hooks/lzmalloc.c:271-273 | what that memset writes |

## Left out

- C11 weak-memory effects: the model is sequentially consistent, so the relaxed loads and stores of the source are as strong as the others.
- Bodies of mmap, munmap, madvise, getcpu, pthread and sysconf: a mapping is fresh, zeroed, disjoint memory or a failure.
- Telemetry counters and the statistics slots.
- `lzmalloc_gc` walking the zombie list while heaps are adopted: it walks after it released the lock, so a heap need not have one user there. Its purge of the chunk cache is in the model.
- The comment in src/engines/vmm.h:28 that a chunk allocation returns NULL only when the system fails: other threads can empty a new extent before the provisioner locks again, and the model follows the code.
- Client misuse: double frees, foreign or stale pointers, except the no-op cases of the local span free.
- Seed generation, node detection, logging, the Apple profile, checksums and canaries of chunk headers, symbol hooks, posix_memalign, aligned_alloc, valloc and pvalloc, tests, benchmarks and build files.
- lz_tlh_reap at class level: the reap loop is part of the step system; its body on a slab block is SlabBins.SlabBin.Free, and on a span block SpanEngine.SpanList.Free.
- SlabBins.SlabBin.AllocCold: retires the current slab before it formats the new one, where the source formats first; the two write different memory, and the answer of the VMM is known before either.
- SpanEngine.SpanList.Search: scans without marking; the pages are marked after the search has stopped, where the source marks at the end of the scan.
- SpanEngine.SpanHeader.constructor: link fields live in a node object beside the header, shared with the slab lists through module Links.
- BaseHeap.BlocksApart: offsets are unbounded, so requests near SIZE_MAX, whose sum would wrap in 64 bits, are outside the model; alignments are powers of two.
- Routing.MallocUsable: sizes so near SIZE_MAX that the direct path's additions wrap are excluded; Routing.DirectFits says which those are.
- Contents.CallocIsZero: like Clients.MallocServes, excludes sizes whose direct mapping would wrap in 64 bits.
- Calls.CallocOutcome: like Calls.MallocOutcome and the lemmas on realloc, excludes sizes whose direct mapping would wrap in 64 bits; memcpy and memset are one step of their client.
- Calls.MallocOutcome: a refused slab or span request is tied to full heaps and a missing chunk; that the missing chunk follows the system's answer is VmmCalls.NullOnlyAfterAsking, in the cache model.
- Clients.MemalignServes: alignments above 2 MB, which Routing.MemalignExactly shows not to be met.
- MachineRuns.EventInv: a chunk enters and leaves the index in the step that formats or releases it; inside a call the source has a moment between the two. What a heap or the cache writes into headers is any bytes in the regions the step may touch; their meaning is in the step systems and the in-place modules. The checksum of a direct header is stored as 0.
- Router.Index.AllocDirect: leaf allocation in the index succeeds and addresses have at most 48 bits.
- Radix.Linearizable: an update whose leaf the system refuses to map is dropped, as in the source, and is then no event of the run.
