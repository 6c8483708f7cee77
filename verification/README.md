# hmalloc: a verified model

hmalloc is a thread-caching allocator. Memory comes in 4 MiB segments of 64 KiB pages; a page serves one block size and
belongs to one thread's heap, to nobody (pooled in the central heap), or to nobody any more (abandoned by an exited thread).
The owner allocates and frees without synchronising; every other thread frees by pushing onto the page's atomic `thread_free`
stack, and `used` keeps counting such a block until the owner, or a sweep under the central lock, collects the stack. Requests
above 16 KiB get a region of their own. The project models all of this at two levels and proves both.

**The interleaved machine** (`Machine`, `Invariant`, `PageSteps`, `OnePage`, `BlockActions`, `RegionActions`, `MapActions`,
`Safety`, then `Theorems`, `Writes`, `Protocol`, `Progress`, `RoundTrips`, `Api`, `Reallocation`). A transition system for any number of threads. A remote free is a load,
a store of `next` and a weak compare-and-swap that may fail spuriously; a collection is an exchange, a walk of one link at a
time, and a splice; thread exit, abandonment, the sweep, mapping and unmapping, large regions and the client's own byte stores
are actions too. Memory is a map from byte addresses, so free lists really live in the blocks. One inductive invariant (`Rep`) is
kept by every action, hence by every run (`Safety.ReachableRep`), and the theorems are consequences about all reachable states
and all runs. Beside safety there is progress: a remote free, a collection, an allocation and a thread's exit get through from
every reachable state when the thread runs alone.

**The data structures** (`Memory`, `Lists`, `PageHeaders`, `Books`, `BookSteps`, `BookMoves`, `CentralSpec`, `Central`,
`Refinement`, `HeapSpec`, `Heaps`, `Lifecycle`, `TableSize`, `ProbeTable`, `HomeSlots`, `Registry`, `SizeClasses`, `Os`,
`PeakCounter`). Classes and loops in the form of the source: page headers and their lists, the central heap with its pools, its available list and its pointer-to-pointer sweep, the thread heap's class
lists, the open-addressing registry, the class table, the over-map-and-trim mapping. Unmapping a segment removes the header
fields of the segment and of its pages from the maps, so every access a method makes is proved to be to mapped memory.
The levels are connected. By `PageHeaders.OwnerView`, in every reachable state of the machine the owner sees a page exactly
as the classes assume it; by `Refinement`, what the central heap decides from its counters, and what it then registers and accounts,
is what the machine does by looking at every page; by `Lifecycle`, a heap created in a reachable state owns nothing, a destroyed
one may go, and when all are gone and every block is back one sweep of the central heap returns the memory.

The arithmetic (`Bits`, `Layout`, `Blocks`, `LargeRegion`) is on 64-bit words with wrap-around written out.

## Assumptions

- Steps interleave as if memory were sequentially consistent.
- `mmap` refuses or returns a zero-filled range disjoint from everything mapped; `munmap` succeeds.
- Clients free only live pointers, each once, and write only inside their live blocks.
- The calling thread's heap exists when it allocates (`src/heap.h:68-72` reads it unchecked).
- In the machine the registry is the set it refines (`Registry`), and its table growth succeeds. When growth is refused,
  `Registry.RegionRegistry.Register` says exactly when the load bound and when the last empty slot survive, and
  `ProbeTable.ProbeEndsIff` says exactly when a probe then still ends.
- A mapping is accounted (`account_map`) before the range can be unmapped (`account_unmap`), so the byte counter that
  `PeakCounter` subtracts from is never smaller than what is subtracted.
- A class method sees `thread_free` lists as of its own exchange: each page is exchanged at most once per operation, and pushes
  that arrive before or after it are the machine's business.

Where comments and code differ the code is modelled: `src/central.h:28` says an abandoned page's owner is cleared, the code
stamps a tag (`src/central.cpp:228-231`); `src/central.cpp:123` says the locked collection returns a count, it returns nothing;
`src/region_registry.cpp:91-95` promises a load factor, which is lost when a table is refused (below).

## Model

| member | source | states |
|---|---|---|
| Bits.HighMask | src/segment.h:112-115 | clearing the low k bits of a word leaves the largest multiple of 2^k below it |
| Bits.LowMask | src/segment.h:127-130 | masking with 2^k - 1 is the remainder modulo 2^k |
| Bits.PowerTest | src/os.cpp:61 | the x & (x - 1) test accepts exactly the powers of two |
| Bits.RoundUpMeaning | src/hmalloc.cpp:32-34 | round_up is the least multiple at or above n when the sum does not wrap, and 0 exactly when it does |
| Layout.RecoveryMeaning | src/segment.h:112-134 | masking and shifting any 64-bit pointer gives the enclosing 4 MiB boundary and the enclosing page |
| Blocks.BlockPlace | src/heap.cpp:78-84 | every block carved from a page lies inside that page's area, is 16-byte aligned and is recovered as belonging to it |
| Blocks.BatchMeaning | src/heap.cpp:73-77 | one extension carves as many whole blocks as fit in 8 KiB, but at least one and no more than are left; there is only one such number (Blocks.EightKiBUnique) |
| Blocks.CarveMeaning | src/heap.cpp:78-88 | carving links the new blocks in address order in front of the old list and writes nothing outside the given range |
| LargeRegion.OffsetMeaning | src/hmalloc.cpp:40-41 | the user offset is past the header, a multiple of the alignment and of 16, within the first half segment, and the least such multiple |
| LargeRegion.PlanMeaning | src/hmalloc.cpp:39-47 | the two overflow branches refuse exactly the requests with offset + size + page - 1 beyond 64 bits; otherwise the mapping is the least page multiple holding offset plus size |
| Safety.InitRep | src/central.cpp:39-49 | the invariant holds initially |
| BlockActions.KeepPop | src/heap.cpp:104-109 | owner pop keeps the invariant; the block popped was not live and its page is mapped |
| BlockActions.KeepExtend | src/heap.cpp:70-89 | carving fresh blocks keeps the invariant, writes no block anyone holds, and carves 8 KiB worth of them: at least one, no more than are left |
| BlockActions.KeepSwap | src/heap.cpp:54-57 | swapping out thread_free, by the owner or by the sweep, keeps the invariant |
| BlockActions.KeepWalk | src/heap.cpp:58-61 | one step of the tail walk keeps the invariant, reads mapped memory and stays within the swapped-out list |
| BlockActions.KeepSplice | src/heap.cpp:62-64 | the walk has counted exactly the swapped-out blocks, `used` is at least that many, and the splice keeps the invariant |
| BlockActions.KeepFreeLocal | src/heap.h:89-93 | a local free keeps the invariant and decrements a positive `used` |
| BlockActions.KeepFreeRemote | src/heap.h:94-96 | taking the remote branch keeps the invariant |
| BlockActions.KeepLoad | src/heap.cpp:233 | reading a possibly stale head keeps the invariant |
| BlockActions.KeepLink | src/heap.cpp:235 | writing the link of a block mid-push keeps the invariant, whoever owns its page by then |
| BlockActions.KeepCas | src/heap.cpp:236-237 | winning, losing or spuriously failing the exchange keeps the invariant, also when the head came back; what it leaves the thread with is Protocol.ExchangeOutcome |
| RegionActions.KeepAcquire | src/central.cpp:198-219 | stamping a pooled page keeps the invariant; resetting thread_free discards nothing |
| RegionActions.KeepPoolReturn | src/central.cpp:93-120 | pooling a page with `used` zero, and unmapping its segment if that makes a second idle one, keeps the invariant |
| RegionActions.KeepAbandon | src/central.cpp:228-237 | abandoning a page keeps the invariant |
| RegionActions.KeepCreateHeap | src/heap.cpp:173-186 | creating a heap, also at an address used before, keeps the invariant, and no page is stamped with the new heap |
| RegionActions.KeepEndExit | src/heap.cpp:147-157 | unmapping an exiting heap keeps the invariant that every owned page is stamped with a live heap; no page is left stamped with the one that goes |
| MapActions.KeepMapSegment | src/central.cpp:155-184 | a new segment keeps the invariant |
| MapActions.KeepMapLarge | src/hmalloc.cpp:48-56 | mapping a large region keeps the invariant before it is registered |
| MapActions.KeepPublish | src/hmalloc.cpp:57-61 | registering and handing out the region keeps the invariant |
| MapActions.KeepFreeLarge | src/hmalloc.cpp:64-69 | unregistering a region that is being freed keeps the invariant |
| MapActions.KeepUnmapLarge | src/hmalloc.cpp:70 | unmapping it afterwards keeps the invariant |
| Safety.StepKeeps | src/heap.cpp:53-238 | every enabled action dereferences only mapped headers and blocks and keeps the invariant |
| Safety.ReachableRep | src/heap.cpp:53-238 | every reachable state, under every interleaving, satisfies the invariant |
| Protocol.NoWildAccess | src/heap.cpp:231-238 | no step from a reachable state touches unmapped memory or follows null |
| Theorems.BlockPartition | src/heap.cpp:53-109 | each carved block of a page in use is in exactly one place: live, mid-push, on thread_free, in a swapped-out list, or on the local free list |
| Theorems.UsedCounts | src/heap.cpp:53-109 | `used` is the number of carved blocks off the local list, between 0 and what was carved |
| Theorems.LiveDisjoint | src/heap.cpp:78-88 | no two live allocations, small or large, share a byte |
| Theorems.LiveRecoverable | src/segment.h:112-134 | every live pointer is 16-byte aligned, its block lies clear of the header page of every mapped segment and of the header of every mapped large region, and its page or region is recovered from its bits |
| Theorems.RecycledOnlyWhenUntouched | src/central.cpp:93-120 | a page is pooled, re-typed or unmapped only when no block of it is live, parked or in the hands of any thread |
| Writes.LiveBytesUntouched | src/heap.cpp:62-63 | no step by any thread writes inside a live block except its client's own store or free |
| Protocol.ContentsKept | src/hmalloc.cpp:106-125 | over any run that does not write or free it, a live block stays live with all its bytes |
| Protocol.MayWriteExclusive | src/central.cpp:31-37 | at most one thread may write a page's private fields: its live owner, or the lock holder if abandoned or pooled |
| Protocol.OnlyOneWriter | src/heap.h:86-97 | every change to a page's private fields is made by that thread |
| Protocol.StampCycle | src/central.cpp:188-237 | a page's owner stamp changes only under the lock: from none to the heap of the thread that takes the page, from its exiting owner's to the abandoned tag only while blocks are out, and from either to none only when none is counted |
| Protocol.LocalBranchIffOwner | src/heap.h:89-96 | heap_free takes the local branch exactly for the live owner, never for a thread without a heap or an abandoned page |
| Protocol.ThreadFreeIsABag | src/heap.cpp:231-238 | a winning exchange adds exactly its block, a swap takes all, nothing else changes the stack, which never has a repetition or cycle |
| Protocol.ExchangeOutcome | src/heap.cpp:236-237 | an exchange whose head matches and which does not fail spuriously parks the block in front of what was there; any other leaves the thread with the head as it is now and the list unchanged |
| Protocol.PushProgress | src/heap.cpp:234-237 | a failed exchange costs one retry: running alone the thread parks its block with the pending exchange, or with that, one more link and one more exchange |
| Protocol.PushFinishes | src/heap.cpp:231-238 | from every point inside a remote free the thread on its own parks its block within four steps, three from the start |
| Protocol.WalkOnList | src/heap.cpp:56-61 | a collector's tail is on its list at the counted position and stops exactly at the end |
| Protocol.WalkUndisturbed | src/heap.cpp:56-61 | no step of another thread, and no client store, changes a swapped-out list or its walker |
| Protocol.WalkLength | src/heap.cpp:54-61 | between swapping out k blocks and splicing them a collector follows exactly k - 1 links, whatever is interleaved |
| Progress.CollectAlone | src/heap.cpp:53-65 | from any reachable state a thread with authority over a page collects it on its own: everything parked is free afterwards, in order and in front, off `used`, and nothing else changed |
| Progress.ReclaimAlone | src/central.cpp:140-150 | the sweep gets an abandoned page back: if all blocks that are out have been parked, the lock holder on its own collects the page and returns it to its pool |
| Progress.RetireAlone | src/heap.cpp:136-144 | an exiting thread gets rid of a page on its own: it is given back exactly if all blocks that were out had been parked, otherwise it is abandoned with the rest counted |
| Progress.ExitAlone | src/heap.cpp:132-157 | thread exit gets through: with the lock free a thread on its own reaches a state without its heap, in which no page carries its stamp, every other heap is there and no client has lost a pointer |
| RoundTrips.AllocAlone | src/heap.cpp:188-216 | the slow path delivers: with a pooled page or a new segment to be had, a thread on its own gets a block of exactly the class size, live for nobody before, and every other pointer stays |
| RoundTrips.PopThenFree | src/heap.h:66-93 | malloc followed by the owner's free restores every header, every pointer and the free list in order |
| RoundTrips.RemoteAlone | src/heap.cpp:231-238 | an undisturbed remote free is four steps: the pointer leaves the client, only the page's thread_free head and the block's own link change |
| RoundTrips.HandBack | src/heap.cpp:53-65 | a block freed by another thread comes back: after the push and one collection it is the owner's first free block, before what was parked and what was free, and no longer counted |
| RoundTrips.LargeThenFree | src/hmalloc.cpp:39-71 | a large allocation followed by its free is four steps that restore pages, regions, registry, byte account and pointers |
| Protocol.RegistryExact | src/central.cpp:110-117 | registered bases are exactly mapped segments and published large regions, so every live pointer's base is registered |
| Protocol.BytesConserved | src/os.cpp:38-53 | mapped bytes are segments, large regions, heaps and the registry table, in every reachable state; the table is the least whole number of OS pages holding its slots |
| RegionActions.KeepRegrow | src/region_registry.cpp:72-83 | replacing the registry table keeps the account exact, doubling or not |
| TableSize.SlotsBytesMeaning | src/region_registry.cpp:44-50 | for every reachable capacity a table takes the least page multiple holding its slots, without wrap-around |
| TableSize.NextCapMeaning | src/region_registry.cpp:92-96 | the table doubles exactly when half of its slots hold keys and otherwise keeps its size; afterwards it is at most half full, exactly half only if every slot held a key |
| TableSize.NextCapBounded | src/region_registry.cpp:92-96 | no set of segment-aligned 64-bit bases makes the next capacity exceed 2^44 slots, because it doubles only while half of the slots hold bases |
| Protocol.TableFollowsRegistry | src/region_registry.cpp:91-96 | over every run the table has at most 1024 slots, or four per base of the most ever registered at once: churn alone does not make it grow |
| Protocol.AtMostOneIdle | src/central.cpp:108-119 | at most one segment is entirely free |
| Protocol.QuietPageDrains | src/central.cpp:138-153 | when nothing of a page is live and nobody is inside an operation on it, one collection brings `used` to zero |
| PageHeaders.OwnerView | src/heap.cpp:53-109 | the machine's invariant gives a page's owner the view the classes below start from |
| PageHeaders.Headers.Gather | src/heap.cpp:53-65 | the loop finds the tail and counts the swapped-out list; the splice leaves one list, parked blocks first |
| PageHeaders.Headers.Collect | src/central.cpp:124-136 | collecting puts the parked blocks, in order, in front of the local list, takes their number off `used`, and changes nobody's held blocks or other pages |
| PageHeaders.CarveLoop | src/heap.cpp:80-86 | the downward loop builds the list Carve describes |
| PageHeaders.Headers.Extend | src/heap.cpp:70-89 | extending adds the next 8 KiB worth of blocks (at least one, no more than are left) in front of the free list, in address order, and leaves held blocks held |
| PageHeaders.Headers.MakeAvailable | src/heap.cpp:93-102 | false exactly for a page with no free, no parked and no uncarved block, and then nothing changed |
| PageHeaders.Headers.Pop | src/heap.cpp:104-109 | the popped block was held by no client and is now the only additional one |
| PageHeaders.Headers.PushLocal | src/heap.h:89-93 | the freed block alone leaves the held ones and is first on the free list |
| PageHeaders.NothingHeld | src/heap.h:93 | a page whose `used` is zero has no block in a client's hands |
| Lists.PushOk | src/central.cpp:60-66 | pushing keeps a doubly-linked list well formed |
| Lists.CutOk | src/central.cpp:68-76 | unlinking any node keeps it well formed |
| Lists.SkipOk | src/central.cpp:78-89 | singly-linked removal keeps the list |
| Books.PagesConserved | src/central.cpp:39-49 | free pages + pages in use + abandoned pages = 63 x segments |
| Books.IdleIsPooled | src/central.cpp:108-118 | a pool of 63 pages is the whole segment, so unmapping takes nothing in use |
| Books.NothingInUse | src/central.cpp:93-120 | with no owned and no abandoned page, every mapped segment is idle |
| BookSteps.PutOk | src/central.cpp:93-109 | returning a page keeps lists, counters and the available-iff-pool-not-empty rule |
| BookSteps.UnmapOk | src/central.cpp:110-117 | so does unmapping an idle segment, including the abandoned list's links |
| BookSteps.StatusKeeps | src/heap.cpp:111-121 | owners relinking and refilling their own pages do not disturb the central books |
| BookMoves.TakeOk | src/central.cpp:198-205 | taking the first page of the first available segment keeps everything but that page in order |
| BookMoves.StampOk | src/central.cpp:205-217 | stamping it completes the move |
| BookMoves.ForsakeOk | src/central.cpp:228-237 | abandoning keeps the books |
| BookMoves.UnabandonOk | src/central.cpp:146-147 | unlinking an abandoned page through its predecessor's link keeps the books |
| BookMoves.JoinOk | src/central.cpp:155-184 | adding a segment with all pages chained keeps the books |
| Central.CentralHeap.constructor | src/central.cpp:39-58 | the empty central heap is valid |
| Central.CentralHeap.AvailPush | src/central.cpp:60-66 | walking the available list afterwards meets the segment first and then every segment listed before, in order, and the prev fields lead back |
| Central.CentralHeap.AvailRemove | src/central.cpp:68-76 | the segment is cut out of the available list, wherever it is |
| Central.CentralHeap.AllRemove | src/central.cpp:78-89 | the search finds the predecessor and drops the segment from the list of all segments |
| Central.CentralHeap.PoolReturn | src/central.cpp:93-120 | the page joins its pool; its segment, if it had no free page, joins the front of the available list, and is unmapped, unregistered and taken off the byte count exactly if it became the second idle one; no page in use changes; a page is available afterwards |
| Central.CentralHeap.CollectLocked | src/central.cpp:124-136 | only the swept page changes and it keeps every held block |
| Central.CentralHeap.SweepAbandoned | src/central.cpp:140-153 | the abandoned list becomes, in order, the pages whose blocks are not all back; those are collected, owned pages are untouched, and any reclaimed page leaves one available, although segments may be unmapped on the way |
| Central.CentralHeap.LinkPages | src/central.cpp:166-174 | the initialisation loop chains exactly the 63 usable pages |
| Central.CentralHeap.MapSegment | src/central.cpp:155-184 | refused by the kernel nothing changes; otherwise one more idle segment, registered and accounted, all books kept |
| Central.CentralHeap.Acquire | src/central.cpp:188-219 | null exactly if nothing was pooled, no abandoned page had drained and the kernel refused; a segment is mapped only in the first two cases; the page handed out was unused or a drained abandoned one; with a page pooled it is the first page of the first available segment |
| Central.CentralHeap.Release | src/central.cpp:221-226 | the page leaves its owner for its pool, nothing else in use changes |
| Central.CentralHeap.Abandon | src/central.cpp:228-237 | the page keeps its blocks and joins the front of the abandoned list; pools and segment lists stay |
| CentralSpec.TakenSpare | src/central.cpp:193-201 | whatever the sweep did, a page it makes available had no block out |
| CentralSpec.FilterAll | src/central.cpp:140-153 | the sweep removes something exactly if some abandoned page had drained |
| CentralSpec.FullReclamation | src/central.cpp:93-153 | with no heap left and every abandoned block back, the sweep leaves at most the one cached segment, all pages free |
| Lifecycle.QuietMachine | src/central.cpp:138-153 | in a reachable state with no live pointer, no heap and no thread inside an operation every page in use is abandoned and `used` is the length of its thread_free list |
| Lifecycle.SweepQuiet | src/central.cpp:138-153 | from such a state one sweep empties the abandoned list and leaves at most one segment mapped, registered and accounted, all its pages free |
| Lifecycle.NewHeapOwnsNothing | src/heap.cpp:173-186 | wherever a new heap is put, in every reachable state no page is stamped with it |
| Lifecycle.CreateHeap | src/heap.cpp:173-177 | so the heap created in a reachable state is in order |
| Lifecycle.DestroyedMayGo | src/heap.cpp:147-157 | what Destroy ensures is what the machine requires before the heap itself is unmapped |
| Refinement.IdleIffFree | src/central.cpp:108 | a pool of 63 pages means exactly that no page of the segment is in use |
| Refinement.PoolReturnRefines | src/central.cpp:93-120 | the constant-time return on counters and lists is the machine's: same page headers, same segments unmapped, same registered bases and same bytes mapped |
| Refinement.MapSegmentRefines | src/central.cpp:155-184 | mapping a segment on the books is the machine's: same page headers, segments, registered bases and bytes mapped |
| Refinement.MapGuard | src/central.cpp:193-196 | the available list is empty exactly when every page of every mapped segment is in use, the machine's guard for mapping |
| HeapSpec.OneIdlePage | src/heap.cpp:218-229 | a heap keeps at most one page without blocks out per class, the active one |
| HeapSpec.StepRotate | src/heap.cpp:112-121 | rotation keeps every class list of the heap in order |
| HeapSpec.StepGain | src/heap.cpp:207-212 | so does putting a fresh page in front |
| HeapSpec.StepLose | src/heap.cpp:226-228 | so does unlinking and giving back a page |
| Heaps.ThreadHeap.constructor | src/heap.cpp:173-177 | a fresh heap has an empty slot per class and is in order, provided no page is stamped with its address (Lifecycle.NewHeapOwnsNothing) |
| Heaps.ThreadHeap.RotateToFront | src/heap.cpp:112-121 | the page comes first, the others keep their order, no block moves; a page already first stays untouched |
| Heaps.ThreadHeap.TryPage | src/heap.cpp:198-203 | a page of the list serves unless it is exhausted; then it is made available, comes to the front and hands out its first free block; an exhausted page leaves everything as it was |
| Heaps.ThreadHeap.MallocSlow | src/heap.cpp:188-216 | the first page that can serve does and comes to the front; a fresh page, stamped with this heap, only if none can; null exactly if that needs a segment the kernel refuses; the block and the served page's new lists and counters are determined; one block more is held, not held before; no page of another heap changes |
| Heaps.ThreadHeap.Malloc | src/heap.h:66-83 | the inline path meets the specification of the slow path, for the smallest class that fits |
| HeapSpec.AllocationDetermined | src/heap.h:66-83 | once some page can serve, any two ways of meeting the specification, such as inline and slow path, hand out the same block and leave the same lists and pages; if it is the active page, the same heap, central books and pages throughout |
| Heaps.ThreadHeap.OnPageEmpty | src/heap.cpp:218-229 | the active page stays; any other has a predecessor, is unlinked and released |
| Heaps.ThreadHeap.Free | src/heap.h:86-93 | the block alone becomes free; a page given back held no other block; all other pages keep theirs, and no page of another heap changes |
| Heaps.ThreadHeap.WorkOff | src/heap.cpp:136-144 | the saved next page is still mapped after its predecessor was released or abandoned |
| Heaps.ThreadHeap.Destroy | src/heap.cpp:132-146 | every page of the heap goes to the pool if drained and to the abandoned list with all its blocks if not; no page of another heap changes; no owned page is stamped with the heap any more |
| HeapSpec.OtherStaysOrderly | src/heap.cpp:112-146 | a heap whose pages another heap leaves alone stays in order |
| Heaps.ThreadHeap.MallocBeside | src/heap.h:66-83 | an allocation from one heap leaves any other heap on the same central heap in order |
| Heaps.ThreadHeap.FreeBeside | src/heap.h:86-93 | so does a local free |
| Heaps.ThreadHeap.DestroyBeside | src/heap.cpp:132-146 | so does destroying it |
| HomeSlots.HomesSpread | src/region_registry.cpp:57-63 | two bases share a home slot exactly if their segment numbers agree modulo the capacity, because the multiplier is odd |
| ProbeTable.InsertKeeps | src/region_registry.cpp:66-70 | writing a key at the first free place of its path keeps every key findable and counted once |
| ProbeTable.RemoveKeeps | src/region_registry.cpp:122-126 | a tombstone keeps the other keys findable |
| ProbeTable.FullTableNeverStops | src/region_registry.cpp:138-141 | without an empty slot a probe for an absent key never ends |
| ProbeTable.ProbeEndsIff | src/region_registry.cpp:138-141 | a probe ends exactly if its key is in the table or a slot is empty |
| Registry.RegionRegistry.RawInsert | src/region_registry.cpp:66-70 | the rehash insertion terminates and adds the key |
| Registry.RegionRegistry.Rehash | src/region_registry.cpp:77-78 | exactly the keys are carried over, tombstones are not |
| Registry.RegionRegistry.GrowLocked | src/region_registry.cpp:72-83 | growth and same-size rehash keep the set; a refusal changes nothing; either way the account holds exactly the page-rounded bytes of the table in use |
| Registry.RegionRegistry.FindSlot | src/region_registry.cpp:101-107 | the probe finds the key, or the first tombstone of its path, or the empty slot ending it; no tombstone precedes the slot returned |
| Registry.RegionRegistry.Register | src/region_registry.cpp:87-115 | from any table on which the probe ends the set gains the base; a table that is not crowded stays; a granted replacement has no tombstones, keeps the capacity exactly while under half of the slots hold keys and otherwise doubles it, to at most four slots per key; the load bound survives exactly unless a needed table is refused and the bound was lost before or the base takes an empty slot; an empty slot is left exactly unless the base takes the last one and growth is refused; capacity is at most 1024 or four times the most keys ever held |
| Registry.RegionRegistry.Unregister | src/region_registry.cpp:117-130 | from any table on which the probe ends the set loses the base, whether or not it was there |
| Registry.RegionRegistry.Owns | src/region_registry.cpp:132-143 | from any table on which it ends the probe answers set membership |
| Registry.LoadBoundCanBeLost | src/region_registry.cpp:76-95 | a concrete table within the bound whose next registration breaks it when growth is refused |
| Registry.LastSlotCanBeLost | src/region_registry.cpp:76-95 | a concrete table with one empty slot whose next registration takes it when growth is refused; no probe for an absent base ends afterwards |
| Registry.RegisterUntilFull | src/region_registry.cpp:87-115 | 1024 registrations with growth refused reach such a full table |
| SizeClasses.BuildSizeClasses | src/size_class.h:47-73 | for every power-of-two limit from 64 the table is 16, 32, 48, 64 and then the sizes 2^k + i 2^(k-2), i = 1..4, of every octave up to the limit, with a smallest-fit lookup |
| SizeClasses.TableUnique | src/size_class.h:47-73 | there is only one such table |
| SizeClasses.SmallestFit | src/size_class.h:92-96 | the lookup is the smallest class that fits |
| SizeClasses.FitUnique | src/size_class.h:92-96 | there is only one such class |
| SizeClasses.ClassSizesAreFixed | src/size_class.h:99-101 | rounding a class size gives it back |
| SizeClasses.WasteBound | src/size_class.h:11-13 | waste is under a quarter of the request above 64 bytes and under 16 bytes up to 64 |
| SizeClasses.ClassesMonotone | src/size_class.h:92-96 | larger requests never get smaller classes |
| Os.OsLayer.AllocAligned | src/os.cpp:67-103 | null exactly for malformed, overflowing or refused requests, and then the account and the peak stay; otherwise exactly `size` new bytes at an aligned address stay mapped and accounted, and the peak is raised to the bytes mapped before the trim |
| Os.OsLayer.OverMap | src/os.cpp:81-102 | the over-mapping contains an aligned range of the size, both slops are unmapped, and the peak counts size plus alignment |
| Os.OsLayer.Free | src/os.cpp:105-109 | exactly the range leaves the mapping and the account |
| PeakCounter.PeakIsHighWater | src/os.cpp:38-53 | under every interleaving mapped bytes are what was added less what was taken, they stay below the peak or a pending value, and with none pending the peak is the most that was ever mapped |
| PeakCounter.PeakMonotone | src/os.cpp:42-46 | the peak never decreases along a run |
| PeakCounter.PeakSettles | src/os.cpp:40-46 | from anywhere in the exchange loop a thread leaves it on its own in at most two steps, with the peak at least its value |
| Api.MallocServes | src/hmalloc.cpp:77-81 | a request gets a size class exactly if it is between 1 and 16384 bytes, and then the smallest that fits; a larger one gets the least region; only zero or overflowing ones are refused before allocation |
| Api.CallocIsMallocOfProduct | src/hmalloc.cpp:91-104 | the division test refuses exactly the products that do not fit; otherwise calloc is malloc of the product |
| Api.AlignedAlloc | src/hmalloc.cpp:127-146 | room and alignment are always met by the smallest class, or least region, that meets both; alignments up to 16 are malloc; refused exactly for zero size, non-powers of two, alignments above half a segment, or overflow |
| Api.SearchClass | src/hmalloc.cpp:137-138 | the class search never runs off the table, and no smaller class is both large enough and a multiple of the alignment |
| Api.LiveBlockAligned | src/hmalloc.cpp:132-134 | a live block is aligned to every power of two dividing its block size |
| Api.RegionAligned | src/hmalloc.cpp:141-145 | the user pointer of a large region has the alignment asked for |
| Api.UsableSizeIsTrue | src/hmalloc.cpp:148-156 | for every live pointer the recovered usable size is that of the memory behind it |
| Api.UsableRangesApart | src/hmalloc.cpp:148-156 | using all of it never reaches another allocation |
| Api.FilledAfter | src/hmalloc.cpp:122 | a copy or fill loop interleaved with anything leaves exactly the wanted bytes |
| Api.CopyFills | src/hmalloc.cpp:122 | a copy that reads its source as it goes writes the bytes the source had when it began |
| Api.ReallocPreserves | src/hmalloc.cpp:106-125 | a moving realloc, whose copy reads the old block byte by byte and which then frees it, under every interleaving returns a live block that starts with min(old usable, new size) bytes of the old contents |
| Api.ReallocKeeps | src/hmalloc.cpp:106-121 | a failing or in-place realloc changes no byte, and in place there is room |
| Reallocation.ReallocNull | src/hmalloc.cpp:107 | the runs of realloc of null are exactly those of malloc of the size, with nothing copied or freed; null for size zero |
| Reallocation.FreeOutcome | src/hmalloc.cpp:83-89 | free takes its pointer and hands out none, whatever is interleaved |
| Reallocation.ReallocZero | src/hmalloc.cpp:108-111 | the runs of realloc to zero are exactly those of free, returning null; the pointer is taken and none handed out |
| Reallocation.ReallocOutcome | src/hmalloc.cpp:113-124 | realloc of a live pointer returns it, with nothing changed, exactly if the block is large enough and is small or more than half of it is asked for; null only with the old block live and unchanged; otherwise a live block with room for the size that starts with the old contents up to the shorter size |
| Api.LargeIsZero | src/hmalloc.cpp:102-103 | a large region reaches the client zero-filled |
| Api.SmallIsZeroed | src/hmalloc.cpp:96-101 | after the clearing loop every requested byte is zero |

## Left out

- Weak memory orders (acquire, release, relaxed): the steps are sequentially consistent.
- `src/override.cpp` (symbol interposition): foreign calls and thin wrappers; nothing is claimed about pointers hmalloc did not return.
- The kernel side of mmap, munmap and sysconf, and `os_purge`, which nothing in the core calls.
- `map_calls` and `unmap_calls`, the large-allocation counters and the HMALLOC_STATS counters: bookkeeping without a hard property.
- Failure of heap creation, thread_local destruction order, the list of all heaps and the storage of the central state: runtime plumbing.
- Cache-line layout; the segment header is taken to fit in page 0.
- Central.CentralHeap.SweepAbandoned: remote pushes between the start of the sweep and a page's own exchange are in the machine, not in the class.
- Heaps.ThreadHeap.Destroy: the heap's own removal from the list of heaps and its unmapping are in the machine (RegionActions.KeepEndExit), not in the class.
- Api.ReallocPreserves: the new block is any live block of at least the requested size; that the allocation provides one is Api.MallocServes and Heaps.ThreadHeap.Malloc.
- HeapSpec.AllocationDetermined: when no page of the class can serve, which pooled page is acquired is not determined by the heap's specification but by Central.CentralHeap.Acquire, and only if one is pooled before the sweep; null or not, and everything about the pages already owned, is.
- Registry.RegionRegistry.Register: not called on a full table with growth refused for a base that is not in it, because the probe does not end then (ProbeTable.ProbeEndsIff); Unregister and Owns likewise.
