/**
 The allocator as an interleaved transition system for any number of threads.
 Every action is one indivisible access to shared state (an atomic operation on a
 page's thread_free or owner, or an operation inside the central lock) together
 with accesses to memory only the acting thread uses. All choices left to the
 scheduler, the kernel and the client are parameters of the action.
 */
module Machine {
  import opened Layout
  import opened Memory
  import opened Blocks
  import opened TableSize
  import LargeRegion

  type Tid = nat

  datatype Option<+T> = None | Some(value: T)

  /** Address of the tag stamped on abandoned pages: neither null nor a heap. */
  const ABANDONED := 1

  datatype Page = Page(
    free: nat, used: int, capacity: nat, reserved: nat, blockSize: nat, cls: nat,
    inUse: bool, owner: nat, threadFree: nat)

  const FRESH_PAGE := Page(0, 0, 0, 0, 0, 0, false, 0, 0)

  datatype LargeState = Pending(mapper: Tid) | Published | Dying(freer: Tid)

  datatype Large = Large(size: nat, offset: nat, state: LargeState)

  /** Where a thread stands inside an operation that takes several shared steps. */
  datatype Pc =
    | Idle
    | Freeing(pid: nat, b: nat)                 // remote branch of heap_free taken
    | Loaded(pid: nat, b: nat, head: nat)       // thread_free read
    | Linked(pid: nat, b: nat, head: nat)       // b->next written, CAS pending
    | Walking(pid: nat, list: nat, tail: nat, n: nat, sweep: bool) // thread_free swapped out
    | Mapping(base: nat)                        // large region mapped, not yet registered
    | Unmapping(base: nat)                      // large region unregistered, not yet unmapped

  /** What the client holds: the page or region that really backs the pointer, and its usable size. */
  datatype Alloc = Small(pid: nat, usable: nat) | Big(base: nat, usable: nat)

  datatype State = State(
    pages: map<nat, Page>,        // header entries of the usable pages of mapped segments
    segs: set<nat>,               // mapped small segments, by base / SEGMENT_SIZE
    mem: Mem,
    live: map<nat, Alloc>,        // pointers the client holds
    large: map<nat, Large>,       // mapped large regions, by base
    registered: set<nat>,         // bases in the region registry
    heaps: map<nat, Tid>,         // live heaps and the thread each was created for
    heapOf: map<Tid, nat>,        // t_heap; absent is null
    pc: map<Tid, Pc>,             // absent is Idle
    exiting: set<Tid>,            // threads inside heap_destroy
    lock: Option<Tid>,            // holder of the central lock
    heapBytes: nat, osPage: nat, tableCap: nat, bytesMapped: int)

  function Init(heapBytes: nat, osPage: nat): State {
    State(map[], {}, map[], map[], map[], {}, map[], map[], map[], {}, None, heapBytes, osPage, 0, 0)
  }

  function PcOf(s: State, t: Tid): Pc { if t in s.pc then s.pc[t] else Idle }

  function HeapOf(s: State, t: Tid): nat { if t in s.heapOf then s.heapOf[t] else 0 }

  /** A page header; reading one that is not mapped yields nothing useful (see Safe). */
  function Pg(s: State, pid: nat): Page { if pid in s.pages then s.pages[pid] else FRESH_PAGE }

  predicate FullyFree(pages: map<nat, Page>, seg: nat) {
    forall pid :: pid in pages && SegmentOfPage(pid) == seg ==> !pages[pid].inUse
  }

  /** The thread runs ordinary code between two allocator calls. */
  predicate Ready(s: State, t: Tid) {
    PcOf(s, t) == Idle && t !in s.exiting && s.lock != Some(t)
  }

  /** The thread may touch the owner-private fields of page pid. */
  predicate Owns(s: State, t: Tid, pid: nat) {
    pid in s.pages && HeapOf(s, t) != 0 && s.pages[pid].owner == HeapOf(s, t)
  }

  // ---------------------------------------------------------------- thread heaps

  predicate CanCreateHeap(s: State, t: Tid, h: nat) {
    Ready(s, t) && HeapOf(s, t) == 0 && h > ABANDONED && h !in s.heaps
  }

  function CreateHeap(s: State, t: Tid, h: nat): State {
    s.(heaps := s.heaps[h := t], heapOf := s.heapOf[t := h], bytesMapped := s.bytesMapped + s.heapBytes)
  }

  predicate CanBeginExit(s: State, t: Tid) { Ready(s, t) && HeapOf(s, t) != 0 }

  function BeginExit(s: State, t: Tid): State { s.(exiting := s.exiting + {t}) }

  /** No page carries h as its owner. */
  predicate NobodyStamped(pages: map<nat, Page>, h: nat) { forall pid :: pid in pages ==> pages[pid].owner != h }

  /** heap_destroy has emptied every class list. */
  predicate CanEndExit(s: State, t: Tid) {
    && PcOf(s, t) == Idle && t in s.exiting && s.lock != Some(t)
    && NobodyStamped(s.pages, HeapOf(s, t))
  }

  function EndExit(s: State, t: Tid): State {
    s.(heaps := s.heaps - {HeapOf(s, t)}, heapOf := s.heapOf - {t}, exiting := s.exiting - {t},
       bytesMapped := s.bytesMapped - s.heapBytes)
  }

  // ---------------------------------------------------------------- owner's private lists

  predicate CanPop(s: State, t: Tid, pid: nat) {
    Ready(s, t) && Owns(s, t, pid) && s.pages[pid].free != 0
  }

  function Pop(s: State, t: Tid, pid: nat): State {
    var pg := Pg(s, pid);
    var b := pg.free;
    s.(pages := s.pages[pid := pg.(free := Get(s.mem, b), used := pg.used + 1)],
       live := s.live[b := Small(pid, pg.blockSize)])
  }

  predicate CanExtend(s: State, t: Tid, pid: nat) {
    Ready(s, t) && Owns(s, t, pid) && s.pages[pid].reserved < s.pages[pid].capacity
  }

  /** Page after page_extend, and the blocks it carves. */
  function Fresh(pid: nat, pg: Page): seq<nat> {
    if pg.blockSize == 0 || pg.capacity < pg.reserved then []
    else BlockSeq(Area(pid) + pg.reserved * pg.blockSize, pg.blockSize,
                  Batch(pg.blockSize, pg.capacity - pg.reserved))
  }

  function Extend(s: State, t: Tid, pid: nat): State {
    var pg := Pg(s, pid);
    var blocks := Fresh(pid, pg);
    s.(pages := s.pages[pid := pg.(free := At(blocks + [pg.free], 0), reserved := pg.reserved + |blocks|)],
       mem := Carve(s.mem, blocks, pg.free))
  }

  // ---------------------------------------------------------------- collecting thread_free

  predicate CanSwap(s: State, t: Tid, pid: nat, sweep: bool) {
    && PcOf(s, t) == Idle
    && if sweep then s.lock == Some(t) && pid in s.pages && s.pages[pid].owner == ABANDONED
       else s.lock != Some(t) && Owns(s, t, pid)
  }

  function Swap(s: State, t: Tid, pid: nat, sweep: bool): State {
    var pg := Pg(s, pid);
    var list := pg.threadFree;
    s.(pages := s.pages[pid := pg.(threadFree := 0)],
       pc := s.pc[t := if list == 0 then Idle else Walking(pid, list, list, 1, sweep)])
  }

  predicate CanWalk(s: State, t: Tid) {
    PcOf(s, t).Walking? && Get(s.mem, PcOf(s, t).tail) != 0
  }

  function Walk(s: State, t: Tid): State
    requires PcOf(s, t).Walking?
  {
    var c := PcOf(s, t);
    s.(pc := s.pc[t := c.(tail := Get(s.mem, c.tail), n := c.n + 1)])
  }

  predicate CanSplice(s: State, t: Tid) {
    PcOf(s, t).Walking? && Get(s.mem, PcOf(s, t).tail) == 0
  }

  function Splice(s: State, t: Tid): State
    requires PcOf(s, t).Walking?
  {
    var c := PcOf(s, t);
    var pg := Pg(s, c.pid);
    s.(pages := s.pages[c.pid := pg.(free := c.list, used := pg.used - c.n)],
       mem := Store(s.mem, c.tail, pg.free),
       pc := s.pc[t := Idle])
  }

  // ---------------------------------------------------------------- hm_free

  predicate CanFree(s: State, t: Tid, p: nat) { Ready(s, t) && p in s.live }

  function FreeLarge(s: State, t: Tid, base: nat, p: nat): State
    requires base in s.large
  {
    s.(registered := s.registered - {base}, live := s.live - {p},
       large := s.large[base := s.large[base].(state := Dying(t))],
       pc := s.pc[t := Unmapping(base)])
  }

  function FreeLocal(s: State, pid: nat, p: nat): State {
    var pg := Pg(s, pid);
    s.(pages := s.pages[pid := pg.(free := p, used := pg.used - 1)],
       mem := Store(s.mem, p, pg.free), live := s.live - {p})
  }

  function FreeRemote(s: State, t: Tid, pid: nat, p: nat): State {
    s.(live := s.live - {p}, pc := s.pc[t := Freeing(pid, p)])
  }

  /** The tag at the region base picks the large path; the owner test picks local or remote. */
  function Free(s: State, t: Tid, p: nat): State {
    var base := RegionBase(p);
    if base in s.large then FreeLarge(s, t, base, p)
    else if Pg(s, PageOf(p)).owner == HeapOf(s, t) then FreeLocal(s, PageOf(p), p)
    else FreeRemote(s, t, PageOf(p), p)
  }

  predicate CanLoad(s: State, t: Tid) { PcOf(s, t).Freeing? }

  function Load(s: State, t: Tid): State
    requires PcOf(s, t).Freeing?
  {
    var c := PcOf(s, t);
    s.(pc := s.pc[t := Loaded(c.pid, c.b, Pg(s, c.pid).threadFree)])
  }

  predicate CanLink(s: State, t: Tid) { PcOf(s, t).Loaded? }

  function LinkBlock(s: State, t: Tid): State
    requires PcOf(s, t).Loaded?
  {
    var c := PcOf(s, t);
    s.(mem := Store(s.mem, c.b, c.head), pc := s.pc[t := Linked(c.pid, c.b, c.head)])
  }

  predicate CanCas(s: State, t: Tid) { PcOf(s, t).Linked? }

  /** compare_exchange_weak: may fail although the head matches; a failure reloads the head. */
  function Cas(s: State, t: Tid, spurious: bool): State
    requires PcOf(s, t).Linked?
  {
    var c := PcOf(s, t);
    var pg := Pg(s, c.pid);
    if pg.threadFree == c.head && !spurious then
      s.(pages := s.pages[c.pid := pg.(threadFree := c.b)], pc := s.pc[t := Idle])
    else
      s.(pc := s.pc[t := Loaded(c.pid, c.b, pg.threadFree)])
  }

  // ---------------------------------------------------------------- central heap, under its lock

  predicate CanLock(s: State, t: Tid) { PcOf(s, t) == Idle && HeapOf(s, t) != 0 && s.lock.None? }

  function Lock(s: State, t: Tid): State { s.(lock := Some(t)) }

  predicate CanUnlock(s: State, t: Tid) { PcOf(s, t) == Idle && s.lock == Some(t) }

  function Unlock(s: State, t: Tid): State { s.(lock := None) }

  /** The pages of a newly mapped segment. */
  function SegmentPages(seg: nat): map<nat, Page> {
    map pid | seg * PAGES_PER_SEGMENT <= pid < (seg + 1) * PAGES_PER_SEGMENT && Usable(pid) :: FRESH_PAGE
  }

  predicate Disjoint(lo: nat, hi: nat, lo': nat, hi': nat) { hi <= lo' || hi' <= lo }

  /** The kernel's promise for a new mapping [lo, hi): inside the address space, away from null and from every mapped
      region. */
  predicate Unmapped(s: State, lo: nat, hi: nat) {
    && 0 < lo < hi <= WORD
    && (forall seg :: seg in s.segs ==> Disjoint(lo, hi, seg * SEGMENT_SIZE, (seg + 1) * SEGMENT_SIZE))
    && (forall b :: b in s.large ==> Disjoint(lo, hi, b, b + s.large[b].size))
  }

  predicate CanMapSegment(s: State, t: Tid, seg: nat) {
    && PcOf(s, t) == Idle && s.lock == Some(t)
    && (forall pid :: pid in s.pages ==> s.pages[pid].inUse)
    && Unmapped(s, seg * SEGMENT_SIZE, (seg + 1) * SEGMENT_SIZE)
  }

  function MapSegment(s: State, t: Tid, seg: nat): State {
    s.(pages := s.pages + SegmentPages(seg), segs := s.segs + {seg},
       mem := Clear(s.mem, seg * SEGMENT_SIZE, (seg + 1) * SEGMENT_SIZE),
       registered := s.registered + {seg * SEGMENT_SIZE},
       bytesMapped := s.bytesMapped + SEGMENT_SIZE)
  }

  predicate CanAcquire(s: State, t: Tid, pid: nat, size: nat, cls: nat) {
    && PcOf(s, t) == Idle && s.lock == Some(t) && HeapOf(s, t) != 0 && t !in s.exiting
    && pid in s.pages && !s.pages[pid].inUse && GoodSize(size)
  }

  function Acquire(s: State, t: Tid, pid: nat, size: nat, cls: nat): State
    requires size > 0
  {
    s.(pages := s.pages[pid := Page(0, 0, PAGE_SIZE / size, 0, size, cls, true, HeapOf(s, t), 0)])
  }

  /** pool_return up to the point where the segment may be unmapped. */
  function Pooled(s: State, pid: nat): State {
    s.(pages := s.pages[pid := Pg(s, pid).(inUse := false, owner := 0, free := 0, blockSize := 0)])
  }

  /** The segment leaves the address space together with its page headers. */
  function UnmapSegment(s: State, seg: nat): State {
    s.(pages := map p | p in s.pages && SegmentOfPage(p) != seg :: s.pages[p], segs := s.segs - {seg},
       registered := s.registered - {seg * SEGMENT_SIZE}, bytesMapped := s.bytesMapped - SEGMENT_SIZE)
  }

  /** The segment is entirely free and another one already is. */
  predicate Surplus(s: State, seg: nat) {
    FullyFree(s.pages, seg) && exists other :: other in s.segs && other != seg && FullyFree(s.pages, other)
  }

  /** pool_return: back to the segment's pool, unmapping the segment if it is the second idle one. */
  function PoolReturn(s: State, pid: nat): State {
    var s1, seg := Pooled(s, pid), SegmentOfPage(pid);
    if Surplus(s1, seg) then UnmapSegment(s1, seg) else s1
  }

  predicate CanRelease(s: State, t: Tid, pid: nat) {
    PcOf(s, t) == Idle && s.lock == Some(t) && Owns(s, t, pid) && s.pages[pid].used == 0
  }

  predicate CanReclaim(s: State, t: Tid, pid: nat) {
    && PcOf(s, t) == Idle && s.lock == Some(t)
    && pid in s.pages && s.pages[pid].owner == ABANDONED && s.pages[pid].used == 0
  }

  predicate CanAbandon(s: State, t: Tid, pid: nat) {
    && PcOf(s, t) == Idle && s.lock == Some(t) && t in s.exiting
    && Owns(s, t, pid) && s.pages[pid].used != 0
  }

  function Abandon(s: State, pid: nat): State {
    s.(pages := s.pages[pid := Pg(s, pid).(owner := ABANDONED)])
  }

  // ---------------------------------------------------------------- large regions

  predicate CanMapLarge(s: State, t: Tid, base: nat, size: nat, align: nat, ps: nat) {
    && Ready(s, t) && 0 < size < WORD && LargeRegion.GoodAlign(align) && LargeRegion.GoodOsPage(ps)
    && 0 < align <= WORD && 0 < ps <= WORD && ps == s.osPage
    && LargeRegion.AllocLargePlan(size, align, ps).Plan?
    && base % SEGMENT_SIZE == 0
    && Unmapped(s, base, base + LargeRegion.AllocLargePlan(size, align, ps).mmapSize)
  }

  function MapLarge(s: State, t: Tid, base: nat, mmapSize: nat, offset: nat): State {
    s.(large := s.large[base := Large(mmapSize, offset, Pending(t))],
       mem := Clear(s.mem, base, base + mmapSize),
       bytesMapped := s.bytesMapped + mmapSize,
       pc := s.pc[t := Mapping(base)])
  }

  predicate CanPublish(s: State, t: Tid) { PcOf(s, t).Mapping? }

  function Publish(s: State, t: Tid): State
    requires PcOf(s, t).Mapping? && PcOf(s, t).base in s.large
  {
    var base := PcOf(s, t).base;
    var r := s.large[base];
    s.(large := s.large[base := r.(state := Published)],
       registered := s.registered + {base},
       live := s.live[base + r.offset := Big(base, if r.offset <= r.size then r.size - r.offset else 0)],
       pc := s.pc[t := Idle])
  }

  predicate CanUnmapLarge(s: State, t: Tid) { PcOf(s, t).Unmapping? }

  function UnmapLarge(s: State, t: Tid): State
    requires PcOf(s, t).Unmapping? && PcOf(s, t).base in s.large
  {
    var base := PcOf(s, t).base;
    s.(large := s.large - {base}, bytesMapped := s.bytesMapped - s.large[base].size, pc := s.pc[t := Idle])
  }

  // ---------------------------------------------------------------- client and registry table

  predicate CanWrite(s: State, p: nat, off: nat) { p in s.live && off < s.live[p].usable }

  function Write(s: State, p: nat, off: nat, val: nat): State { s.(mem := Poke(s.mem, p + off, val)) }

  /** What a registry table of `cap` slots takes; no table takes nothing. */
  function TableBytes(s: State, cap: nat): nat { if 0 < s.osPage <= WORD then SlotsBytes(cap, s.osPage) else 0 }

  /** The first table, one of twice the size, or one of the same size without the tombstones. */
  function TableAfter(s: State): nat {
    if s.tableCap == 0 then INITIAL_CAP else NextCap(s.tableCap, |s.registered|)
  }

  /** grow_locked: the new table is mapped, then the old one unmapped. */
  function Regrow(s: State): State {
    s.(tableCap := TableAfter(s),
       bytesMapped := s.bytesMapped + TableBytes(s, TableAfter(s)) - TableBytes(s, s.tableCap))
  }

  // ---------------------------------------------------------------- the transition system

  datatype Action =
    | ACreateHeap(t: Tid, h: nat) | ABeginExit(t: Tid) | AEndExit(t: Tid)
    | APop(t: Tid, pid: nat) | AExtend(t: Tid, pid: nat)
    | ASwap(t: Tid, pid: nat, sweep: bool) | AWalk(t: Tid) | ASplice(t: Tid)
    | AFree(t: Tid, p: nat) | ALoad(t: Tid) | ALink(t: Tid) | ACas(t: Tid, spurious: bool)
    | ALock(t: Tid) | AUnlock(t: Tid) | AMapSegment(t: Tid, seg: nat)
    | AAcquire(t: Tid, pid: nat, size: nat, cls: nat)
    | ARelease(t: Tid, pid: nat) | AReclaim(t: Tid, pid: nat) | AAbandon(t: Tid, pid: nat)
    | AMapLarge(t: Tid, base: nat, size: nat, align: nat, ps: nat) | APublish(t: Tid) | AUnmapLarge(t: Tid)
    | AWrite(t: Tid, p: nat, off: nat, val: nat) | ARegrow(t: Tid)

  /** The branch conditions of the code, the client's obligations and the kernel's promises. */
  predicate Enabled(s: State, a: Action) {
    match a
    case ACreateHeap(t, h) => CanCreateHeap(s, t, h)
    case ABeginExit(t) => CanBeginExit(s, t)
    case AEndExit(t) => CanEndExit(s, t)
    case APop(t, pid) => CanPop(s, t, pid)
    case AExtend(t, pid) => CanExtend(s, t, pid)
    case ASwap(t, pid, sweep) => CanSwap(s, t, pid, sweep)
    case AWalk(t) => CanWalk(s, t)
    case ASplice(t) => CanSplice(s, t)
    case AFree(t, p) => CanFree(s, t, p)
    case ALoad(t) => CanLoad(s, t)
    case ALink(t) => CanLink(s, t)
    case ACas(t, _) => CanCas(s, t)
    case ALock(t) => CanLock(s, t)
    case AUnlock(t) => CanUnlock(s, t)
    case AMapSegment(t, seg) => CanMapSegment(s, t, seg)
    case AAcquire(t, pid, size, cls) => CanAcquire(s, t, pid, size, cls)
    case ARelease(t, pid) => CanRelease(s, t, pid)
    case AReclaim(t, pid) => CanReclaim(s, t, pid)
    case AAbandon(t, pid) => CanAbandon(s, t, pid)
    case AMapLarge(t, base, size, align, ps) => CanMapLarge(s, t, base, size, align, ps)
    case APublish(t) => CanPublish(s, t)
    case AUnmapLarge(t) => CanUnmapLarge(s, t)
    case AWrite(_, p, off, _) => CanWrite(s, p, off)
    case ARegrow(_) => true
  }

  /** Every header and every block the action dereferences is mapped, and no null pointer is followed. */
  predicate Safe(s: State, a: Action) {
    match a
    case APop(t, pid) => pid in s.pages && Pg(s, pid).free / PAGE_SIZE == pid
    case AExtend(t, pid) => pid in s.pages
    case ASwap(t, pid, _) => pid in s.pages
    case AWalk(t) => PcOf(s, t).Walking? && PcOf(s, t).tail / PAGE_SIZE in s.pages
    case ASplice(t) => PcOf(s, t).Walking? && PcOf(s, t).pid in s.pages && PcOf(s, t).tail / PAGE_SIZE in s.pages
    case AFree(t, p) =>
      if RegionBase(p) in s.large then s.large[RegionBase(p)].state == Published
      else RegionBase(p) / SEGMENT_SIZE in s.segs && PageOf(p) in s.pages
    case ALoad(t) => PcOf(s, t).Freeing? && PcOf(s, t).pid in s.pages
    case ALink(t) => PcOf(s, t).Loaded? && PcOf(s, t).b / PAGE_SIZE in s.pages
    case ACas(t, _) => PcOf(s, t).Linked? && PcOf(s, t).pid in s.pages
    case APublish(t) => PcOf(s, t).Mapping? && PcOf(s, t).base in s.large
    case AUnmapLarge(t) => PcOf(s, t).Unmapping? && PcOf(s, t).base in s.large
    case _ => true
  }

  function Next(s: State, a: Action): State
    requires Enabled(s, a) && Safe(s, a)
  {
    match a
    case ACreateHeap(t, h) => CreateHeap(s, t, h)
    case ABeginExit(t) => BeginExit(s, t)
    case AEndExit(t) => EndExit(s, t)
    case APop(t, pid) => Pop(s, t, pid)
    case AExtend(t, pid) => Extend(s, t, pid)
    case ASwap(t, pid, sweep) => Swap(s, t, pid, sweep)
    case AWalk(t) => Walk(s, t)
    case ASplice(t) => Splice(s, t)
    case AFree(t, p) => Free(s, t, p)
    case ALoad(t) => Load(s, t)
    case ALink(t) => LinkBlock(s, t)
    case ACas(t, spurious) => Cas(s, t, spurious)
    case ALock(t) => Lock(s, t)
    case AUnlock(t) => Unlock(s, t)
    case AMapSegment(t, seg) => MapSegment(s, t, seg)
    case AAcquire(t, pid, size, cls) => Acquire(s, t, pid, size, cls)
    case ARelease(t, pid) => PoolReturn(s, pid)
    case AReclaim(t, pid) => PoolReturn(s, pid)
    case AAbandon(t, pid) => Abandon(s, pid)
    case AMapLarge(t, base, size, align, ps) =>
      var plan := LargeRegion.AllocLargePlan(size, align, ps);
      MapLarge(s, t, base, plan.mmapSize, plan.offset)
    case APublish(t) => Publish(s, t)
    case AUnmapLarge(t) => UnmapLarge(s, t)
    case AWrite(_, p, off, val) => Write(s, p, off, val)
    case ARegrow(_) => Regrow(s)
  }

  /** The actions can be taken one after another from s. */
  predicate Runs(s: State, acts: seq<Action>)
    decreases |acts|
  {
    acts == [] || (Enabled(s, acts[0]) && Safe(s, acts[0]) && Runs(Next(s, acts[0]), acts[1..]))
  }

  function Exec(s: State, acts: seq<Action>): State
    requires Runs(s, acts)
    decreases |acts|
  {
    if acts == [] then s else Exec(Next(s, acts[0]), acts[1..])
  }
}
