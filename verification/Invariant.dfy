/**
 The global invariant of the transition system. A View names, for every page, the
 lists its pointers spell out and the blocks held outside any list; Rep ties a
 state to a view. The view is determined by the state (see Theorems).
 */
module Invariant {
  import opened Layout
  import opened Memory
  import opened Blocks
  import opened Machine
  import opened TableSize
  import LargeRegion

  /** Where the blocks of one page are. */
  datatype PageView = PageView(
    live: set<nat>,            // with the client
    flight: map<nat, Tid>,     // being pushed remotely, and by whom
    pushed: seq<nat>,          // on thread_free
    taken: seq<nat>,           // swapped out by a collector
    free: seq<nat>,            // on the local free list
    walker: Option<Tid>)       // the collector

  const NO_BLOCKS := PageView({}, map[], [], [], [], None)

  type View = map<nat, PageView>

  /** All blocks of the page, each as often as it occurs. */
  ghost function Held(pv: PageView): multiset<nat> {
    multiset(pv.live) + multiset(pv.flight.Keys) + multiset(pv.pushed) + multiset(pv.taken) + multiset(pv.free)
  }

  function Carved(pid: nat, pg: Page): seq<nat> { BlockSeq(Area(pid), pg.blockSize, pg.reserved) }

  ghost predicate Shape(pg: Page) {
    GoodSize(pg.blockSize) && pg.capacity == PAGE_SIZE / pg.blockSize && pg.reserved <= pg.capacity
  }

  /** Conservation: the five places partition the carved blocks, and `used` counts all but the local free list. */
  ghost predicate Conserved(pid: nat, pg: Page, pv: PageView) {
    && Held(pv) == multiset(Carved(pid, pg))
    && pg.used == |pv.live| + |pv.flight| + |pv.pushed| + |pv.taken|
  }

  ghost predicate ListsOk(m: Mem, pg: Page, pv: PageView) {
    && IsList(m, pg.free, pv.free)
    && IsList(m, pg.threadFree, pv.pushed)
    && IsList(m, At(pv.taken, 0), pv.taken)
  }

  ghost predicate PageOk(pid: nat, pg: Page, pv: PageView, m: Mem) {
    if pg.inUse then Shape(pg) && Conserved(pid, pg, pv) && ListsOk(m, pg, pv) && pg.owner != 0
    else pv == NO_BLOCKS && pg.threadFree == 0 && pg.owner == 0 && pg.used == 0
  }

  // Each quantifier below is about one named fact per page, pointer, thread or region.

  ghost predicate Mapped(s: State, pid: nat) {
    pid in s.pages <==> SegmentOfPage(pid) in s.segs && Usable(pid)
  }

  ghost predicate Domains(s: State, v: View) {
    && v.Keys == s.pages.Keys
    && forall pid: nat {:trigger Mapped(s, pid)} :: Mapped(s, pid)
  }

  ghost predicate PageAt(s: State, v: View, pid: nat) {
    pid in s.pages && pid in v && PageOk(pid, s.pages[pid], v[pid], s.mem)
  }

  ghost predicate PagesOk(s: State, v: View) {
    forall pid {:trigger PageAt(s, v, pid)} :: pid in s.pages ==> PageAt(s, v, pid)
  }

  /** A pointer the client holds is a live block of its page or a published large region. */
  ghost predicate LivePtrOk(s: State, v: View, p: nat) {
    p in s.live &&
    match s.live[p]
    case Small(pid, usable) =>
      pid in s.pages && pid in v && p in v[pid].live && usable == s.pages[pid].blockSize
    case Big(base, usable) =>
      base in s.large && s.large[base].state == Published && p == base + s.large[base].offset &&
      usable == s.large[base].size - s.large[base].offset
  }

  ghost predicate LiveBlockOk(s: State, pid: nat, p: nat) {
    pid in s.pages && p in s.live && s.live[p] == Small(pid, s.pages[pid].blockSize)
  }

  ghost predicate PublishedOk(s: State, b: nat) {
    b in s.large && var p := b + s.large[b].offset; p in s.live && s.live[p].Big? && s.live[p].base == b
  }

  /** The client's pointers are exactly the live blocks and the published large regions. */
  ghost predicate LiveOk(s: State, v: View) {
    && (forall p {:trigger LivePtrOk(s, v, p)} :: p in s.live ==> LivePtrOk(s, v, p))
    && (forall pid, p {:trigger LiveBlockOk(s, pid, p)} :: pid in v && p in v[pid].live ==> LiveBlockOk(s, pid, p))
    && (forall b {:trigger PublishedOk(s, b)} :: b in s.large && s.large[b].state == Published ==> PublishedOk(s, b))
  }

  ghost predicate InFlight(v: View, pid: nat, b: nat, t: Tid) {
    pid in v && b in v[pid].flight && v[pid].flight[b] == t
  }

  /** What a thread's position promises about the state. */
  ghost predicate PcOk(s: State, v: View, t: Tid) {
    match PcOf(s, t)
    case Idle => true
    case Freeing(pid, b) => InFlight(v, pid, b, t)
    case Loaded(pid, b, _) => InFlight(v, pid, b, t)
    case Linked(pid, b, head) => InFlight(v, pid, b, t) && Get(s.mem, b) == head
    case Walking(pid, list, tail, n, sweep) =>
      && pid in v && pid in s.pages && v[pid].walker == Some(t)
      && 1 <= n <= |v[pid].taken| && v[pid].taken[0] == list && v[pid].taken[n - 1] == tail
      && if sweep then s.lock == Some(t) && s.pages[pid].owner == ABANDONED else Owns(s, t, pid)
    case Mapping(base) => base in s.large && s.large[base].state == Pending(t)
    case Unmapping(base) => base in s.large && s.large[base].state == Dying(t)
  }

  predicate Pushes(c: Pc, pid: nat, b: nat) {
    (c.Freeing? || c.Loaded? || c.Linked?) && c.pid == pid && c.b == b
  }

  predicate Walks(c: Pc, pid: nat) { c.Walking? && c.pid == pid }

  ghost predicate HoldersOk(s: State, v: View, pid: nat) {
    && pid in v
    && (forall b :: b in v[pid].flight ==> Pushes(PcOf(s, v[pid].flight[b]), pid, b))
    && (v[pid].walker.None? <==> v[pid].taken == [])
    && (v[pid].walker.Some? ==> Walks(PcOf(s, v[pid].walker.value), pid))
  }

  ghost predicate ThreadsOk(s: State, v: View) {
    && (forall t: Tid {:trigger PcOk(s, v, t)} :: PcOk(s, v, t))
    && (forall pid {:trigger HoldersOk(s, v, pid)} :: pid in v ==> HoldersOk(s, v, pid))
  }

  ghost predicate StampOk(s: State, pid: nat) {
    pid in s.pages && s.pages[pid].inUse ==> s.pages[pid].owner == ABANDONED || s.pages[pid].owner in s.heaps
  }

  ghost predicate HeapOk(s: State, h: nat) {
    h in s.heaps ==> h > ABANDONED && s.heaps[h] in s.heapOf && s.heapOf[s.heaps[h]] == h
  }

  ghost predicate ThreadHeapOk(s: State, t: Tid) {
    && (t in s.heapOf ==> s.heapOf[t] in s.heaps && s.heaps[s.heapOf[t]] == t)
    && (t in s.exiting ==> t in s.heapOf)
  }

  /** A page's owner stamp is the abandoned tag or a live heap, and a live heap belongs to one thread. */
  ghost predicate OwnersOk(s: State) {
    && (forall pid: nat {:trigger StampOk(s, pid)} :: StampOk(s, pid))
    && (forall h: nat {:trigger HeapOk(s, h)} :: HeapOk(s, h))
    && (forall t: Tid {:trigger ThreadHeapOk(s, t)} :: ThreadHeapOk(s, t))
  }

  ghost predicate ZeroRange(m: Mem, lo: nat, hi: nat) {
    forall a: nat :: lo <= a < hi ==> Get(m, a) == 0
  }

  ghost predicate LargeOk(s: State, b: nat) {
    b in s.large &&
    var r := s.large[b];
    && b % SEGMENT_SIZE == 0 && 0 < b && b + r.size <= WORD
    && LargeRegion.LARGE_OFFSET <= r.offset < SEGMENT_SIZE && r.offset % ALLOC_ALIGN == 0 && r.offset < r.size
    && (r.state.Pending? ==> ZeroRange(s.mem, b, b + r.size))
    && (r.state.Pending? ==> PcOf(s, r.state.mapper) == Mapping(b))
    && (r.state.Dying? ==> PcOf(s, r.state.freer) == Unmapping(b))
  }

  predicate SegmentOk(seg: nat) { 0 < seg && (seg + 1) * SEGMENT_SIZE <= WORD }

  predicate SegmentApart(s: State, seg: nat, b: nat) {
    b in s.large && Disjoint(b, b + s.large[b].size, seg * SEGMENT_SIZE, (seg + 1) * SEGMENT_SIZE)
  }

  predicate LargeApart(s: State, b: nat, c: nat) {
    b in s.large && c in s.large && Disjoint(b, b + s.large[b].size, c, c + s.large[c].size)
  }

  /** Mapped regions lie in the address space and do not overlap. */
  ghost predicate RegionsOk(s: State) {
    && (forall seg {:trigger SegmentOk(seg)} :: seg in s.segs ==> SegmentOk(seg))
    && (forall b {:trigger LargeOk(s, b)} :: b in s.large ==> LargeOk(s, b))
    && (forall seg, b {:trigger SegmentApart(s, seg, b)} :: seg in s.segs && b in s.large ==> SegmentApart(s, seg, b))
    && (forall b, c {:trigger LargeApart(s, b, c)} :: b in s.large && c in s.large && b != c ==> LargeApart(s, b, c))
  }

  ghost predicate IsSegmentBase(s: State, x: nat) { x % SEGMENT_SIZE == 0 && x / SEGMENT_SIZE in s.segs }

  ghost predicate Listed(s: State, x: nat) {
    x in s.registered <==> IsSegmentBase(s, x) || (x in s.large && s.large[x].state == Published)
  }

  /** The registry holds the bases of small segments and of published large regions. */
  ghost predicate RegistryOk(s: State) {
    forall x: nat {:trigger Listed(s, x)} :: Listed(s, x)
  }

  /** Bytes mapped by the large regions with the given bases. */
  ghost function SumSizes(large: map<nat, Large>, bases: set<nat>): nat {
    if bases == {} then 0
    else
      var b :| b in bases;
      (if b in large then large[b].size else 0) + SumSizes(large, bases - {b})
  }

  ghost function LargeBytes(large: map<nat, Large>): nat { SumSizes(large, large.Keys) }

  ghost predicate BytesOk(s: State) {
    && s.bytesMapped == SEGMENT_SIZE * |s.segs| + LargeBytes(s.large) + s.heapBytes * |s.heaps| + TableBytes(s,
       s.tableCap)
    && LargeRegion.GoodOsPage(s.osPage) && s.tableCap <= MAX_CAP
  }

  ghost predicate OneIdle(s: State, a: nat, b: nat) {
    a in s.segs && b in s.segs && FullyFree(s.pages, a) && FullyFree(s.pages, b) ==> a == b
  }

  /** At most one segment is entirely free. */
  ghost predicate CacheOk(s: State) {
    forall a, b {:trigger OneIdle(s, a, b)} :: OneIdle(s, a, b)
  }

  ghost predicate Rep(s: State, v: View) {
    && Domains(s, v) && PagesOk(s, v) && LiveOk(s, v) && ThreadsOk(s, v)
    && OwnersOk(s) && RegionsOk(s) && RegistryOk(s) && BytesOk(s) && CacheOk(s)
  }
}
