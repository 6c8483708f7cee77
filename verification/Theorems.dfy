/**
 What the invariant means for a client and for the code, stated over reachable states
 and over the steps taken from them.
 */
module Theorems {
  import opened Layout
  import opened Memory
  import opened Blocks
  import opened Machine
  import opened Invariant
  import opened PageSteps
  import opened OnePage
  import opened BlockActions
  import opened RegionActions
  import opened MapActions
  import opened Safety
  import LargeRegion

  // ---------------------------------------------------------------- where every block is

  /** x is found by following next pointers from head. */
  ghost predicate Reaches(m: Mem, head: nat, x: nat) {
    exists l: seq<nat> :: IsList(m, head, l) && x in l
  }

  ghost predicate MidPush(s: State, pid: nat, x: nat) {
    exists t: Tid :: Pushes(PcOf(s, t), pid, x)
  }

  ghost predicate InSwappedList(s: State, pid: nat, x: nat) {
    exists t: Tid :: Walks(PcOf(s, t), pid) && Reaches(s.mem, PcOf(s, t).list, x)
  }

  function One(b: bool): nat { if b then 1 else 0 }

  lemma ReachesMember(m: Mem, head: nat, l: seq<nat>, x: nat)
    requires IsList(m, head, l)
    ensures Reaches(m, head, x) <==> x in l
  {
    if Reaches(m, head, x) {
      var r: seq<nat> :| IsList(m, head, r) && x in r;
      ListUnique(m, head, l, r);
    }
  }

  lemma MidPushMember(s: State, v: View, pid: nat, x: nat)
    requires Rep(s, v) && pid in s.pages
    ensures pid in v && (MidPush(s, pid, x) <==> x in v[pid].flight)
  {
    assert HoldersOk(s, v, pid);
    if MidPush(s, pid, x) {
      var t: Tid :| Pushes(PcOf(s, t), pid, x);
      assert PcOk(s, v, t);
    }
    if x in v[pid].flight {
      assert Pushes(PcOf(s, v[pid].flight[x]), pid, x);
    }
  }

  lemma SwappedMember(s: State, v: View, pid: nat, x: nat)
    requires Rep(s, v) && pid in s.pages && s.pages[pid].inUse
    ensures pid in v && (InSwappedList(s, pid, x) <==> x in v[pid].taken)
  {
    assert HoldersOk(s, v, pid) && PageAt(s, v, pid);
    if InSwappedList(s, pid, x) {
      var t: Tid :| Walks(PcOf(s, t), pid) && Reaches(s.mem, PcOf(s, t).list, x);
      assert PcOk(s, v, t);
      ReachesMember(s.mem, PcOf(s, t).list, v[pid].taken, x);
    }
    if x in v[pid].taken {
      var t := v[pid].walker.value;
      assert PcOk(s, v, t);
      ReachesMember(s.mem, PcOf(s, t).list, v[pid].taken, x);
      assert Walks(PcOf(s, t), pid);
    }
  }

  lemma LiveMember(s: State, v: View, pid: nat, x: nat)
    requires Rep(s, v) && pid in s.pages && s.pages[pid].inUse && pid in v && x in Held(v[pid])
    ensures x in s.live <==> x in v[pid].live
  {
    if x in v[pid].live {
      assert LiveBlockOk(s, pid, x);
    } else {
      NotLive(s, v, pid, x);
    }
  }

  /** Address of block i of a page. */
  function BlockAddress(pid: nat, size: nat, i: nat): nat { Area(pid) + i * size }

  /** In every reachable state each carved block of a page in use (owned or abandoned) is in exactly one of five
      places. */
  lemma BlockPartition(s: State, pid: nat, i: nat)
    requires Reachable(s) && pid in s.pages && s.pages[pid].inUse && i < s.pages[pid].reserved
    ensures var pg := s.pages[pid];
            var x := BlockAddress(pid, pg.blockSize, i);
            One(x in s.live) + One(MidPush(s, pid, x)) + One(Reaches(s.mem, pg.threadFree, x)) +
            One(InSwappedList(s, pid, x)) + One(Reaches(s.mem, pg.free, x)) == 1
  {
    hide Rep, Reaches, MidPush, InSwappedList, PageOk, Held, BlockAddress;
    var v := ReachableRep(s);
    PageFacts(s, v, pid);
    CarvedIsHeld(pid, s.pages[pid], v[pid], s.mem, i);
    PlaceOf(s, v, pid, BlockAddress(pid, s.pages[pid].blockSize, i));
  }

  lemma CarvedIsHeld(pid: nat, pg: Page, pv: PageView, m: Mem, i: nat)
    requires pg.inUse && PageOk(pid, pg, pv, m) && i < pg.reserved
    ensures BlockAddress(pid, pg.blockSize, i) in Held(pv)
  {
    hide Held, Invariant.ListsOk, Shape;
    var x := Carved(pid, pg)[i];
    assert x in Carved(pid, pg) && x in multiset(Carved(pid, pg));
  }

  lemma PlaceOf(s: State, v: View, pid: nat, x: nat)
    requires Rep(s, v) && pid in s.pages && s.pages[pid].inUse && pid in v && x in Held(v[pid])
    ensures One(x in s.live) + One(MidPush(s, pid, x)) + One(Reaches(s.mem, s.pages[pid].threadFree, x)) +
            One(InSwappedList(s, pid, x)) + One(Reaches(s.mem, s.pages[pid].free, x)) == 1
  {
    hide Rep, Reaches, MidPush, InSwappedList;
    PageFacts(s, v, pid);
    var pg, pv := s.pages[pid], v[pid];
    HeldOnce(pid, pg, pv, s.mem);
    LiveMember(s, v, pid, x);
    MidPushMember(s, v, pid, x);
    SwappedMember(s, v, pid, x);
    ReachesMember(s.mem, pg.threadFree, pv.pushed, x);
    ReachesMember(s.mem, pg.free, pv.free, x);
    SplitCount(pv, x);
  }

  lemma SplitCount(pv: PageView, x: nat)
    requires Held(pv)[x] == 1
    ensures One(x in pv.live) + One(x in pv.flight) + One(x in pv.pushed) + One(x in pv.taken) + One(x in pv.free) == 1
  {
  }

  /** `used` counts the carved blocks that are not on the local free list; it never goes negative and never exceeds what
      was carved. */
  lemma UsedCounts(s: State, pid: nat) returns (free: seq<nat>)
    requires Reachable(s) && pid in s.pages && s.pages[pid].inUse
    ensures var pg := s.pages[pid];
            && IsList(s.mem, pg.free, free) && Distinct(free) && (forall x :: x in free ==> x in Carved(pid, pg))
            && pg.used == pg.reserved - |free|
            && 0 <= pg.used <= pg.reserved <= pg.capacity <= PAGE_SIZE / ALLOC_ALIGN
  {
    hide Rep;
    var v := ReachableRep(s);
    PageFacts(s, v, pid);
    var pg, pv := s.pages[pid], v[pid];
    free := pv.free;
    ListAcyclic(s.mem, pg.free, free);
    assert |Held(pv)| == |multiset(Carved(pid, pg))|;
    forall x | x in free ensures x in Carved(pid, pg) {
      assert x in Held(pv) && x in multiset(Carved(pid, pg));
    }
    CapacityBound(pg.blockSize);
  }

  lemma CapacityBound(size: nat)
    requires GoodSize(size)
    ensures PAGE_SIZE / size <= PAGE_SIZE / ALLOC_ALIGN
  {
    var q := PAGE_SIZE / size;
    assert q * size <= PAGE_SIZE;
    assert q * ALLOC_ALIGN <= q * size by { MulLe(ALLOC_ALIGN, size, q); }
  }

  // ---------------------------------------------------------------- live allocations

  /** No two live pointers share a byte. */
  lemma LiveDisjoint(s: State, p: nat, q: nat)
    requires Reachable(s) && p in s.live && q in s.live && p != q
    ensures Disjoint(p, p + s.live[p].usable, q, q + s.live[q].usable)
  {
    hide Rep;
    var v := ReachableRep(s);
    LiveHome(s, v, p);
    LiveHome(s, v, q);
    match (s.live[p], s.live[q]) {
      case (Small(a, _), Small(b, _)) =>
        if a == b {
          PageFacts(s, v, a);
          assert p in Held(v[a]) && q in Held(v[a]);
          ApartInPage(a, s.pages[a], v[a], s.mem, p, q);
        }
      case (Small(a, _), Big(_, _)) => SmallBigApart(s, v, p, q);
      case (Big(_, _), Small(b, _)) => SmallBigApart(s, v, q, p);
      case (Big(a, _), Big(b, _)) => BigBigApart(s, v, p, q);
    }
  }

  lemma SmallBigApart(s: State, v: View, p: nat, q: nat)
    requires Rep(s, v) && p in s.live && q in s.live && s.live[p].Small? && s.live[q].Big?
    ensures Disjoint(p, p + s.live[p].usable, q, q + s.live[q].usable)
  {
    LiveHome(s, v, p);
    LiveHome(s, v, q);
    PagePositive(s, v, s.live[p].pid);
    PageInSegment(s.live[p].pid);
    assert SegmentApart(s, SegmentOfPage(s.live[p].pid), s.live[q].base);
  }

  lemma BigBigApart(s: State, v: View, p: nat, q: nat)
    requires Rep(s, v) && p in s.live && q in s.live && s.live[p].Big? && s.live[q].Big? && p != q
    ensures Disjoint(p, p + s.live[p].usable, q, q + s.live[q].usable)
  {
    LiveHome(s, v, p);
    LiveHome(s, v, q);
    assert LivePtrOk(s, v, p) && LivePtrOk(s, v, q);
    assert LargeApart(s, s.live[p].base, s.live[q].base);
  }

  /** No byte of the range lies in the header page of a mapped segment or in the header of a mapped large region. */
  ghost predicate ClearOfHeaders(s: State, lo: nat, hi: nat) {
    && (forall seg {:trigger seg in s.segs} ::
          seg in s.segs ==> Disjoint(lo, hi, seg * SEGMENT_SIZE, seg * SEGMENT_SIZE + PAGE_SIZE))
    && (forall b {:trigger b in s.large} :: b in s.large ==> Disjoint(lo, hi, b, b + LargeRegion.LARGE_OFFSET))
  }

  lemma SmallClear(s: State, v: View, p: nat)
    requires Rep(s, v) && p in s.live && s.live[p].Small?
    ensures ClearOfHeaders(s, p, p + s.live[p].usable)
  {
    hide Rep;
    LiveHome(s, v, p);
    var pid := s.live[p].pid;
    PagePositive(s, v, pid);
    PageInSegment(pid);
    MappedPage(s, v, pid);
    forall seg | seg in s.segs
      ensures Disjoint(p, p + s.live[p].usable, seg * SEGMENT_SIZE, seg * SEGMENT_SIZE + PAGE_SIZE) {
      PageClear(pid, seg);
    }
    forall b | b in s.large ensures Disjoint(p, p + s.live[p].usable, b, b + LargeRegion.LARGE_OFFSET) {
      LargeAfterPage(s, v, pid, b);
    }
  }

  lemma MappedPage(s: State, v: View, pid: nat)
    requires Rep(s, v) && pid in s.pages
    ensures Usable(pid) && SegmentOfPage(pid) in s.segs
  {
    assert Mapped(s, pid);
  }

  /** A usable page is not part of any segment's header page. */
  lemma PageClear(pid: nat, seg: nat)
    requires Usable(pid)
    ensures Disjoint(Area(pid), Area(pid) + PAGE_SIZE, seg * SEGMENT_SIZE, seg * SEGMENT_SIZE + PAGE_SIZE)
  {
  }

  lemma LargeAfterPage(s: State, v: View, pid: nat, b: nat)
    requires Rep(s, v) && pid in s.pages && b in s.large
    ensures Disjoint(Area(pid), Area(pid) + PAGE_SIZE, b, b + LargeRegion.LARGE_OFFSET)
  {
    MappedPage(s, v, pid);
    PageInSegment(pid);
    assert SegmentApart(s, SegmentOfPage(pid), b) && LargeOk(s, b);
  }

  lemma BigClear(s: State, v: View, p: nat)
    requires Rep(s, v) && p in s.live && s.live[p].Big?
    ensures ClearOfHeaders(s, p, p + s.live[p].usable)
  {
    LiveHome(s, v, p);
    var base := s.live[p].base;
    assert LivePtrOk(s, v, p) && LargeOk(s, base);
    forall seg | seg in s.segs
      ensures Disjoint(p, p + s.live[p].usable, seg * SEGMENT_SIZE, seg * SEGMENT_SIZE + PAGE_SIZE) {
      assert SegmentApart(s, seg, base);
    }
    forall b | b in s.large ensures Disjoint(p, p + s.live[p].usable, b, b + LargeRegion.LARGE_OFFSET) {
      assert LargeOk(s, b) && (b != base ==> LargeApart(s, base, b));
    }
  }

  /** Every live pointer is 16-byte aligned, its block lies inside its region and clear of every mapped header,
      and masking and shifting it gives back the page or region that backs it. */
  lemma LiveRecoverable(s: State, p: nat)
    requires Reachable(s) && p in s.live
    ensures 0 < p && p + s.live[p].usable <= WORD && p % ALLOC_ALIGN == 0 && s.live[p].usable > 0
    ensures ClearOfHeaders(s, p, p + s.live[p].usable)
    ensures match s.live[p]
            case Small(pid, usable) =>
              && PageOf(p) == pid && pid in s.pages && usable == s.pages[pid].blockSize
              && RegionBase(p) / SEGMENT_SIZE in s.segs && RegionBase(p) !in s.large
              && RegionBase(p) + PAGE_SIZE <= p && p + usable <= RegionBase(p) + SEGMENT_SIZE
            case Big(base, usable) =>
              && RegionBase(p) == base && base in s.large
              && base + LargeRegion.LARGE_OFFSET <= p && p + usable == base + s.large[base].size
  {
    hide Rep, RegionBase, PageOf, PageOk, Held, ClearOfHeaders;
    var v := ReachableRep(s);
    LiveHome(s, v, p);
    RegionOfLive(s, v, p);
    match s.live[p] {
      case Small(pid, usable) =>
        SmallClear(s, v, p);
        PageFacts(s, v, pid);
        PagePositive(s, v, pid);
        PageInSegment(pid);
        UsablePage(s, v, pid);
      case Big(base, usable) =>
        BigClear(s, v, p);
        BigPlace(s, v, p);
    }
  }

  lemma BigPlace(s: State, v: View, p: nat)
    requires Rep(s, v) && p in s.live && s.live[p].Big?
    ensures s.live[p].base in s.large && p == s.live[p].base + s.large[s.live[p].base].offset && p % ALLOC_ALIGN == 0
  {
    hide PagesOk, ThreadsOk, OwnersOk, RegistryOk, BytesOk, CacheOk, Domains;
    assert LivePtrOk(s, v, p) && LargeOk(s, s.live[p].base);
    SumAligned(s.live[p].base, s.large[s.live[p].base].offset);
  }

  lemma SumAligned(base: nat, offset: nat)
    requires base % SEGMENT_SIZE == 0 && offset % ALLOC_ALIGN == 0
    ensures (base + offset) % ALLOC_ALIGN == 0
  {
  }

  lemma UsablePage(s: State, v: View, pid: nat)
    requires Rep(s, v) && pid in s.pages
    ensures SegmentOfPage(pid) * SEGMENT_SIZE + PAGE_SIZE <= Area(pid)
  {
    assert Mapped(s, pid);
  }

  // ---------------------------------------------------------------- recycling

  predicate OnPage(c: Pc, pid: nat) {
    (c.Freeing? || c.Loaded? || c.Linked? || c.Walking?) && c.pid == pid
  }

  /** Nobody holds anything of the page: no live block, nothing on thread_free, no thread in the middle of a push or a
      collection. */
  ghost predicate Untouched(s: State, pid: nat) {
    && (forall p :: p in s.live ==> PageOf(p) != pid)
    && (forall t: Tid :: !OnPage(PcOf(s, t), pid))
    && Pg(s, pid).threadFree == 0
  }

  /** The page's header entry is taken out of use, put to a new use, or disappears with its segment. */
  predicate Recycles(s: State, s': State, pid: nat) {
    pid in s.pages && (pid !in s'.pages || s'.pages[pid].inUse != s.pages[pid].inUse
        || s'.pages[pid].blockSize != s.pages[pid].blockSize)
  }

  lemma EmptyIsUntouched(s: State, v: View, pid: nat)
    requires Rep(s, v) && pid in s.pages && pid in v && s.pages[pid].threadFree == 0
    requires v[pid].live == {} && v[pid].flight == map[] && v[pid].taken == [] && v[pid].walker == None
    ensures Untouched(s, pid)
  {
    hide RegionBase, PageOf;
    forall p | p in s.live ensures PageOf(p) != pid {
      RegionOfLive(s, v, p);
      LiveHome(s, v, p);
      if s.live[p].Big? { BigNotOnPage(s, v, pid, p); }
    }
    forall t: Tid ensures !OnPage(PcOf(s, t), pid) {
      assert PcOk(s, v, t);
    }
  }

  lemma BigNotOnPage(s: State, v: View, pid: nat, p: nat)
    requires Rep(s, v) && pid in s.pages && p in s.live && s.live[p].Big?
    ensures PageOf(p) != pid
  {
    hide PageOf;
    LiveHome(s, v, p);
    RecoveryMeaning(p);
    BigElsewhere(s, v, pid, p);
  }

  /** A pooled page holds nothing. */
  lemma PooledIsUntouched(s: State, v: View, pid: nat)
    requires Rep(s, v) && pid in s.pages && !s.pages[pid].inUse
    ensures Untouched(s, pid)
  {
    assert PageAt(s, v, pid);
    EmptyIsUntouched(s, v, pid);
  }

  lemma DrainedIsUntouched(s: State, v: View, t: Tid, pid: nat)
    requires Rep(s, v) && Authority(s, t, pid) && PcOf(s, t) == Idle && s.pages[pid].used == 0
    ensures Untouched(s, pid)
  {
    hide Rep;
    DrainedPage(s, v, t, pid);
    EmptyIsUntouched(s, v, pid);
  }

  /** PoolReturn touches only the returned page and, when it unmaps, pages that were already pooled. */
  lemma PoolReturnScope(s: State, pid: nat, q: nat)
    requires pid in s.pages && q in s.pages && Recycles(s, PoolReturn(s, pid), q) && q != pid
    ensures !s.pages[q].inUse
  {
    hide FullyFree, Surplus;
    var s1, seg := Pooled(s, pid), SegmentOfPage(pid);
    if Surplus(s1, seg) {
      SurplusIsFree(s1, seg);
      FreeEntry(s1.pages, seg, q);
    }
  }

  lemma FreeEntry(pages: map<nat, Page>, seg: nat, q: nat)
    requires FullyFree(pages, seg) && q in pages && SegmentOfPage(q) == seg
    ensures !pages[q].inUse
  {
  }

  /** A page is pooled, re-typed or unmapped only when nobody holds anything of it. */
  lemma RecycledOnlyWhenUntouched(s: State, a: Action, pid: nat)
    requires Reachable(s) && Enabled(s, a) && Safe(s, a) && Recycles(s, Next(s, a), pid)
    ensures Untouched(s, pid)
  {
    hide Rep, Untouched, Recycles;
    var v := ReachableRep(s);
    if a.AAcquire? {
      AcquireScope(s, a.t, a.pid, a.size, a.cls, pid);
      PooledIsUntouched(s, v, pid);
    } else if a.ARelease? {
      PoolReturnUntouched(s, v, a.t, a.pid, pid);
    } else if a.AReclaim? {
      PoolReturnUntouched(s, v, a.t, a.pid, pid);
    } else {
      OthersDontRecycle(s, v, a, pid);
    }
  }

  lemma AcquireScope(s: State, t: Tid, q: nat, size: nat, cls: nat, pid: nat)
    requires CanAcquire(s, t, q, size, cls) && Recycles(s, Acquire(s, t, q, size, cls), pid)
    ensures pid == q
  {
  }

  lemma OthersDontRecycle(s: State, v: View, a: Action, pid: nat)
    requires Rep(s, v) && Enabled(s, a) && Safe(s, a) && !a.AAcquire? && !a.ARelease? && !a.AReclaim?
    ensures !Recycles(s, Next(s, a), pid)
  {
    hide Rep;
    if pid in s.pages { PageAfter(s, v, a, pid); }
  }

  // ---------------------------------------------------------------- one page through one step

  predicate IsBlockAction(a: Action) {
    a.APop? || a.AExtend? || a.ASwap? || a.AWalk? || a.ASplice? || a.AFree? || a.ALoad? || a.ALink? || a.ACas?
  }

  predicate IsPoolReturn(a: Action) { a.ARelease? || a.AReclaim? }

  /** The page entry after a step that does not return a page to the pool. */
  function PageNext(s: State, a: Action, pid: nat): Page
    requires pid in s.pages
  {
    var pg := s.pages[pid];
    match a
    case APop(t, q) => if q == pid then pg.(free := Get(s.mem, pg.free), used := pg.used + 1) else pg
    case AExtend(t, q) => if q == pid then Extended(pid, pg) else pg
    case ASwap(t, q, _) => if q == pid then pg.(threadFree := 0) else pg
    case ASplice(t) =>
      var c := PcOf(s, t);
      if Walks(c, pid) then pg.(free := c.list, used := pg.used - c.n) else pg
    case AFree(t, p) =>
      if p in s.live && s.live[p] == Small(pid, pg.blockSize) && Owns(s, t, pid)
        then pg.(free := p, used := pg.used - 1) else pg
    case ACas(t, spurious) =>
      var c := PcOf(s, t);
      if c.Linked? && c.pid == pid && pg.threadFree == c.head && !spurious then pg.(threadFree := c.b) else pg
    case AAcquire(t, q, size, cls) =>
      if q == pid && size > 0 then Page(0, 0, PAGE_SIZE / size, 0, size, cls, true, HeapOf(s, t), 0) else pg
    case AAbandon(t, q) => if q == pid then pg.(owner := ABANDONED) else pg
    case _ => pg
  }

  lemma PageAfterBlock(s: State, a: Action, pid: nat)
    requires Enabled(s, a) && Safe(s, a) && pid in s.pages && (a.APop? || a.AExtend? || a.ASwap? || a.ASplice?)
    ensures pid in Next(s, a).pages && Next(s, a).pages[pid] == PageNext(s, a, pid)
  {
    hide Fresh, Carve, Store, RegionBase, PageOf;
  }

  lemma PageAfterRemote(s: State, a: Action, pid: nat)
    requires Enabled(s, a) && Safe(s, a) && pid in s.pages && (a.AWalk? || a.ALoad? || a.ALink?)
    ensures pid in Next(s, a).pages && Next(s, a).pages[pid] == PageNext(s, a, pid)
  {
    hide Store, RegionBase, PageOf;
  }

  lemma PageAfterCas(s: State, t: Tid, spurious: bool, pid: nat)
    requires CanCas(s, t) && PcOf(s, t).pid in s.pages && pid in s.pages
    ensures pid in Cas(s, t, spurious).pages && Cas(s, t, spurious).pages[pid] == PageNext(s, ACas(t, spurious), pid)
  {
  }

  lemma PageAfterFree(s: State, v: View, t: Tid, p: nat, pid: nat)
    requires Rep(s, v) && CanFree(s, t, p) && Safe(s, AFree(t, p)) && pid in s.pages
    ensures pid in Free(s, t, p).pages && Free(s, t, p).pages[pid] == PageNext(s, AFree(t, p), pid)
  {
    hide Rep, RegionBase, PageOf;
    RegionOfLive(s, v, p);
    LiveHome(s, v, p);
    if s.live[p].Small? { NullIsNoOwner(s, v, t, s.live[p].pid); }
  }

  lemma PageAfterCentral(s: State, v: View, a: Action, pid: nat)
    requires Rep(s, v) && Enabled(s, a) && Safe(s, a) && pid in s.pages && !IsBlockAction(a) && !IsPoolReturn(a)
    ensures pid in Next(s, a).pages && Next(s, a).pages[pid] == PageNext(s, a, pid)
  {
    hide Rep, Clear, Unmapped, LargeRegion.AllocLargePlan, SegmentPages;
    if a.AMapSegment? {
      NewSegment(s, v, a.seg);
      SegmentPagesMeaning(a.seg, pid);
    }
  }

  /** How each step changes one page's header. */
  lemma PageAfter(s: State, v: View, a: Action, pid: nat)
    requires Rep(s, v) && Enabled(s, a) && Safe(s, a) && pid in s.pages && !IsPoolReturn(a)
    ensures pid in Next(s, a).pages && Next(s, a).pages[pid] == PageNext(s, a, pid)
  {
    hide Rep, PageNext;
    if a.AFree? {
      PageAfterFree(s, v, a.t, a.p, pid);
    } else if a.ACas? {
      PageAfterCas(s, a.t, a.spurious, pid);
    } else if a.AWalk? || a.ALoad? || a.ALink? {
      PageAfterRemote(s, a, pid);
    } else if IsBlockAction(a) {
      PageAfterBlock(s, a, pid);
    } else {
      PageAfterCentral(s, v, a, pid);
    }
  }

  lemma PoolReturnUntouched(s: State, v: View, t: Tid, q: nat, pid: nat)
    requires Rep(s, v) && Authority(s, t, q) && PcOf(s, t) == Idle && s.pages[q].used == 0
    requires Recycles(s, PoolReturn(s, q), pid)
    ensures Untouched(s, pid)
  {
    hide Rep, Untouched;
    if pid == q {
      DrainedIsUntouched(s, v, t, q);
    } else {
      PoolReturnScope(s, q, pid);
      PooledIsUntouched(s, v, pid);
    }
  }
}
