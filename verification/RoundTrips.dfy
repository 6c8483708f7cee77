/**
 Whole calls of one thread from any reachable state: the slow path of an allocation delivers a new block, and freeing
 what was just allocated puts everything back.
 */
module RoundTrips {
  import opened Layout
  import opened Memory
  import opened Blocks
  import opened Machine
  import opened Invariant
  import opened PageSteps
  import opened OnePage
  import opened BlockActions
  import opened RegionActions
  import opened MapActions
  import opened Safety
  import opened Theorems
  import opened Protocol
  import opened Progress
  import LargeRegion

  // ---------------------------------------------------------------- a new page for a class

  /** The pool can hand out a page: it has one, or the kernel grants segment seg. */
  ghost predicate PoolServes(s: State, pid: nat, seg: nat) {
    && (pid in s.pages ==> !s.pages[pid].inUse)
    && (pid !in s.pages ==>
          && (forall q :: q in s.pages ==> s.pages[q].inUse)
          && Unmapped(s, seg * SEGMENT_SIZE, (seg + 1) * SEGMENT_SIZE) && SegmentOfPage(pid) == seg && Usable(pid))
  }

  /** The refill of an empty pool. */
  lemma RefillAlone(s: State, t: Tid, pid: nat, seg: nat) returns (acts: seq<Action>, s': State)
    requires Reachable(s) && PcOf(s, t) == Idle && s.lock == Some(t) && PoolServes(s, pid, seg)
    ensures Alone(s, acts, t, s') && Reachable(s') && pid in s'.pages && !s'.pages[pid].inUse
    ensures s' == s.(pages := s'.pages, segs := s'.segs, mem := s'.mem, registered := s'.registered,
                     bytesMapped := s'.bytesMapped)
  {
    hide Reachable, Alone, Usable, SegmentOfPage;
    if pid in s.pages {
      acts, s' := [], s;
      AloneNothing(s, t);
    } else {
      acts := [AMapSegment(t, seg)];
      AloneStep(s, AMapSegment(t, seg));
      s' := Next(s, AMapSegment(t, seg));
      MapEffect(s, t, pid, seg);
    }
  }

  lemma MapEffect(s: State, t: Tid, pid: nat, seg: nat)
    requires CanMapSegment(s, t, seg) && SegmentOfPage(pid) == seg && Usable(pid)
    ensures var s' := MapSegment(s, t, seg); pid in s'.pages && !s'.pages[pid].inUse
  {
    hide Usable, SegmentOfPage;
    SegmentPagesMeaning(seg, pid);
  }

  /** The page just handed to t for blocks of `size` bytes. */
  ghost predicate Handed(s: State, t: Tid, pid: nat, size: nat) {
    && Owns(s, t, pid) && GoodSize(size)
    && s.pages[pid].blockSize == size && s.pages[pid].capacity == PAGE_SIZE / size
    && s.pages[pid].reserved == 0 && s.pages[pid].free == 0
  }

  lemma AcquireAlone(s: State, t: Tid, pid: nat, seg: nat, size: nat, cls: nat) returns (acts: seq<Action>, s': State)
    requires Reachable(s) && Ready(s, t) && HeapOf(s, t) != 0 && s.lock == None && GoodSize(size)
    requires PoolServes(s, pid, seg)
    ensures Alone(s, acts, t, s') && Reachable(s') && Ready(s', t) && Handed(s', t, pid, size)
    ensures s'.live == s.live
  {
    hide Reachable, Alone, PoolServes;
    LockEffect(s, t);
    var s1 := Next(s, ALock(t));
    assert PoolServes(s1, pid, seg) by { ServesAlike(s, s1, pid, seg); }
    var acts1, s2 := RefillAlone(s1, t, pid, seg);
    var a := AAcquire(t, pid, size, cls);
    AloneStep(s2, a);
    var s3 := Next(s2, a);
    AcquireEffect(s2, t, pid, size, cls);
    UnlockEffect(s3, t);
    s' := Next(s3, AUnlock(t));
    AloneThen(s, [ALock(t)], s1, acts1, s2, t);
    AloneThen(s, [ALock(t)] + acts1, s2, [a], s3, t);
    AloneThen(s, [ALock(t)] + acts1 + [a], s3, [AUnlock(t)], s', t);
    acts := [ALock(t)] + acts1 + [a] + [AUnlock(t)];
  }

  lemma ServesAlike(s: State, s1: State, pid: nat, seg: nat)
    requires PoolServes(s, pid, seg) && s1 == s.(lock := s1.lock)
    ensures PoolServes(s1, pid, seg)
  {
  }

  lemma AcquireEffect(s: State, t: Tid, pid: nat, size: nat, cls: nat)
    requires CanAcquire(s, t, pid, size, cls)
    ensures var s' := Acquire(s, t, pid, size, cls); s' == s.(pages := s'.pages) && Handed(s', t, pid, size)
  {
  }

  /** The slow path of hm_malloc: with the lock free and a page to be had, a thread's own steps deliver a block of
      exactly the class it asked for, one that nobody had, at the start of the new page; every other pointer stays. */
  lemma AllocAlone(s: State, t: Tid, pid: nat, seg: nat, size: nat, cls: nat) returns (acts: seq<Action>, s': State)
    requires Reachable(s) && Ready(s, t) && HeapOf(s, t) != 0 && s.lock == None && GoodSize(size)
    requires PoolServes(s, pid, seg)
    ensures Alone(s, acts, t, s') && Reachable(s') && Ready(s', t)
    ensures Area(pid) !in s.live && s'.live == s.live[Area(pid) := Small(pid, size)]
  {
    hide Reachable, Alone, PoolServes, Next, Safe;
    var acts1, s1 := AcquireAlone(s, t, pid, seg, size, cls);
    HandedRoom(s1, t, pid, size);
    AloneStep(s1, AExtend(t, pid));
    var s2 := Next(s1, AExtend(t, pid));
    ExtendEffect(s1, t, pid, size);
    AloneStep(s2, APop(t, pid));
    s' := Next(s2, APop(t, pid));
    PopEffect(s2, t, pid);
    AloneThen(s, acts1, s1, [AExtend(t, pid)], s2, t);
    AloneThen(s, acts1 + [AExtend(t, pid)], s2, [APop(t, pid)], s', t);
    acts := acts1 + [AExtend(t, pid)] + [APop(t, pid)];
  }

  lemma HandedRoom(s: State, t: Tid, pid: nat, size: nat)
    requires Handed(s, t, pid, size) && Ready(s, t)
    ensures CanExtend(s, t, pid)
  {
  }

  /** The first batch starts at the start of the block area. */
  lemma ExtendEffect(s: State, t: Tid, pid: nat, size: nat)
    requires Reachable(s) && Handed(s, t, pid, size) && CanExtend(s, t, pid) && Safe(s, AExtend(t, pid))
    ensures var s' := Next(s, AExtend(t, pid));
            && s' == s.(pages := s'.pages, mem := s'.mem)
            && Owns(s', t, pid) && s'.pages[pid].free == Area(pid) > 0 && s'.pages[pid].blockSize == size
  {
    hide Batch, Rep;
    BatchMeaning(size, PAGE_SIZE / size);
    var v := ReachableRep(s);
    PagePositive(s, v, pid);
  }

  lemma PopEffect(s: State, t: Tid, pid: nat)
    requires Reachable(s) && CanPop(s, t, pid) && Safe(s, APop(t, pid))
    ensures var b, pg, s' := s.pages[pid].free, s.pages[pid], Next(s, APop(t, pid));
            && b !in s.live && Owns(s', t, pid)
            && s' == s.(pages := s.pages[pid := pg.(free := Get(s.mem, b), used := pg.used + 1)],
                        live := s.live[b := Small(pid, pg.blockSize)])
  {
    hide Rep;
    var v := ReachableRep(s);
    var _ := KeepPop(s, v, t, pid);
  }

  // ---------------------------------------------------------------- small round trip

  /** malloc then free by the owner: the page, its free list and the set of live pointers are what they were. */
  lemma PopThenFree(s: State, t: Tid, pid: nat, f: seq<nat>) returns (p: nat, s': State)
    requires Reachable(s) && Ready(s, t) && Owns(s, t, pid) && s.pages[pid].free != 0
    requires IsList(s.mem, s.pages[pid].free, f)
    ensures Alone(s, [APop(t, pid), AFree(t, p)], t, s') && Reachable(s')
    ensures p == s.pages[pid].free && p !in s.live
    ensures s' == s.(mem := s'.mem) && IsList(s'.mem, s.pages[pid].free, f)
  {
    hide Reachable, Alone, IsList, Next, Safe, Store;
    p := s.pages[pid].free;
    AloneStep(s, APop(t, pid));
    var s1 := Next(s, APop(t, pid));
    PopEffect(s, t, pid);
    AloneStep(s1, AFree(t, p));
    s' := Next(s1, AFree(t, p));
    LocalEffect(s1, t, p);
    AloneThen(s, [APop(t, pid)], s1, [AFree(t, p)], s', t);
    assert [APop(t, pid)] + [AFree(t, p)] == [APop(t, pid), AFree(t, p)];
    assert s'.pages == s.pages && s'.live == s.live;
    SameList(s, t, pid, f);
  }

  lemma LocalEffect(s: State, t: Tid, p: nat)
    requires Reachable(s) && CanFree(s, t, p) && s.live[p].Small? && Owns(s, t, s.live[p].pid) && Safe(s, AFree(t, p))
    ensures var pid, s' := s.live[p].pid, Next(s, AFree(t, p));
            && s' == s.(pages := s.pages[pid := s.pages[pid].(free := p, used := s.pages[pid].used - 1)],
                        mem := Store(s.mem, p, s.pages[pid].free), live := s.live - {p})
  {
    hide Rep, RegionBase, PageOf;
    var v := ReachableRep(s);
    RegionOfLive(s, v, p);
  }

  /** Storing the link that is already there leaves the list as it is. */
  lemma SameList(s: State, t: Tid, pid: nat, f: seq<nat>)
    requires Reachable(s) && Owns(s, t, pid) && s.pages[pid].free != 0 && IsList(s.mem, s.pages[pid].free, f)
    ensures IsList(Store(s.mem, s.pages[pid].free, Get(s.mem, s.pages[pid].free)), s.pages[pid].free, f)
  {
    hide Rep, PageOk, Store, IsList;
    var v := ReachableRep(s);
    AuthorityUnique(s, v, t, t, pid);
    PageFacts(s, v, pid);
    var pg, pv := s.pages[pid], v[pid];
    PageFree(pid, pg, pv, s.mem, f);
    Emptiness(s.mem, pg.free, f);
    StoreBlock(pid, pg, pv, s.mem, pg.free, Get(s.mem, pg.free));
    ListFrame(s.mem, Store(s.mem, pg.free, Get(s.mem, pg.free)), pg.free, f);
  }

  lemma PageFree(pid: nat, pg: Page, pv: PageView, m: Mem, f: seq<nat>)
    requires pg.inUse && PageOk(pid, pg, pv, m) && IsList(m, pg.free, f)
    ensures f == pv.free && forall x :: x in f ==> x in Held(pv)
  {
    ListUnique(m, pg.free, f, pv.free);
  }

  // ---------------------------------------------------------------- a block's way back to its owner

  /** Page pid with block p, freed by thread t, parked in front of what was there. */
  ghost predicate Parked(s: State, s': State, t: Tid, pid: nat, p: nat) {
    && pid in s.pages && PcOf(s', t) == Idle && (forall u: Tid :: u != t ==> PcOf(s', u) == PcOf(s, u))
    && s' == s.(pages := s.pages[pid := s.pages[pid].(threadFree := p)], live := s.live - {p},
                mem := Store(s.mem, p, s.pages[pid].threadFree), pc := s'.pc)
  }

  lemma RemoteEffect(s: State, t: Tid, p: nat)
    requires Reachable(s) && CanFree(s, t, p) && s.live[p].Small? && !Owns(s, t, s.live[p].pid) && Safe(s, AFree(t, p))
    ensures var pid, s' := s.live[p].pid, Next(s, AFree(t, p));
            pid in s.pages && s' == s.(live := s.live - {p}, pc := s.pc[t := Freeing(pid, p)])
  {
    hide Rep, RegionBase, PageOf;
    var v := ReachableRep(s);
    RegionOfLive(s, v, p);
    LiveHome(s, v, p);
    NullIsNoOwner(s, v, t, s.live[p].pid);
  }

  lemma LoadEffect(s: State, t: Tid)
    requires CanLoad(s, t) && Safe(s, ALoad(t))
    ensures var c, s' := PcOf(s, t), Next(s, ALoad(t));
            c.pid in s.pages && s' == s.(pc := s.pc[t := Loaded(c.pid, c.b, s.pages[c.pid].threadFree)])
  {
  }

  lemma LinkEffect(s: State, t: Tid)
    requires CanLink(s, t) && Safe(s, ALink(t))
    ensures var c, s' := PcOf(s, t), Next(s, ALink(t));
            s' == s.(mem := Store(s.mem, c.b, c.head), pc := s.pc[t := Linked(c.pid, c.b, c.head)])
  {
    hide Store;
  }

  lemma WinEffect(s: State, t: Tid)
    requires CanCas(s, t) && Safe(s, ACas(t, false)) && Pg(s, PcOf(s, t).pid).threadFree == PcOf(s, t).head
    ensures var c, s' := PcOf(s, t), Next(s, ACas(t, false));
            c.pid in s.pages
            && s' == s.(pages := s.pages[c.pid := s.pages[c.pid].(threadFree := c.b)], pc := s.pc[t := Idle])
  {
  }

  /** heap_free by a thread that does not own the page, undisturbed: four steps, and the block is parked. */
  lemma RemoteAlone(s: State, t: Tid, p: nat) returns (s': State)
    requires Reachable(s) && Ready(s, t) && p in s.live && s.live[p].Small? && !Owns(s, t, s.live[p].pid)
    ensures Alone(s, [AFree(t, p), ALoad(t), ALink(t), ACas(t, false)], t, s') && Reachable(s')
    ensures Parked(s, s', t, s.live[p].pid, p)
  {
    hide Reachable, Alone, Next, Safe, Store;
    AloneStep(s, AFree(t, p));
    var s1 := Next(s, AFree(t, p));
    RemoteEffect(s, t, p);
    AloneStep(s1, ALoad(t));
    var s2 := Next(s1, ALoad(t));
    LoadEffect(s1, t);
    AloneStep(s2, ALink(t));
    var s3 := Next(s2, ALink(t));
    LinkEffect(s2, t);
    AloneStep(s3, ACas(t, false));
    s' := Next(s3, ACas(t, false));
    WinEffect(s3, t);
    FourSteps(s, AFree(t, p), s1, ALoad(t), s2, ALink(t), s3, ACas(t, false), s', t);
  }

  lemma FourSteps(s: State, a: Action, s1: State, b: Action, s2: State, c: Action, s3: State, d: Action, s4: State,
                  t: Tid)
    requires Alone(s, [a], t, s1) && Alone(s1, [b], t, s2) && Alone(s2, [c], t, s3) && Alone(s3, [d], t, s4)
    ensures Alone(s, [a, b, c, d], t, s4)
  {
    hide Alone;
    AloneThen(s, [a], s1, [b], s2, t);
    AloneThen(s, [a] + [b], s2, [c], s3, t);
    AloneThen(s, [a] + [b] + [c], s3, [d], s4, t);
    assert [a] + [b] + [c] + [d] == [a, b, c, d];
  }

  /** The store of the link of a block that was live leaves the lists of its page alone. */
  lemma ListsStay(s: State, p: nat, val: nat, l: seq<nat>, f: seq<nat>)
    requires Reachable(s) && p in s.live && s.live[p].Small? && s.live[p].pid in s.pages
    requires var pg := s.pages[s.live[p].pid]; IsList(s.mem, pg.threadFree, l) && IsList(s.mem, pg.free, f)
    ensures var pg, m := s.pages[s.live[p].pid], Store(s.mem, p, val);
            p != 0 && IsList(m, pg.threadFree, l) && IsList(m, pg.free, f)
  {
    hide Rep, PageOk, Store, IsList;
    var v := ReachableRep(s);
    var pid := s.live[p].pid;
    LiveHome(s, v, p);
    PageFacts(s, v, pid);
    PagePositive(s, v, pid);
    var pg, pv := s.pages[pid], v[pid];
    PageFree(pid, pg, pv, s.mem, f);
    PageParked(pid, pg, pv, s.mem, l);
    LiveIsNotListed(pid, pg, pv, s.mem, p);
    StoreBlock(pid, pg, pv, s.mem, p, val);
    ListFrame(s.mem, Store(s.mem, p, val), pg.free, f);
    ListFrame(s.mem, Store(s.mem, p, val), pg.threadFree, l);
  }

  lemma PageParked(pid: nat, pg: Page, pv: PageView, m: Mem, l: seq<nat>)
    requires pg.inUse && PageOk(pid, pg, pv, m) && IsList(m, pg.threadFree, l)
    ensures l == pv.pushed && forall x :: x in l ==> x in Held(pv)
  {
    ListUnique(m, pg.threadFree, l, pv.pushed);
  }

  lemma LiveIsNotListed(pid: nat, pg: Page, pv: PageView, m: Mem, p: nat)
    requires pg.inUse && PageOk(pid, pg, pv, m) && p in pv.live
    ensures p !in pv.free && p !in pv.pushed
  {
    hide PageOk;
    HeldOnce(pid, pg, pv, m);
    assert Held(pv)[p] <= 1;
  }

  /** A block freed by another thread comes back: once t has parked it and the owner u has collected, it is the first of
      the owner's free blocks, before what was parked before it and what was free, and no longer counted. */
  lemma HandBack(s: State, t: Tid, u: Tid, p: nat, l: seq<nat>, f: seq<nat>)
    returns (s1: State, more: seq<Action>, s2: State)
    requires Reachable(s) && Ready(s, t) && p in s.live && s.live[p].Small? && !Owns(s, t, s.live[p].pid)
    requires PcOf(s, u) == Idle && s.lock != Some(u) && Owns(s, u, s.live[p].pid)
    requires var pg := Pg(s, s.live[p].pid); IsList(s.mem, pg.threadFree, l) && IsList(s.mem, pg.free, f)
    ensures Alone(s, [AFree(t, p), ALoad(t), ALink(t), ACas(t, false)], t, s1) && Alone(s1, more, u, s2)
            && Reachable(s2)
    ensures var pid := s.live[p].pid;
            && pid in s.pages && pid in s2.pages && s2.live == s.live - {p}
            && s2.pages[pid] == s.pages[pid].(threadFree := 0, free := p, used := s.pages[pid].used - |l| - 1)
            && IsList(s2.mem, p, [p] + l + f)
  {
    hide Reachable, Alone, IsList, Store;
    var pid := s.live[p].pid;
    s1 := RemoteAlone(s, t, p);
    ListsStay(s, p, s.pages[pid].threadFree, l, f);
    ListPush(s1.mem, p, s.pages[pid].threadFree, l);
    more, s2 := CollectAlone(s1, u, pid, false, [p] + l, f);
  }

  // ---------------------------------------------------------------- large round trip

  lemma MapLargeEffect(s: State, t: Tid, base: nat, size: nat, align: nat, ps: nat)
    requires Reachable(s) && CanMapLarge(s, t, base, size, align, ps) && Safe(s, AMapLarge(t, base, size, align, ps))
    ensures var s', plan := Next(s, AMapLarge(t, base, size, align, ps)), LargeRegion.AllocLargePlan(size, align, ps);
            && base !in s.large && base !in s.registered && PcOf(s', t) == Mapping(base)
            && s' == s.(large := s.large[base := Large(plan.mmapSize, plan.offset, Pending(t))], mem := s'.mem,
                        bytesMapped := s.bytesMapped + plan.mmapSize, pc := s'.pc)
  {
    hide Rep, LargeRegion.AllocLargePlan, Clear;
    var v := ReachableRep(s);
    NewRegion(s, v, base, LargeRegion.AllocLargePlan(size, align, ps).mmapSize);
    NotListed(s, v, base, LargeRegion.AllocLargePlan(size, align, ps).mmapSize);
  }

  lemma NotListed(s: State, v: View, base: nat, size: nat)
    requires Rep(s, v) && Unmapped(s, base, base + size) && base !in s.large && size > 0
    ensures base !in s.registered
  {
    assert Listed(s, base);
  }

  lemma PublishEffect(s: State, t: Tid)
    requires Reachable(s) && CanPublish(s, t) && Safe(s, APublish(t))
    ensures var s', base := Next(s, APublish(t)), PcOf(s, t).base;
            var p := base + s.large[base].offset;
            && p !in s.live && PcOf(s', t) == Idle
            && p in s'.live && s'.live[p].Big? && s'.live[p].base == base && s'.live - {p} == s.live
            && s' == s.(large := s.large[base := s.large[base].(state := Published)],
                        registered := s.registered + {base}, live := s'.live, pc := s'.pc)
  {
    hide Rep;
    var v := ReachableRep(s);
    KeepPublish(s, v, t);
  }

  lemma BigEffect(s: State, t: Tid, p: nat)
    requires Reachable(s) && CanFree(s, t, p) && s.live[p].Big? && Safe(s, AFree(t, p))
    ensures var s', base := Next(s, AFree(t, p)), s.live[p].base;
            && base in s.large && PcOf(s', t) == Unmapping(base)
            && s' == s.(registered := s.registered - {base}, live := s.live - {p},
                        large := s.large[base := s.large[base].(state := Dying(t))], pc := s'.pc)
  {
    hide Rep, RegionBase, PageOf;
    var v := ReachableRep(s);
    RegionOfLive(s, v, p);
    KeepFreeLarge(s, v, t, p);
  }

  lemma UnmapEffect(s: State, t: Tid)
    requires CanUnmapLarge(s, t) && Safe(s, AUnmapLarge(t))
    ensures var s', base := Next(s, AUnmapLarge(t)), PcOf(s, t).base;
            && base in s.large && PcOf(s', t) == Idle
            && s' == s.(large := s.large - {base}, bytesMapped := s.bytesMapped - s.large[base].size, pc := s'.pc)
  {
  }

  /** A region for the request can be had: nothing overflows, and the kernel grants it at a segment-aligned base. */
  ghost predicate RegionServes(s: State, base: nat, size: nat, align: nat) {
    && 0 < size < WORD && LargeRegion.GoodAlign(align) && LargeRegion.GoodOsPage(s.osPage)
    && 0 < align <= WORD && 0 < s.osPage <= WORD && base % SEGMENT_SIZE == 0
    && var plan := LargeRegion.AllocLargePlan(size, align, s.osPage);
       plan.Plan? && Unmapped(s, base, base + plan.mmapSize)
  }

  /** A large allocation followed by its free: four steps, and apart from the bytes of the region nothing is left of
      it. */
  lemma LargeThenFree(s: State, t: Tid, base: nat, size: nat, align: nat) returns (p: nat, s': State)
    requires Reachable(s) && Ready(s, t) && RegionServes(s, base, size, align)
    ensures Alone(s, [AMapLarge(t, base, size, align, s.osPage), APublish(t), AFree(t, p), AUnmapLarge(t)], t, s')
    ensures Reachable(s') && s' == s.(mem := s'.mem, pc := s'.pc) && PcOf(s', t) == Idle && p !in s.live
    ensures p == base + LargeRegion.AllocLargePlan(size, align, s.osPage).offset
  {
    hide Reachable, Alone, LargeRegion.AllocLargePlan, Next, Safe, Unmapped;
    var ps := s.osPage;
    var a := AMapLarge(t, base, size, align, ps);
    AloneStep(s, a);
    var s1 := Next(s, a);
    MapLargeEffect(s, t, base, size, align, ps);
    AloneStep(s1, APublish(t));
    var s2 := Next(s1, APublish(t));
    PublishEffect(s1, t);
    p := base + LargeRegion.AllocLargePlan(size, align, ps).offset;
    AloneStep(s2, AFree(t, p));
    var s3 := Next(s2, AFree(t, p));
    BigEffect(s2, t, p);
    AloneStep(s3, AUnmapLarge(t));
    s' := Next(s3, AUnmapLarge(t));
    UnmapEffect(s3, t);
    FourSteps(s, a, s1, APublish(t), s2, AFree(t, p), s3, AUnmapLarge(t), s', t);
  }
}
