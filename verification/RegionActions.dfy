/**
 The remaining actions keep the invariant: thread start and exit, the central heap's work
 under its lock, large regions, client writes and registry table growth.
 */
module RegionActions {
  import opened Layout
  import opened Memory
  import opened Blocks
  import opened Machine
  import opened Invariant
  import opened PageSteps
  import opened OnePage
  import opened BlockActions
  import opened TableSize
  import LargeRegion

  // ---------------------------------------------------------------- control state only

  ghost predicate SameMemory(s: State, s': State) {
    && s'.pages == s.pages && s'.segs == s.segs && s'.mem == s.mem && s'.live == s.live
    && s'.large == s.large && s'.registered == s.registered && s'.pc == s.pc && s'.heapBytes == s.heapBytes
  }

  lemma ControlKeep(s: State, s': State, v: View)
    requires Rep(s, v) && SameMemory(s, s') && OwnersOk(s') && BytesOk(s')
    requires forall t: Tid {:trigger PcOk(s', v, t)} :: PcOf(s, t).Walking? ==> PcOk(s', v, t)
    ensures Rep(s', v)
  {
    forall q: nat ensures Mapped(s', q) && (q in s'.pages ==> PageAt(s', v, q)) && (q in v ==> HoldersOk(s', v, q)) {
      assert Mapped(s, q) && (q in s.pages ==> PageAt(s, v, q)) && (q in v ==> HoldersOk(s, v, q));
    }
    forall t: Tid ensures PcOk(s', v, t) {
      assert PcOk(s, v, t);
    }
    ControlLive(s, s', v);
    ControlRegions(s, s', v);
    RegistryFrame(s, s');
    forall a, b ensures OneIdle(s', a, b) {
      assert OneIdle(s, a, b);
    }
  }

  lemma ControlLive(s: State, s': State, v: View)
    requires LiveOk(s, v) && s'.pages == s.pages && s'.live == s.live && s'.large == s.large
    ensures LiveOk(s', v)
  {
    forall p | p in s'.live ensures LivePtrOk(s', v, p) {
      assert LivePtrOk(s, v, p);
    }
    forall q, p | q in v && p in v[q].live ensures LiveBlockOk(s', q, p) {
      assert LiveBlockOk(s, q, p);
    }
    forall b | b in s'.large && s'.large[b].state == Published ensures PublishedOk(s', b) {
      assert PublishedOk(s, b);
    }
  }

  lemma ControlRegions(s: State, s': State, v: View)
    requires RegionsOk(s) && SameMemory(s, s')
    ensures RegionsOk(s')
  {
    forall b | b in s'.large ensures LargeOk(s', b) {
      assert LargeOk(s, b);
    }
    ApartFrame(s, s');
  }

  lemma ApartFrame(s: State, s': State)
    requires RegionsOk(s) && s'.segs <= s.segs && s'.large.Keys <= s.large.Keys
    requires forall b :: b in s'.large ==> s'.large[b].size == s.large[b].size
    ensures forall seg {:trigger SegmentOk(seg)} :: seg in s'.segs ==> SegmentOk(seg)
    ensures forall seg, b {:trigger SegmentApart(s', seg, b)} :: seg in s'.segs && b in s'.large ==>
            SegmentApart(s', seg, b)
    ensures forall b, c {:trigger LargeApart(s', b, c)} :: b in s'.large && c in s'.large && b != c ==>
            LargeApart(s', b, c)
  {
    forall seg, b | seg in s'.segs && b in s'.large ensures SegmentApart(s', seg, b) {
      assert SegmentApart(s, seg, b);
    }
    forall b, c | b in s'.large && c in s'.large && b != c ensures LargeApart(s', b, c) {
      assert LargeApart(s, b, c);
    }
  }

  lemma CreateHeapOwners(s: State, t: Tid, h: nat)
    requires OwnersOk(s) && CanCreateHeap(s, t, h)
    ensures OwnersOk(CreateHeap(s, t, h))
  {
    var s' := CreateHeap(s, t, h);
    assert ThreadHeapOk(s, t) && HeapOk(s, HeapOf(s, t));
    forall q: nat ensures StampOk(s', q) && HeapOk(s', q) && ThreadHeapOk(s', q) {
      assert StampOk(s, q) && HeapOk(s, q) && ThreadHeapOk(s, q);
    }
  }

  /** One heap more or less changes the byte count by one heap. */
  lemma HeapBytes(s: State, s': State, h: nat)
    requires h !in s.heaps && s'.heaps.Keys == s.heaps.Keys + {h}
    requires s'.segs == s.segs && s'.large == s.large && s'.osPage == s.osPage && s'.tableCap == s.tableCap
             && s'.heapBytes == s.heapBytes
    requires s'.bytesMapped == s.bytesMapped + s.heapBytes
    ensures BytesOk(s) <==> BytesOk(s')
  {
    assert |s'.heaps.Keys| == |s.heaps.Keys| + 1;
    assert |s'.heaps| == |s.heaps| + 1;
    Distribute(s.heapBytes, |s.heaps|);
  }

  /** No page carries a stamp that is neither null, nor the abandoned tag, nor a live heap. */
  lemma StampIsLive(s: State, v: View, h: nat)
    requires Rep(s, v) && h > ABANDONED && h !in s.heaps
    ensures NobodyStamped(s.pages, h)
  {
    forall pid | pid in s.pages ensures s.pages[pid].owner != h {
      assert StampOk(s, pid) && PageAt(s, v, pid);
    }
  }

  /** A new heap, also at the address of a heap that has gone: no page is stamped with it yet. */
  lemma KeepCreateHeap(s: State, v: View, t: Tid, h: nat)
    requires Rep(s, v) && CanCreateHeap(s, t, h)
    ensures Rep(CreateHeap(s, t, h), v) && NobodyStamped(CreateHeap(s, t, h).pages, h)
  {
    hide BytesOk;
    StampIsLive(s, v, h);
    var s' := CreateHeap(s, t, h);
    CreateHeapOwners(s, t, h);
    HeapBytes(s, s', h);
    forall u: Tid | PcOf(s, u).Walking? ensures PcOk(s', v, u) {
      assert PcOk(s, v, u);
    }
    ControlKeep(s, s', v);
  }

  lemma Distribute(a: nat, n: nat)
    ensures a * (n + 1) == a * n + a
  {
  }

  lemma KeepBeginExit(s: State, v: View, t: Tid)
    requires Rep(s, v) && CanBeginExit(s, t)
    ensures Rep(BeginExit(s, t), v)
  {
    var s' := BeginExit(s, t);
    forall q: nat ensures StampOk(s', q) && HeapOk(s', q) && ThreadHeapOk(s', q) {
      assert StampOk(s, q) && HeapOk(s, q) && ThreadHeapOk(s, q);
    }
    forall u: Tid | PcOf(s, u).Walking? ensures PcOk(s', v, u) {
      assert PcOk(s, v, u);
    }
    ControlKeep(s, s', v);
  }

  lemma EndExitOwners(s: State, t: Tid)
    requires OwnersOk(s) && CanEndExit(s, t)
    ensures OwnersOk(EndExit(s, t)) && HeapOf(s, t) in s.heaps
  {
    var s', h := EndExit(s, t), HeapOf(s, t);
    assert ThreadHeapOk(s, t) && HeapOk(s, h);
    forall q: nat ensures StampOk(s', q) && HeapOk(s', q) && ThreadHeapOk(s', q) {
      assert StampOk(s, q) && HeapOk(s, q) && ThreadHeapOk(s, q);
      assert q in s.heapOf ==> HeapOk(s, s.heapOf[q]);
    }
  }

  /** When heap_destroy has worked off every class list its heap goes, and no page is left stamped with it. */
  lemma KeepEndExit(s: State, v: View, t: Tid)
    requires Rep(s, v) && CanEndExit(s, t)
    ensures Rep(EndExit(s, t), v) && HeapOf(s, t) in s.heaps && HeapOf(s, t) !in EndExit(s, t).heaps
    ensures NobodyStamped(EndExit(s, t).pages, HeapOf(s, t))
  {
    hide BytesOk;
    var s', h := EndExit(s, t), HeapOf(s, t);
    EndExitOwners(s, t);
    HeapBytes(s', s, h);
    forall u: Tid | PcOf(s, u).Walking? ensures PcOk(s', v, u) {
      assert PcOk(s, v, u);
    }
    ControlKeep(s, s', v);
  }

  lemma KeepLockState(s: State, v: View, t: Tid, s': State)
    requires Rep(s, v) && PcOf(s, t) == Idle && (s.lock == None || s.lock == Some(t))
    requires s' == s.(lock := s'.lock)
    ensures Rep(s', v)
  {
    forall q: nat ensures StampOk(s', q) && HeapOk(s', q) && ThreadHeapOk(s', q) {
      assert StampOk(s, q) && HeapOk(s, q) && ThreadHeapOk(s, q);
    }
    forall u: Tid | PcOf(s, u).Walking? ensures PcOk(s', v, u) {
      assert PcOk(s, v, u);
    }
    ControlKeep(s, s', v);
  }

  /** Registered bases are segment-aligned words. */
  lemma RegisteredBase(s: State, v: View, x: nat)
    requires Rep(s, v) && x in s.registered
    ensures x % SEGMENT_SIZE == 0 && x < WORD
  {
    assert Listed(s, x);
    if IsSegmentBase(s, x) {
      assert SegmentOk(x / SEGMENT_SIZE);
    } else {
      assert LargeOk(s, x);
    }
  }

  lemma RegrowBytes(s: State, v: View)
    requires Rep(s, v)
    ensures BytesOk(Regrow(s))
  {
    hide SlotsBytes;
    forall x | x in s.registered ensures x % SEGMENT_SIZE == 0 && x < WORD { RegisteredBase(s, v, x); }
    NextCapBounded(s.tableCap, s.registered);
  }

  /** Replacing the registry's table keeps the account exact, whatever the capacities. */
  lemma KeepRegrow(s: State, v: View)
    requires Rep(s, v)
    ensures Rep(Regrow(s), v)
  {
    hide BytesOk, TableBytes, TableAfter;
    RegrowBytes(s, v);
    var s' := Regrow(s);
    forall q: nat ensures StampOk(s', q) && HeapOk(s', q) && ThreadHeapOk(s', q) {
      assert StampOk(s, q) && HeapOk(s, q) && ThreadHeapOk(s, q);
    }
    forall u: Tid | PcOf(s, u).Walking? ensures PcOk(s', v, u) {
      assert PcOk(s, v, u);
    }
    ControlKeep(s, s', v);
  }

  // ---------------------------------------------------------------- one page header changes hands

  ghost predicate RepNoCache(s: State, v: View) {
    && Domains(s, v) && PagesOk(s, v) && LiveOk(s, v) && ThreadsOk(s, v)
    && OwnersOk(s) && RegionsOk(s) && RegistryOk(s) && BytesOk(s)
  }

  /** Nobody is collecting the page, and its blocks outside the lists stay where they are. */
  ghost predicate Restamps(s: State, s': State, v: View, pg': Page, pv': PageView, pid: nat) {
    && pid in s.pages && pid in v && s' == s.(pages := s.pages[pid := pg'])
    && v[pid].walker.None? && pv'.walker.None? && pv'.taken == []
    && pv'.flight == v[pid].flight && pv'.live == v[pid].live
    && (pv'.live != {} ==> pg'.blockSize == s.pages[pid].blockSize)
  }

  lemma RestampKeep(s: State, s': State, v: View, pg': Page, pv': PageView, pid: nat)
    requires Rep(s, v) && Restamps(s, s', v, pg', pv', pid) && PageOk(pid, pg', pv', s.mem) && StampOk(s', pid)
    ensures RepNoCache(s', v[pid := pv'])
  {
    hide PageOk;
    var v' := v[pid := pv'];
    forall q: nat ensures Mapped(s', q) && StampOk(s', q) && HeapOk(s', q) && ThreadHeapOk(s', q) {
      assert Mapped(s, q) && StampOk(s, q) && HeapOk(s, q) && ThreadHeapOk(s, q);
    }
    forall q | q in s'.pages ensures PageAt(s', v', q) {
      assert PageAt(s, v, q);
    }
    RestampThreads(s, s', v, pg', pv', pid);
    RestampLive(s, s', v, pg', pv', pid);
    RegistryFrame(s, s');
    forall b | b in s'.large ensures LargeOk(s', b) {
      assert LargeOk(s, b);
    }
    ApartFrame(s, s');
  }

  lemma RestampThreads(s: State, s': State, v: View, pg': Page, pv': PageView, pid: nat)
    requires ThreadsOk(s, v) && v.Keys == s.pages.Keys && Restamps(s, s', v, pg', pv', pid)
    ensures ThreadsOk(s', v[pid := pv'])
  {
    var v' := v[pid := pv'];
    forall t: Tid ensures PcOk(s', v', t) {
      assert PcOk(s, v, t);
    }
    forall q | q in v' ensures HoldersOk(s', v', q) {
      assert HoldersOk(s, v, q);
    }
  }

  lemma RestampLive(s: State, s': State, v: View, pg': Page, pv': PageView, pid: nat)
    requires LiveOk(s, v) && v.Keys == s.pages.Keys && Restamps(s, s', v, pg', pv', pid)
    ensures LiveOk(s', v[pid := pv'])
  {
    var v' := v[pid := pv'];
    forall p | p in s'.live ensures LivePtrOk(s', v', p) {
      assert LivePtrOk(s, v, p);
    }
    forall q, p | q in v' && p in v'[q].live ensures LiveBlockOk(s', q, p) {
      assert LiveBlockOk(s, q, p);
    }
    forall b | b in s'.large && s'.large[b].state == Published ensures PublishedOk(s', b) {
      assert PublishedOk(s, b);
    }
  }

  lemma FreeMonotone(s: State, s': State, pid: nat, pg': Page, seg: nat)
    requires pid in s.pages && s'.pages == s.pages[pid := pg'] && (s.pages[pid].inUse ==> pg'.inUse)
    ensures FullyFree(s'.pages, seg) ==> FullyFree(s.pages, seg)
  {
    if FullyFree(s'.pages, seg) {
      forall q | q in s.pages && SegmentOfPage(q) == seg ensures !s.pages[q].inUse {
        assert !s'.pages[q].inUse;
      }
    }
  }

  lemma CacheShrinks(s: State, s': State, pid: nat, pg': Page)
    requires CacheOk(s) && pid in s.pages && s'.pages == s.pages[pid := pg'] && s'.segs == s.segs
    requires s.pages[pid].inUse ==> pg'.inUse
    ensures CacheOk(s')
  {
    forall a, b ensures OneIdle(s', a, b) {
      assert OneIdle(s, a, b);
      FreeMonotone(s, s', pid, pg', a);
      FreeMonotone(s, s', pid, pg', b);
    }
  }

  lemma KeepAcquire(s: State, v: View, t: Tid, pid: nat, size: nat, cls: nat) returns (v': View)
    requires Rep(s, v) && CanAcquire(s, t, pid, size, cls)
    ensures Rep(Acquire(s, t, pid, size, cls), v')
    ensures s.pages[pid].threadFree == 0 && pid in v && v[pid] == NO_BLOCKS
  {
    hide Rep;
    PageFacts(s, v, pid);
    var s' := Acquire(s, t, pid, size, cls);
    var pg' := s'.pages[pid];
    v' := v[pid := NO_BLOCKS];
    EmptyPage(pid, pg', s.mem);
    OwnerStamp(s, v, t);
    RestampKeep(s, s', v, pg', NO_BLOCKS, pid);
    CacheFact(s, v);
    CacheShrinks(s, s', pid, pg');
    assert Rep(s', v') by { Assemble(s', v'); }
  }

  lemma Assemble(s: State, v: View)
    requires RepNoCache(s, v) && CacheOk(s)
    ensures Rep(s, v)
  {
  }

  lemma CacheFact(s: State, v: View)
    requires Rep(s, v)
    ensures CacheOk(s)
  {
  }

  lemma OwnerStamp(s: State, v: View, t: Tid)
    requires Rep(s, v)
    ensures HeapOf(s, t) != 0 ==> HeapOf(s, t) in s.heaps && HeapOf(s, t) > ABANDONED
  {
    assert ThreadHeapOk(s, t) && HeapOk(s, HeapOf(s, t));
  }

  /** A page just handed to a class holds no block yet. */
  lemma EmptyPage(pid: nat, pg: Page, m: Mem)
    requires pg.inUse && GoodSize(pg.blockSize) && pg.capacity == PAGE_SIZE / pg.blockSize && pg.owner != 0
    requires pg.reserved == 0 && pg.used == 0 && pg.free == 0 && pg.threadFree == 0
    ensures PageOk(pid, pg, NO_BLOCKS, m)
  {
    assert Carved(pid, pg) == [];
    assert Held(NO_BLOCKS) == multiset{};
  }

  lemma KeepAbandon(s: State, v: View, t: Tid, pid: nat) returns (v': View)
    requires Rep(s, v) && CanAbandon(s, t, pid)
    ensures Rep(Abandon(s, pid), v')
  {
    hide Rep;
    PageFacts(s, v, pid);
    NoWalker(s, v, t, pid);
    AuthorityUnique(s, v, t, t, pid);
    var s' := Abandon(s, pid);
    var pg' := s'.pages[pid];
    v' := v[pid := v[pid]];
    RestampKeep(s, s', v, pg', v[pid], pid);
    CacheFact(s, v);
    CacheShrinks(s, s', pid, pg');
    Assemble(s', v');
  }

  // ---------------------------------------------------------------- pages to the pool, segments to the kernel

  /** A page whose counter is zero has every block on its local free list and nobody near it. */
  lemma DrainedPage(s: State, v: View, t: Tid, pid: nat)
    requires Rep(s, v) && Authority(s, t, pid) && PcOf(s, t) == Idle && s.pages[pid].used == 0
    ensures pid in v && v[pid].live == {} && v[pid].flight == map[] && v[pid].pushed == [] && v[pid].taken == []
    ensures v[pid].walker == None && s.pages[pid].threadFree == 0
    ensures v[pid].free == [] ==> s.pages[pid].free == 0
  {
    hide Rep;
    PageFacts(s, v, pid);
    AuthorityUnique(s, v, t, t, pid);
    NoWalker(s, v, t, pid);
  }

  lemma KeepPooled(s: State, v: View, t: Tid, pid: nat) returns (v': View)
    requires Rep(s, v) && Authority(s, t, pid) && PcOf(s, t) == Idle && s.pages[pid].used == 0
    ensures v' == v[pid := NO_BLOCKS] && RepNoCache(Pooled(s, pid), v')
  {
    hide Rep;
    DrainedPage(s, v, t, pid);
    var s' := Pooled(s, pid);
    v' := v[pid := NO_BLOCKS];
    RestampKeep(s, s', v, s'.pages[pid], NO_BLOCKS, pid);
  }

  function DropSegment(v: View, seg: nat): View {
    map p | p in v && SegmentOfPage(p) != seg :: v[p]
  }

  /** No thread has anything in a page that is in the pool. */
  lemma PooledIsQuiet(s: State, v: View, seg: nat, pid: nat)
    requires PagesOk(s, v) && FullyFree(s.pages, seg) && pid in s.pages && SegmentOfPage(pid) == seg
    ensures pid in v && v[pid] == NO_BLOCKS
  {
    assert PageAt(s, v, pid);
  }

  lemma UnmapThreads(s: State, v: View, seg: nat)
    requires ThreadsOk(s, v) && PagesOk(s, v) && v.Keys == s.pages.Keys && FullyFree(s.pages, seg)
    ensures ThreadsOk(UnmapSegment(s, seg), DropSegment(v, seg))
  {
    var s', v' := UnmapSegment(s, seg), DropSegment(v, seg);
    forall t: Tid ensures PcOk(s', v', t) {
      assert PcOk(s, v, t);
      var c := PcOf(s, t);
      if (c.Freeing? || c.Loaded? || c.Linked? || c.Walking?) && SegmentOfPage(c.pid) == seg {
        PooledIsQuiet(s, v, seg, c.pid);
      }
    }
    forall q | q in v' ensures HoldersOk(s', v', q) {
      assert HoldersOk(s, v, q);
    }
  }

  lemma UnmapLive(s: State, v: View, seg: nat)
    requires LiveOk(s, v) && PagesOk(s, v) && v.Keys == s.pages.Keys && FullyFree(s.pages, seg)
    ensures LiveOk(UnmapSegment(s, seg), DropSegment(v, seg))
  {
    var s', v' := UnmapSegment(s, seg), DropSegment(v, seg);
    forall p | p in s'.live ensures LivePtrOk(s', v', p) {
      assert LivePtrOk(s, v, p);
      if s.live[p].Small? && SegmentOfPage(s.live[p].pid) == seg {
        PooledIsQuiet(s, v, seg, s.live[p].pid);
      }
    }
    forall q, p | q in v' && p in v'[q].live ensures LiveBlockOk(s', q, p) {
      assert LiveBlockOk(s, q, p);
    }
    forall b | b in s'.large && s'.large[b].state == Published ensures PublishedOk(s', b) {
      assert PublishedOk(s, b);
    }
  }

  lemma UnmapRegions(s: State, v: View, seg: nat)
    requires RegionsOk(s) && RegistryOk(s) && BytesOk(s) && seg in s.segs
    ensures RegionsOk(UnmapSegment(s, seg)) && RegistryOk(UnmapSegment(s, seg)) && BytesOk(UnmapSegment(s, seg))
  {
    var s' := UnmapSegment(s, seg);
    forall b | b in s'.large ensures LargeOk(s', b) {
      assert LargeOk(s, b);
    }
    ApartFrame(s, s');
    forall x: nat ensures Listed(s', x) {
      assert Listed(s, x);
      if x in s.large { assert SegmentApart(s, seg, x) && LargeOk(s, x); }
    }
  }

  lemma UnmapKeep(s: State, v: View, seg: nat)
    requires RepNoCache(s, v) && seg in s.segs && FullyFree(s.pages, seg)
    ensures RepNoCache(UnmapSegment(s, seg), DropSegment(v, seg))
  {
    var s', v' := UnmapSegment(s, seg), DropSegment(v, seg);
    forall q: nat ensures Mapped(s', q) && StampOk(s', q) && HeapOk(s', q) && ThreadHeapOk(s', q) {
      assert Mapped(s, q) && StampOk(s, q) && HeapOk(s, q) && ThreadHeapOk(s, q);
    }
    forall q | q in s'.pages ensures PageAt(s', v', q) {
      assert PageAt(s, v, q);
    }
    UnmapThreads(s, v, seg);
    UnmapLive(s, v, seg);
    UnmapRegions(s, v, seg);
  }

  /** Leaving `seg` aside, at most one segment is entirely free. */
  ghost predicate OneIdleBut(s: State, seg: nat) {
    forall a, b ::
      a in s.segs && b in s.segs && a != seg && b != seg && FullyFree(s.pages, a) && FullyFree(s.pages, b) ==> a == b
  }

  lemma PooledCache(s: State, pid: nat)
    requires CacheOk(s) && pid in s.pages
    ensures OneIdleBut(Pooled(s, pid), SegmentOfPage(pid))
  {
    var s' := Pooled(s, pid);
    forall a, b | a in s.segs && b in s.segs && a != SegmentOfPage(pid) && b != SegmentOfPage(pid)
      && FullyFree(s'.pages, a) && FullyFree(s'.pages, b)
      ensures a == b
    {
      assert OneIdle(s, a, b);
      OtherSegmentSame(s, pid, a);
      OtherSegmentSame(s, pid, b);
    }
  }

  lemma OtherSegmentSame(s: State, pid: nat, seg: nat)
    requires pid in s.pages && seg != SegmentOfPage(pid) && FullyFree(Pooled(s, pid).pages, seg)
    ensures FullyFree(s.pages, seg)
  {
    forall q | q in s.pages && SegmentOfPage(q) == seg ensures !s.pages[q].inUse {
      assert !Pooled(s, pid).pages[q].inUse;
    }
  }

  lemma KeepPoolReturn(s: State, v: View, t: Tid, pid: nat) returns (v': View)
    requires Rep(s, v) && Authority(s, t, pid) && PcOf(s, t) == Idle && s.pages[pid].used == 0
    ensures Rep(PoolReturn(s, pid), v')
  {
    hide Rep, RepNoCache, Surplus, FullyFree;
    PageFacts(s, v, pid);
    CacheFact(s, v);
    var v1 := KeepPooled(s, v, t, pid);
    var s1, s', seg := Pooled(s, pid), PoolReturn(s, pid), SegmentOfPage(pid);
    PooledCache(s, pid);
    if Surplus(s1, seg) {
      v' := DropSegment(v1, seg);
      SurplusIsFree(s1, seg);
      UnmapKeep(s1, v1, seg);
      assert s' == UnmapSegment(s1, seg);
      CacheAfterUnmap(s1, seg);
    } else {
      v' := v1;
      assert s' == s1;
      CacheWithout(s1, seg);
    }
    Assemble(s', v');
  }

  lemma SurplusIsFree(s: State, seg: nat)
    requires Surplus(s, seg)
    ensures FullyFree(s.pages, seg)
  {
  }

  lemma CacheWithout(s: State, seg: nat)
    requires OneIdleBut(s, seg) && !Surplus(s, seg)
    ensures CacheOk(s)
  {
    forall a, b ensures OneIdle(s, a, b) {}
  }

  lemma CacheAfterUnmap(s: State, seg: nat)
    requires OneIdleBut(s, seg)
    ensures CacheOk(UnmapSegment(s, seg))
  {
    var s' := UnmapSegment(s, seg);
    forall a, b ensures OneIdle(s', a, b) {
      if a in s'.segs && b in s'.segs && FullyFree(s'.pages, a) && FullyFree(s'.pages, b) {
        forall q | q in s.pages && (SegmentOfPage(q) == a || SegmentOfPage(q) == b) ensures !s.pages[q].inUse {
          assert q in s'.pages && !s'.pages[q].inUse;
        }
        assert FullyFree(s.pages, a) && FullyFree(s.pages, b);
      }
    }
  }
}
