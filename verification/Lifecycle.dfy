/**
 Where the machine's runs and the classes meet over the life of a heap: a heap that starts owns nothing, one that is
 destroyed may go, and once all have gone and every block has come back a sweep returns the memory.
 */
module Lifecycle {
  import opened Layout
  import opened Memory
  import opened Blocks
  import opened Lists
  import opened Machine
  import Invariant
  import opened BlockActions
  import opened RegionActions
  import opened Safety
  import opened Protocol
  import opened PageHeaders
  import opened Books
  import opened CentralSpec
  import opened Central
  import opened SizeClasses
  import opened HeapSpec
  import opened Heaps

  // ---------------------------------------------------------------- a heap starts and ends

  /** Wherever the kernel puts a new heap, also at the address of one that has gone, no page is stamped with it. */
  lemma NewHeapOwnsNothing(s: State, t: Tid, h: nat)
    requires Reachable(s) && CanCreateHeap(s, t, h)
    ensures NobodyStamped(s.pages, h)
  {
    hide Invariant.Rep;
    var v := ReachableRep(s);
    StampIsLive(s, v, h);
  }

  /** heap_create in a state of the machine: the new thread heap is in order. */
  method CreateHeap(ghost s: State, ghost t: Tid, h: nat, c: CentralHeap, table: Table) returns (heap: ThreadHeap)
    requires Reachable(s) && CanCreateHeap(s, t, h) && c.Valid() && c.g.hdr == s.pages && Good(table, SMALL_SIZE_MAX)
    ensures fresh(heap) && heap.Valid() && heap.id == h && heap.central == c && fresh(heap.heads) && forall l ::
            l in heap.lists ==> l == []
  {
    hide Reachable, Good, CentralHeap.Valid;
    NewHeapOwnsNothing(s, t, h);
    heap := new ThreadHeap(h, c, table);
  }

  lemma ExitingHeap(s: State, v: Invariant.View, t: Tid)
    requires Invariant.Rep(s, v) && t in s.exiting
    ensures HeapOf(s, t) in s.heaps && HeapOf(s, t) > ABANDONED
  {
    assert Invariant.ThreadHeapOk(s, t) && Invariant.HeapOk(s, HeapOf(s, t));
  }

  lemma PooledStamp(s: State, v: Invariant.View, pid: nat)
    requires Invariant.Rep(s, v) && pid in s.pages && !s.pages[pid].inUse
    ensures s.pages[pid].owner == 0
  {
    assert Invariant.PageAt(s, v, pid);
  }

  /** What ThreadHeap.Destroy ensures is what the machine asks for before the heap itself is unmapped. */
  lemma DestroyedMayGo(s: State, b: Books, t: Tid)
    requires Reachable(s) && PcOf(s, t) == Idle && t in s.exiting && s.lock != Some(t)
    requires Ok(b, 0) && b.hdr == s.pages && forall q: nat :: !OwnedBy(b, HeapOf(s, t), q)
    ensures CanEndExit(s, t)
  {
    hide Invariant.Rep, Reachable;
    var v := ReachableRep(s);
    ExitingHeap(s, v, t);
    forall pid | pid in s.pages ensures s.pages[pid].owner != HeapOf(s, t) {
      assert PageHome(b, pid, 0) && !OwnedBy(b, HeapOf(s, t), pid);
      if !s.pages[pid].inUse { PooledStamp(s, v, pid); }
    }
  }

  // ---------------------------------------------------------------- everything comes back

  /** No pointer is live, every thread has gone with its heap, and nobody is inside an operation. */
  ghost predicate Quiet(s: State) {
    s.live == map[] && s.heaps == map[] && forall t: Tid :: PcOf(s, t) == Idle
  }

  lemma QuietStamp(s: State, v: Invariant.View, pid: nat)
    requires Invariant.Rep(s, v) && Quiet(s) && pid in s.pages && s.pages[pid].inUse
    ensures s.pages[pid].owner == ABANDONED
  {
    assert Invariant.StampOk(s, pid);
  }

  /** In a quiet state every page in use is abandoned, and all its blocks are on its two lists: one collection drains
      it. */
  lemma QuietMachine(s: State, pid: nat) returns (l: seq<nat>)
    requires Reachable(s) && Quiet(s) && pid in s.pages && s.pages[pid].inUse
    ensures s.pages[pid].owner == ABANDONED
    ensures IsList(s.mem, s.pages[pid].threadFree, l) && s.pages[pid].used == |l|
  {
    hide Invariant.Rep, Reachable;
    var v := ReachableRep(s);
    QuietStamp(s, v, pid);
    l := QuietPageDrains(s, pid);
  }

  /** The central heap's headers and block memory are those of the machine's state. */
  ghost predicate Images(c: CentralHeap, s: State)
    reads c, c.pages
  {
    c.Valid() && c.pages.hdr == s.pages && c.pages.mem == s.mem
  }

  lemma QuietDrains(c: CentralHeap, s: State, q: nat)
    requires Images(c, s) && Reachable(s) && Quiet(s) && q in c.g.hdr && c.g.hdr[q].inUse
    ensures c.g.hdr[q].owner == ABANDONED && Drained(c.pages.All()[q])
  {
    hide Reachable, Quiet, Ok, IsList;
    var l := QuietMachine(s, q);
    assert c.pages.PageAt(q) && c.pages.All()[q] == c.pages.Snap(q);
    ListUnique(s.mem, s.pages[q].threadFree, l, c.pages.parked[q]);
  }

  /** So the central heap has no owned page, and every abandoned page has drained. */
  lemma QuietHeap(c: CentralHeap, s: State)
    requires Images(c, s) && Reachable(s) && Quiet(s)
    ensures c.g.owned == {} && forall q :: q in c.g.aband ==> Drained(c.pages.All()[q])
  {
    hide Reachable, Quiet, Drained;
    forall q: nat ensures q !in c.g.owned && (q in c.g.aband ==> Drained(c.pages.All()[q])) {
      assert PageHome(c.g, q, 0);
      if q in c.g.hdr && c.g.hdr[q].inUse { QuietDrains(c, s, q); }
    }
  }

  /** Once every thread has exited and every block has been freed, whatever happened before, one sweep empties the
      abandoned list and leaves at most the cached segment mapped, registered and accounted, with all its pages free. */
  method SweepQuiet(c: CentralHeap, ghost s: State)
    requires Images(c, s) && Reachable(s) && Quiet(s)
    modifies c, c.pages
    ensures c.Valid() && c.g.aband == [] && c.g.owned == {} && 0 <= c.g.numSegments <= SEGMENT_CACHE
    ensures c.g.freePageCount == USABLE_PAGES * c.g.numSegments && c.g.segmentBytes == SEGMENT_SIZE * c.g.numSegments
    ensures |c.g.registered| == c.g.numSegments
  {
    hide Reachable, Quiet, Drained, Filter, SurvivorsOf, Ok, Progress;
    QuietHeap(c, s);
    ghost var aband, before := c.g.aband, c.pages.All();
    c.SweepAbandoned();
    FullReclamation(aband, before, c.g);
    RegisteredCount(c.g);
  }

  function BaseOf(seg: nat): nat { seg * SEGMENT_SIZE }

  predicate BaseIn(segs: set<nat>, x: nat) { x % SEGMENT_SIZE == 0 && x / SEGMENT_SIZE in segs }

  /** As many bases are registered, and as many segments accounted, as are mapped. */
  lemma RegisteredCount(b: Books)
    requires Ok(b, 0)
    ensures |b.registered| == b.numSegments && b.segmentBytes == SEGMENT_SIZE * b.numSegments
  {
    ListDistinct(b.segNext, b.segHead, b.segs);
    ElemsSize(b.segs);
    forall x | x in b.registered ensures BaseIn(Elems(b.segs), x) {
      assert SegKeys(b, x) && SegKeys(b, x / SEGMENT_SIZE);
    }
    forall x | x in Elems(b.segs) ensures BaseOf(x) in b.registered { assert SegKeys(b, x); }
    SameCount(b.registered, Elems(b.segs));
  }

  lemma BaseDropped(segs: set<nat>, x: nat, seg: nat)
    requires BaseIn(segs, x) && x != BaseOf(seg)
    ensures BaseIn(segs - {seg}, x)
  {
  }

  lemma {:induction false} SameCount(bases: set<nat>, segs: set<nat>)
    requires forall x :: x in bases ==> BaseIn(segs, x)
    requires forall x :: x in segs ==> BaseOf(x) in bases
    ensures |bases| == |segs|
    decreases segs
  {
    hide BaseIn;
    if segs == {} {
      forall x | x in bases ensures false { NoBase(x); }
      assert bases == {};
    } else {
      var seg :| seg in segs;
      forall x | x in bases - {BaseOf(seg)} ensures BaseIn(segs - {seg}, x) { BaseDropped(segs, x, seg); }
      forall x | x in segs - {seg} ensures BaseOf(x) in bases - {BaseOf(seg)} {}
      SameCount(bases - {BaseOf(seg)}, segs - {seg});
    }
  }

  lemma NoBase(x: nat)
    ensures !BaseIn({}, x)
  {
  }
}
