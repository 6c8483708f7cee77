/**
 The central heap's bookkeeping as a value: the concrete links and counters together with the lists and
 sets they stand for. Each quantifier of the invariant is about one segment or one page.
 */
module Books {
  import opened Layout
  import opened Memory
  import opened Blocks
  import opened Lists
  import opened Machine

  datatype Books = Books(
    segHead: nat, segNext: map<nat, nat>,                                           // all segments
    availHead: nat, availNext: map<nat, nat>, availPrev: map<nat, nat>, inAvail: map<nat, bool>,
    freeList: map<nat, nat>, freeCount: map<nat, nat>,                              // per-segment pools
    abandHead: nat,
    numSegments: int, freeSegments: int, freePageCount: int, pagesInUse: int, abandonedCount: int,
    registered: set<nat>, segmentBytes: int,                                        // registry and OS account
    ghost next: map<nat, nat>, ghost hdr: map<nat, Page>,                           // the page headers, kept elsewhere
    ghost segs: seq<nat>, ghost avail: seq<nat>, ghost pool: map<nat, seq<nat>>, ghost aband: seq<nat>,
        ghost owned: set<nat>)

  ghost function PoolOf(b: Books, s: nat): seq<nat> { if s in b.pool then b.pool[s] else [] }

  /** A segment's header fields exist, and its base is registered, exactly while it is mapped. */
  ghost predicate SegKeys(b: Books, x: nat) {
    && (x in b.segNext <==> x in b.pool) && (x in b.availNext <==> x in b.pool) && (x in b.availPrev <==> x in b.pool)
    && (x in b.inAvail <==> x in b.pool) && (x in b.freeList <==> x in b.pool) && (x in b.freeCount <==> x in b.pool)
    && (x in b.segs <==> x in b.pool) && (x in b.avail ==> x in b.pool)
    && (x * SEGMENT_SIZE in b.registered <==> x in b.pool) && (x in b.registered ==> x % SEGMENT_SIZE == 0)
  }

  ghost predicate KeysOk(b: Books) {
    forall x: nat {:trigger SegKeys(b, x)} :: SegKeys(b, x)
  }

  ghost predicate ListsOk(b: Books) {
    && IsList(b.segNext, b.segHead, b.segs)
    && DList(b.availNext, b.availPrev, b.availHead, b.avail)
    && IsList(b.next, b.abandHead, b.aband)
  }

  ghost predicate PooledIn(b: Books, seg: nat, x: nat) { x in b.hdr && SegmentOfPage(x) == seg }

  /** A segment's pool is the list its header spells out, and it is on the available list iff the pool is not empty. */
  ghost predicate SegAt(b: Books, seg: nat) {
    && seg > 0 && seg in b.pool && seg in b.freeList && seg in b.freeCount && seg in b.inAvail
    && IsList(b.next, b.freeList[seg], b.pool[seg]) && b.freeCount[seg] == |b.pool[seg]|
    && (b.inAvail[seg] <==> seg in b.avail) && (seg in b.avail <==> b.pool[seg] != [])
    && (forall x :: x in b.pool[seg] ==> PooledIn(b, seg, x))
  }

  /** A usable page of a mapped segment is pooled, abandoned or owned, as its header says; the page `hole`, in the
      middle of changing hands, is none of these. */
  ghost predicate PageHome(b: Books, pid: nat, hole: nat) {
    && (pid in b.hdr <==> SegmentOfPage(pid) in b.pool && Usable(pid)) && (pid in b.next <==> pid in b.hdr)
    && (pid in b.owned || pid in b.aband ==> pid in b.hdr)
    && (pid in b.hdr ==>
          && (pid in b.owned <==> pid != hole && b.hdr[pid].inUse && b.hdr[pid].owner != ABANDONED)
          && (pid in b.aband <==> pid != hole && b.hdr[pid].inUse && b.hdr[pid].owner == ABANDONED)
          && (pid in b.pool[SegmentOfPage(pid)] <==> pid != hole && !b.hdr[pid].inUse))
  }

  ghost function PoolSet(hdr: map<nat, Page>, hole: nat): set<nat> {
    set p | p in hdr && !hdr[p].inUse && p != hole
  }

  ghost function IdleSet(pool: map<nat, seq<nat>>): set<nat> {
    set s | s in pool && |pool[s]| == USABLE_PAGES
  }

  /** Each counter is the size of what it counts. */
  ghost predicate CountsOk(b: Books, hole: nat) {
    && b.numSegments == |b.segs| && b.abandonedCount == |b.aband| && b.pagesInUse == |b.owned|
    && b.freePageCount == |PoolSet(b.hdr, hole)| && b.freeSegments == |IdleSet(b.pool)|
    && b.segmentBytes == SEGMENT_SIZE * |b.segs|
  }

  ghost predicate Ok(b: Books, hole: nat) {
    && KeysOk(b) && ListsOk(b) && CountsOk(b, hole)
    && (forall seg {:trigger SegAt(b, seg)} :: seg in b.pool ==> SegAt(b, seg))
    && (forall pid: nat {:trigger PageHome(b, pid, hole)} :: PageHome(b, pid, hole))
  }

  // ---------------------------------------------------------------- a segment's pages

  function PagesOf(seg: nat): set<nat> {
    set p | seg * PAGES_PER_SEGMENT <= p < (seg + 1) * PAGES_PER_SEGMENT && Usable(p)
  }

  lemma PagesOfMeaning(seg: nat, p: nat)
    ensures p in PagesOf(seg) <==> SegmentOfPage(p) == seg && Usable(p)
  {
  }

  predicate Between(lo: nat, n: nat, x: nat) { lo <= x < lo + n }

  function Interval(lo: nat, n: nat): set<nat> { set x | lo <= x < lo + n && Between(lo, n, x) }

  lemma {:induction false} IntervalSize(lo: nat, n: nat)
    ensures |Interval(lo, n)| == n
    decreases n
  {
    if n > 0 {
      IntervalSize(lo, n - 1);
      assert Interval(lo, n) == Interval(lo, n - 1) + {lo + n - 1};
    } else {
      assert Interval(lo, n) == {};
    }
  }

  lemma PagesOfSize(seg: nat)
    ensures |PagesOf(seg)| == USABLE_PAGES
  {
    var lo := seg * PAGES_PER_SEGMENT + 1;
    IntervalSize(lo, USABLE_PAGES);
    assert PagesOf(seg) == Interval(lo, USABLE_PAGES);
  }

  /** A pool of 63 pages is the whole segment: none of its pages is in use. */
  lemma IdleIsPooled(b: Books, seg: nat, pid: nat)
    requires SegAt(b, seg) && |b.pool[seg]| == USABLE_PAGES && SegmentOfPage(pid) == seg && Usable(pid)
    requires forall q: nat {:trigger PageHome(b, q, 0)} :: PageHome(b, q, 0)
    ensures pid in b.pool[seg] && pid in b.hdr && !b.hdr[pid].inUse
  {
    var s := b.pool[seg];
    ListDistinct(b.next, b.freeList[seg], s);
    ElemsSize(s);
    PagesOfSize(seg);
    forall x | x in Elems(s) ensures x in PagesOf(seg) {
      assert PooledIn(b, seg, x) && PageHome(b, x, 0);
      PagesOfMeaning(seg, x);
    }
    SubsetSameSize(Elems(s), PagesOf(seg));
    PagesOfMeaning(seg, pid);
    assert PageHome(b, pid, 0);
  }

  lemma SubsetSameSize(a: set<nat>, b: set<nat>)
    requires a <= b && |a| == |b|
    ensures a == b
  {
    assert |b - a| == |b| - |a|;
    assert b == a + (b - a);
  }

  // ---------------------------------------------------------------- conservation

  ghost function AllPages(segs: seq<nat>): set<nat> {
    if segs == [] then {} else PagesOf(segs[0]) + AllPages(segs[1..])
  }

  lemma {:induction false} AllPagesMeaning(segs: seq<nat>, p: nat)
    ensures p in AllPages(segs) <==> SegmentOfPage(p) in segs && Usable(p)
  {
    if segs != [] {
      PagesOfMeaning(segs[0], p);
      AllPagesMeaning(segs[1..], p);
      assert segs == [segs[0]] + segs[1..];
    }
  }

  lemma {:induction false} AllPagesSize(segs: seq<nat>)
    requires Distinct(segs)
    ensures |AllPages(segs)| == USABLE_PAGES * |segs|
  {
    if segs != [] {
      AllPagesSize(segs[1..]);
      PagesOfSize(segs[0]);
      forall p | p in PagesOf(segs[0]) && p in AllPages(segs[1..]) ensures false {
        PagesOfMeaning(segs[0], p);
        AllPagesMeaning(segs[1..], p);
      }
      assert PagesOf(segs[0]) !! AllPages(segs[1..]);
    }
  }

  /** Free pages, pages in use and abandoned pages add up to the usable pages of the mapped segments. */
  lemma PagesConserved(b: Books)
    requires Ok(b, 0)
    ensures b.freePageCount + b.pagesInUse + b.abandonedCount == USABLE_PAGES * b.numSegments
  {
    ListDistinct(b.segNext, b.segHead, b.segs);
    ListDistinct(b.next, b.abandHead, b.aband);
    ElemsSize(b.aband);
    AllPagesSize(b.segs);
    forall p: nat ensures p in AllPages(b.segs) <==> p in b.hdr {
      AllPagesMeaning(b.segs, p);
      assert PageHome(b, p, 0) && SegKeys(b, SegmentOfPage(p));
    }
    assert b.hdr.Keys == AllPages(b.segs);
    forall p: nat ensures p in b.hdr ==> OnePlace(p, PoolSet(b.hdr, 0), b.owned, Elems(b.aband))
      ensures p in b.owned || p in Elems(b.aband) ==> p in b.hdr
    {
      assert PageHome(b, p, 0) && PageHome(b, 0, 0);
    }
    Partition3(b.hdr.Keys, PoolSet(b.hdr, 0), b.owned, Elems(b.aband));
  }

  predicate OnePlace(p: nat, x: set<nat>, y: set<nat>, z: set<nat>) {
    (p in x && p !in y && p !in z) || (p !in x && p in y && p !in z) || (p !in x && p !in y && p in z)
  }

  lemma Partition3(all: set<nat>, x: set<nat>, y: set<nat>, z: set<nat>)
    requires x <= all && y <= all && z <= all && forall p :: p in all ==> OnePlace(p, x, y, z)
    ensures |all| == |x| + |y| + |z|
  {
    assert all == x + y + z;
    assert x !! y && x + y !! z;
    assert |x + y| == |x| + |y|;
    assert |x + y + z| == |x + y| + |z|;
  }

  // ---------------------------------------------------------------- full reclamation

  lemma PoolIsWhole(b: Books, seg: nat)
    requires Ok(b, 0) && b.owned == {} && b.aband == [] && seg in b.pool
    ensures |b.pool[seg]| == USABLE_PAGES
  {
    assert SegAt(b, seg);
    ListDistinct(b.next, b.freeList[seg], b.pool[seg]);
    ElemsSize(b.pool[seg]);
    PagesOfSize(seg);
    forall p: nat ensures p in PagesOf(seg) <==> p in Elems(b.pool[seg]) {
      PagesOfMeaning(seg, p);
      assert PageHome(b, p, 0) && PageHome(b, 0, 0);
      assert p in b.pool[seg] ==> PooledIn(b, seg, p);
    }
    assert PagesOf(seg) == Elems(b.pool[seg]);
  }

  /** When no heap owns a page and none is abandoned, every mapped segment is idle. */
  lemma NothingInUse(b: Books)
    requires Ok(b, 0) && b.owned == {} && b.aband == []
    ensures b.numSegments == b.freeSegments
  {
    forall seg | seg in b.pool ensures seg in IdleSet(b.pool) { PoolIsWhole(b, seg); }
    forall x: nat ensures x in b.segs <==> x in IdleSet(b.pool) { assert SegKeys(b, x); }
    ListDistinct(b.segNext, b.segHead, b.segs);
    ElemsSize(b.segs);
    assert Elems(b.segs) == IdleSet(b.pool);
  }
}
