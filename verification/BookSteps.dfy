/**
 What the central heap's operations do to its books, and that each keeps the invariant.
 */
module BookSteps {
  import opened Layout
  import opened Memory
  import opened Blocks
  import opened Lists
  import opened Machine
  import opened Books

  // ---------------------------------------------------------------- headers that keep their status

  /** Owners changed block lists, counters and list links of their pages, but no page changed hands. */
  ghost predicate SameStatus(b: Books, h': map<nat, Page>, next': map<nat, nat>) {
    && (forall p: nat :: (p in h' <==> p in b.hdr) && (p in next' <==> p in b.next))
    && (forall p :: p in b.hdr ==> h'[p].inUse == b.hdr[p].inUse && h'[p].owner == b.hdr[p].owner)
    && (forall p :: p in b.hdr && p !in b.owned ==> Get(next', p) == Get(b.next, p))
  }

  /** An owner relinked pages of its own. */
  lemma RelinkStatus(b: Books, next': map<nat, nat>, l: seq<nat>)
    requires forall q :: q in l ==> q in b.owned
    requires forall q: nat :: (q in next' <==> q in b.hdr) && (q in b.next <==> q in b.hdr)
    requires forall q: nat :: q !in l ==> Get(next', q) == Get(b.next, q)
    ensures SameStatus(b, b.hdr, next')
  {
  }

  lemma StatusKeeps(b: Books, h': map<nat, Page>, next': map<nat, nat>)
    requires Ok(b, 0) && SameStatus(b, h', next')
    ensures Ok(b.(hdr := h', next := next'), 0)
  {
    var b' := b.(hdr := h', next := next');
    assert PoolSet(h', 0) == PoolSet(b.hdr, 0);
    forall pid: nat ensures PageHome(b', pid, 0) && SegKeys(b', pid) {
      assert PageHome(b, pid, 0) && SegKeys(b, pid);
    }
    forall x | x in b.aband ensures Get(next', x) == Get(b.next, x) { assert PageHome(b, x, 0); }
    ListFrame(b.next, next', b.abandHead, b.aband);
    forall seg | seg in b'.pool ensures SegAt(b', seg) {
      assert SegAt(b, seg);
      StatusSegs(b, h', next', seg);
    }
  }

  lemma StatusSegs(b: Books, h': map<nat, Page>, next': map<nat, nat>, seg: nat)
    requires SegAt(b, seg) && SameStatus(b, h', next') && forall q: nat {:trigger PageHome(b, q, 0)} ::
             PageHome(b, q, 0)
    ensures SegAt(b.(hdr := h', next := next'), seg)
  {
    var b' := b.(hdr := h', next := next');
    forall x | x in b.pool[seg] ensures PooledIn(b', seg, x) && Get(next', x) == Get(b.next, x) {
      assert PooledIn(b, seg, x) && PageHome(b, x, 0);
    }
    ListFrame(b.next, next', b.freeList[seg], b.pool[seg]);
  }

  // ---------------------------------------------------------------- pool_return: into the pool

  /** The page goes in front of its segment's pool. */
  ghost function Pushed(b: Books, pg: nat, h: Page): Books {
    var s := SegmentOfPage(pg);
    b.(hdr := b.hdr[pg := h], next := b.next[pg := Get(b.freeList, s)], freeList := b.freeList[s := pg],
       freeCount := b.freeCount[s := Get(b.freeCount, s) + 1], freePageCount := b.freePageCount + 1,
       pool := b.pool[s := [pg] + PoolOf(b, s)])
  }

  /** A segment that had no free page then joins the available list. */
  ghost function Put(b: Books, pg: nat, h: Page): Books {
    var b1 := Pushed(b, pg, h);
    if Get(b.freeCount, SegmentOfPage(pg)) == 0 then Listed(b1, SegmentOfPage(pg)) else b1
  }

  /** avail_push */
  ghost function Listed(b: Books, s: nat): Books {
    b.(availNext := PushNext(b.availNext, b.availHead, s), availPrev := PushPrev(b.availPrev, b.availHead, s),
       availHead := s, inAvail := b.inAvail[s := true], avail := [s] + b.avail)
  }

  /** Segment now entirely free: counted as idle. */
  ghost function CountIdle(b: Books, s: nat): Books {
    if Get(b.freeCount, s) == USABLE_PAGES then b.(freeSegments := b.freeSegments + 1) else b
  }

  lemma PutSegments(b: Books, pg: nat, h: Page, seg: nat)
    requires pg in b.hdr && pg > 0 && PageHome(b, pg, pg) && SegAt(b, SegmentOfPage(pg)) && seg in b.pool
             && SegAt(b, seg)
    ensures SegAt(Put(b, pg, h), seg)
  {
    hide IsList, PushNext, PushPrev;
    var s, b' := SegmentOfPage(pg), Put(b, pg, h);
    forall x | x in b.pool[seg] ensures x != pg {
      assert PooledIn(b, seg, x);
    }
    ListFrame(b.next, b'.next, b.freeList[seg], b.pool[seg]);
    if seg == s {
      ListPush(b'.next, pg, b.freeList[s], b.pool[s]);
    }
    forall x | x in b'.pool[seg] ensures PooledIn(b', seg, x) {
      if x != pg { assert PooledIn(b, seg, x); }
    }
  }

  lemma PutLists(b: Books, pg: nat, h: Page)
    requires ListsOk(b) && pg in b.hdr && PageHome(b, pg, pg) && SegAt(b, SegmentOfPage(pg))
    ensures ListsOk(Put(b, pg, h))
  {
    hide DList, PushNext, PushPrev;
    var s, next' := SegmentOfPage(pg), Put(b, pg, h).next;
    ListFrame(b.next, next', b.abandHead, b.aband);
    if s !in b.avail {
      PushOk(b.availNext, b.availPrev, b.availHead, b.avail, s);
    }
  }

  lemma PutKeys(b: Books, pg: nat, h: Page)
    requires KeysOk(b) && ListsOk(b) && SegAt(b, SegmentOfPage(pg))
    ensures KeysOk(Put(b, pg, h))
  {
    hide IsList, DList;
    var b' := Put(b, pg, h);
    HeadAvailable(b);
    assert SegKeys(b, SegmentOfPage(pg));
    forall x: nat ensures SegKeys(b', x) {
      assert SegKeys(b, x);
    }
  }

  /** The available list is empty or starts at a mapped segment. */
  lemma HeadAvailable(b: Books)
    requires KeysOk(b) && ListsOk(b)
    ensures b.availHead == At(b.avail, 0) && (b.availHead != 0 <==> b.avail != [])
            && (b.avail != [] ==> b.availHead in b.pool)
  {
    assert b.avail != [] ==> Link(b.availNext, b.avail, 0) && SegKeys(b, b.avail[0]);
  }

  /** The pool of a segment one of whose pages is elsewhere is not full. */
  lemma PoolRoom(b: Books, pg: nat)
    requires SegAt(b, SegmentOfPage(pg)) && pg in b.hdr && pg !in b.pool[SegmentOfPage(pg)]
    requires forall q: nat {:trigger PageHome(b, q, pg)} :: PageHome(b, q, pg)
    ensures |b.pool[SegmentOfPage(pg)]| < USABLE_PAGES
  {
    var s := SegmentOfPage(pg);
    var elems := Elems(b.pool[s]);
    ListDistinct(b.next, b.freeList[s], b.pool[s]);
    ElemsSize(b.pool[s]);
    PagesOfSize(s);
    forall x | x in elems + {pg} ensures x in PagesOf(s) {
      assert x in elems ==> PooledIn(b, s, x);
      assert PageHome(b, x, pg);
      PagesOfMeaning(s, x);
    }
    SubsetSmaller(elems + {pg}, PagesOf(s));
    assert |elems + {pg}| == |elems| + 1;
  }

  lemma SubsetSmaller(a: set<nat>, b: set<nat>)
    requires a <= b
    ensures |a| <= |b|
  {
    assert |b - a| == |b| - |a|;
  }

  lemma PutCounts(b: Books, pg: nat, h: Page)
    requires CountsOk(b, pg) && pg in b.hdr && 0 !in b.hdr && !h.inUse && SegAt(b, SegmentOfPage(pg))
    requires |b.pool[SegmentOfPage(pg)]| < USABLE_PAGES
    ensures CountsOk(CountIdle(Put(b, pg, h), SegmentOfPage(pg)), 0)
  {
    var s := SegmentOfPage(pg);
    PoolSetPut(b.hdr, pg, h);
    IdleSetAt(b.pool, s, [pg] + b.pool[s]);
  }

  lemma PoolSetPut(hdr: map<nat, Page>, pg: nat, h: Page)
    requires pg in hdr && 0 !in hdr && !h.inUse
    ensures |PoolSet(hdr[pg := h], 0)| == |PoolSet(hdr, pg)| + 1
  {
    assert PoolSet(hdr[pg := h], 0) == PoolSet(hdr, pg) + {pg};
  }

  /** Changing one segment's pool moves only that segment in or out of the idle ones. */
  lemma IdleSetAt(pool: map<nat, seq<nat>>, s: nat, r: seq<nat>)
    ensures var before := s in pool && |pool[s]| == USABLE_PAGES;
            var after := |r| == USABLE_PAGES;
            |IdleSet(pool[s := r])| == |IdleSet(pool)| + (if after then 1 else 0) - (if before then 1 else 0)
  {
    var rest := IdleSet(pool) - {s};
    if |r| == USABLE_PAGES {
      assert IdleSet(pool[s := r]) == rest + {s};
    } else {
      assert IdleSet(pool[s := r]) == rest;
    }
    if s in pool && |pool[s]| == USABLE_PAGES {
      assert IdleSet(pool) == rest + {s};
    } else {
      assert IdleSet(pool) == rest;
    }
  }

  lemma PutPages(b: Books, pg: nat, h: Page, q: nat)
    requires pg in b.hdr && !h.inUse && PageHome(b, pg, pg) && PageHome(b, q, pg) && SegAt(b, SegmentOfPage(pg))
    ensures PageHome(Put(b, pg, h), q, 0)
  {
  }

  lemma PagePlace(b: Books, pid: nat, hole: nat)
    requires Ok(b, hole) && pid in b.hdr
    ensures PageHome(b, pid, hole) && SegmentOfPage(pid) in b.pool && SegAt(b, SegmentOfPage(pid)) && pid > 0
            && 0 !in b.hdr
  {
    assert PageHome(b, pid, hole) && PageHome(b, 0, hole);
    assert SegAt(b, SegmentOfPage(pid));
  }

  /** Only the count of idle segments differs. */
  lemma IdleCountOnly(b: Books, n: int, hole: nat)
    requires KeysOk(b) && ListsOk(b) && CountsOk(b.(freeSegments := n), hole)
    requires forall seg {:trigger SegAt(b, seg)} :: seg in b.pool ==> SegAt(b, seg)
    requires forall pid: nat {:trigger PageHome(b, pid, hole)} :: PageHome(b, pid, hole)
    ensures Ok(b.(freeSegments := n), hole)
  {
    var b' := b.(freeSegments := n);
    forall seg | seg in b'.pool ensures SegAt(b', seg) {
      assert SegAt(b, seg);
      forall x | x in b'.pool[seg] ensures PooledIn(b', seg, x) { assert PooledIn(b, seg, x); }
    }
    forall pid: nat ensures PageHome(b', pid, hole) && SegKeys(b', pid) {
      assert PageHome(b, pid, hole) && SegKeys(b, pid);
    }
  }

  /** Putting a page that changed hands back into its pool. */
  lemma PutOk(b: Books, pg: nat, h: Page)
    requires Ok(b, pg) && pg in b.hdr && !h.inUse
    ensures SegmentOfPage(pg) in b.pool && Ok(CountIdle(Put(b, pg, h), SegmentOfPage(pg)), 0)
  {
    hide SegAt, PageHome, Put;
    var s := SegmentOfPage(pg);
    PagePlace(b, pg, pg);
    NotPooled(b, pg);
    PoolRoom(b, pg);
    PutLists(b, pg, h);
    PutKeys(b, pg, h);
    PutCounts(b, pg, h);
    PutSegs(b, pg, h);
    var b1 := Put(b, pg, h);
    forall seg | seg in b1.pool ensures SegAt(b1, seg) {
      assert SegAt(b, seg);
      PutSegments(b, pg, h, seg);
    }
    forall q: nat ensures PageHome(b1, q, 0) {
      assert PageHome(b, q, pg);
      PutPages(b, pg, h, q);
    }
    IdleCountOnly(b1, CountIdle(b1, s).freeSegments, 0);
  }

  lemma NotPooled(b: Books, pg: nat)
    requires PageHome(b, pg, pg) && pg in b.hdr && SegmentOfPage(pg) in b.pool
    ensures pg !in b.pool[SegmentOfPage(pg)] && pg !in b.aband && pg !in b.owned
  {
  }

  lemma PutSegs(b: Books, pg: nat, h: Page)
    requires SegAt(b, SegmentOfPage(pg))
    ensures Put(b, pg, h).pool.Keys == b.pool.Keys && SegmentOfPage(pg) in Put(b, pg, h).freeCount
  {
  }

  // ---------------------------------------------------------------- pool_return: unmapping an idle segment

  /** avail_remove of segment s == avail[i] */
  ghost function Delisted(b: Books, s: nat, i: nat): Books
    requires i < |b.avail|
  {
    b.(availNext := CutNext(b.availNext, b.availPrev, s)[s := 0],
       availPrev := CutPrev(b.availNext, b.availPrev, s)[s := 0],
       availHead := if i == 0 then Get(b.availNext, s) else b.availHead, inAvail := b.inAvail[s := false],
       avail := Without(b.avail, i))
  }

  /** all_remove of segment segs[j] */
  ghost function Skipped(b: Books, j: nat): Books
    requires j < |b.segs|
  {
    b.(segHead := if j == 0 then Get(b.segNext, b.segs[j]) else b.segHead, segs := Without(b.segs, j),
       segNext := if j == 0 then b.segNext else b.segNext[b.segs[j - 1] := Get(b.segNext, b.segs[j])])
  }

  /** avail_remove and all_remove of segment s == avail[i] == segs[j], then the segment and its page headers are
      gone. */
  ghost function Unmapped(b: Books, s: nat, i: nat, j: nat): Books
    requires i < |b.avail| && j < |b.segs|
  {
    b.(availNext := CutNext(b.availNext, b.availPrev, s) - {s}, availPrev := CutPrev(b.availNext, b.availPrev, s) - {s},
       availHead := if i == 0 then Get(b.availNext, s) else b.availHead, inAvail := b.inAvail - {s},
           avail := Without(b.avail, i),
       segNext := DropLinks(b.segNext, b.segs, j),
       segHead := if j == 0 then Get(b.segNext, s) else b.segHead, segs := Without(b.segs, j),
       freeList := b.freeList - {s}, freeCount := b.freeCount - {s}, pool := b.pool - {s},
       hdr := WithoutSegment(b.hdr, s), next := WithoutSegment(b.next, s),
       numSegments := b.numSegments - 1, freeSegments := b.freeSegments - 1,
           freePageCount := b.freePageCount - USABLE_PAGES,
       registered := b.registered - {s * SEGMENT_SIZE}, segmentBytes := b.segmentBytes - SEGMENT_SIZE)
  }

  /** region_unregister and os_free: the segment's header fields and its pages' headers are gone. */
  ghost function Dropped(b: Books, s: nat): Books {
    b.(availNext := b.availNext - {s}, availPrev := b.availPrev - {s}, inAvail := b.inAvail - {s},
        segNext := b.segNext - {s},
       freeList := b.freeList - {s}, freeCount := b.freeCount - {s}, pool := b.pool - {s},
       hdr := WithoutSegment(b.hdr, s), next := WithoutSegment(b.next, s),
       registered := b.registered - {s * SEGMENT_SIZE}, segmentBytes := b.segmentBytes - SEGMENT_SIZE)
  }

  lemma UnmapStages(b: Books, s: nat, i: nat, j: nat)
    requires i < |b.avail| && j < |b.segs| && b.segs[j] == s
    ensures var b1 := Skipped(Delisted(b, s, i), j);
            Unmapped(b, s, i, j) == Dropped(b1.(numSegments := b.numSegments - 1, freeSegments := b.freeSegments - 1,
                                                freePageCount := b.freePageCount - USABLE_PAGES), s)
  {
    hide CutNext, CutPrev, Without, WithoutSegment;
  }

  ghost predicate Idle(b: Books, s: nat, i: nat, j: nat) {
    && s in b.pool && |b.pool[s]| == USABLE_PAGES
    && i < |b.avail| && b.avail[i] == s && j < |b.segs| && b.segs[j] == s
  }

  lemma UnmapAvail(b: Books, s: nat, i: nat, j: nat)
    requires ListsOk(b) && Idle(b, s, i, j)
    ensures var b' := Unmapped(b, s, i, j);
            && DList(b'.availNext, b'.availPrev, b'.availHead, b'.avail)
            && (forall x :: x in b'.avail <==> x in b.avail && x != s)
            && (forall x: nat :: x in b'.availNext <==> (x in b.availNext || (i > 0 && x == b.avail[i - 1])) && x != s)
            && (forall x: nat :: x in b'.availPrev <==>
               (x in b.availPrev || (i + 1 < |b.avail| && x == b.avail[i + 1])) && x != s)
  {
    var b' := Unmapped(b, s, i, j);
    ListDistinct(b.availNext, b.availHead, b.avail);
    CutOk(b.availNext, b.availPrev, b.availHead, b.avail, i);
    WithoutHas(b.avail, i);
    DFrame(CutNext(b.availNext, b.availPrev, s), CutPrev(b.availNext, b.availPrev, s), b'.availNext, b'.availPrev,
           b'.availHead, b'.avail);
    Neighbours(b.availNext, b.availPrev, b.availHead, b.avail, i);
  }

  lemma UnmapSegList(b: Books, s: nat, i: nat, j: nat)
    requires ListsOk(b) && Idle(b, s, i, j)
    ensures var b' := Unmapped(b, s, i, j);
            && IsList(b'.segNext, b'.segHead, b'.segs) && |b'.segs| == |b.segs| - 1
            && (forall x :: x in b'.segs <==> x in b.segs && x != s)
  {
    ListDistinct(b.segNext, b.segHead, b.segs);
    WithoutHas(b.segs, j);
    DropOk(b.segNext, b.segHead, b.segs, j);
  }

  lemma UnmapKeys(b: Books, s: nat, i: nat, j: nat)
    requires KeysOk(b) && ListsOk(b) && Idle(b, s, i, j)
    ensures KeysOk(Unmapped(b, s, i, j))
  {
    var b' := Unmapped(b, s, i, j);
    UnmapAvail(b, s, i, j);
    UnmapSegList(b, s, i, j);
    assert i > 0 ==> SegKeys(b, b.avail[i - 1]);
    assert i + 1 < |b.avail| ==> SegKeys(b, b.avail[i + 1]);
    assert j > 0 ==> SegKeys(b, b.segs[j - 1]);
    forall x: nat ensures SegKeys(b', x) {
      assert SegKeys(b, x);
    }
  }

  lemma UnmapPages(b: Books, s: nat, i: nat, j: nat, q: nat)
    requires Ok(b, 0) && Idle(b, s, i, j)
    ensures PageHome(Unmapped(b, s, i, j), q, 0)
    ensures q in b.hdr && SegmentOfPage(q) == s ==> !b.hdr[q].inUse && q !in b.owned && q !in b.aband
  {
    assert PageHome(b, q, 0);
    if SegmentOfPage(q) == s && Usable(q) {
      assert SegAt(b, s);
      IdleIsPooled(b, s, q);
    }
  }

  lemma UnmapSegs(b: Books, s: nat, i: nat, j: nat, seg: nat)
    requires Idle(b, s, i, j) && SegAt(b, seg) && seg != s
    requires forall x :: x in Unmapped(b, s, i, j).avail <==> x in b.avail && x != s
    ensures SegAt(Unmapped(b, s, i, j), seg)
  {
    var b' := Unmapped(b, s, i, j);
    forall x | x in b.pool[seg] ensures PooledIn(b', seg, x) && Get(b'.next, x) == Get(b.next, x) {
      assert PooledIn(b, seg, x);
    }
    ListFrame(b.next, b'.next, b.freeList[seg], b.pool[seg]);
  }

  lemma UnmapCounts(b: Books, s: nat, i: nat, j: nat)
    requires Ok(b, 0) && Idle(b, s, i, j)
    ensures CountsOk(Unmapped(b, s, i, j), 0)
  {
    var b' := Unmapped(b, s, i, j);
    PagesOfSize(s);
    forall q: nat ensures q in PagesOf(s) ==> q in PoolSet(b.hdr, 0) {
      PagesOfMeaning(s, q);
      assert PageHome(b, q, 0) && PageHome(b, 0, 0);
      UnmapPages(b, s, i, j, q);
    }
    forall q: nat ensures q in PoolSet(b'.hdr, 0) <==> q in PoolSet(b.hdr, 0) && q !in PagesOf(s) {
      PagesOfMeaning(s, q);
      assert PageHome(b, q, 0);
    }
    assert PoolSet(b'.hdr, 0) == PoolSet(b.hdr, 0) - PagesOf(s);
    assert |PoolSet(b.hdr, 0) - PagesOf(s)| == |PoolSet(b.hdr, 0)| - |PagesOf(s)|;
    assert IdleSet(b'.pool) == IdleSet(b.pool) - {s};
    assert s in IdleSet(b.pool);
  }

  /** Unmapping an idle segment takes away nothing that is in use. */
  lemma UnmapOk(b: Books, s: nat, i: nat, j: nat)
    requires Ok(b, 0) && Idle(b, s, i, j)
    ensures Ok(Unmapped(b, s, i, j), 0)
  {
    var b' := Unmapped(b, s, i, j);
    UnmapAvail(b, s, i, j);
    UnmapSegList(b, s, i, j);
    UnmapKeys(b, s, i, j);
    UnmapCounts(b, s, i, j);
    forall q: nat ensures PageHome(b', q, 0) {
      UnmapPages(b, s, i, j, q);
    }
    forall seg | seg in b'.pool ensures SegAt(b', seg) {
      assert SegAt(b, seg);
      UnmapSegs(b, s, i, j, seg);
    }
    forall x | x in b.aband ensures Get(b'.next, x) == Get(b.next, x) {
      assert PageHome(b, x, 0);
      UnmapPages(b, s, i, j, x);
    }
    ListFrame(b.next, b'.next, b.abandHead, b.aband);
  }
}
