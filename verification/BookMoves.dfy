/**
 Pages changing hands: acquisition, release, abandonment, and a new segment.
 */
module BookMoves {
  import opened Layout
  import opened Memory
  import opened Blocks
  import opened Lists
  import opened Machine
  import opened Books
  import opened BookSteps

  // ---------------------------------------------------------------- central_acquire_page

  /** The first page of the first available segment leaves its pool. */
  ghost function PoolPopped(b: Books, s: nat): Books {
    var n := Get(b.freeCount, s);
    b.(freeSegments := if n == USABLE_PAGES then b.freeSegments - 1 else b.freeSegments,
       freeList := b.freeList[s := Get(b.next, Get(b.freeList, s))],
       freeCount := b.freeCount[s := if n > 0 then n - 1 else 0],
       freePageCount := b.freePageCount - 1,
       pool := b.pool[s := if PoolOf(b, s) == [] then [] else PoolOf(b, s)[1..]])
  }

  /** avail_remove of the head of the available list. */
  ghost function Unlisted(b: Books, s: nat): Books {
    b.(availNext := CutNext(b.availNext, b.availPrev, s)[s := 0],
       availPrev := CutPrev(b.availNext, b.availPrev, s)[s := 0],
       availHead := Get(b.availNext, s), inAvail := b.inAvail[s := false],
       avail := if b.avail == [] then [] else b.avail[1..])
  }

  ghost function Taken(b: Books, s: nat): Books {
    var b1 := PoolPopped(b, s);
    if Get(b1.freeCount, s) == 0 then Unlisted(b1, s) else b1
  }

  ghost predicate CanTake(b: Books, s: nat, pg: nat) {
    && b.avail != [] && b.avail[0] == s && SegAt(b, s) && b.pool[s] != [] && pg == b.pool[s][0]
  }

  lemma TakeHead(b: Books)
    requires Ok(b, 0)
    ensures b.availHead == 0 <==> b.avail == []
    ensures b.avail != [] ==>
              var pg := Get(b.freeList, b.availHead);
              b.availHead in b.freeList && CanTake(b, b.availHead, pg) && pg in b.hdr && !b.hdr[pg].inUse
  {
    HeadAvailable(b);
    if b.avail != [] {
      var s := b.avail[0];
      assert SegAt(b, s);
      assert Link(b.next, b.pool[s], 0);
      assert PooledIn(b, s, b.pool[s][0]);
      assert PageHome(b, b.pool[s][0], 0);
    }
  }

  /** Removing the head of the available list. */
  lemma UnlistOk(next: Links, prev: Links, head: nat, avail: seq<nat>)
    requires DList(next, prev, head, avail) && avail != []
    ensures var s := avail[0];
            var next', prev' := CutNext(next, prev, s)[s := 0], CutPrev(next, prev, s)[s := 0];
            && DList(next', prev', Get(next, s), avail[1..])
            && (forall x :: x in avail[1..] <==> x in avail && x != s)
            && (forall x: nat :: x in next' <==> x in next || x == s)
            && (forall x: nat :: x in prev' <==> x in prev || x == s || (|avail| > 1 && x == avail[1]))
  {
    var s := avail[0];
    var next1, prev1 := CutNext(next, prev, s), CutPrev(next, prev, s);
    ListDistinct(next, head, avail);
    CutOk(next, prev, head, avail, 0);
    assert Without(avail, 0) == avail[1..];
    WithoutHas(avail, 0);
    DFrame(next1, prev1, next1[s := 0], prev1[s := 0], Get(next, s), avail[1..]);
    Neighbours(next, prev, head, avail, 0);
  }

  lemma TakeAvail(b: Books, s: nat, pg: nat)
    requires KeysOk(b) && ListsOk(b) && CanTake(b, s, pg)
    ensures var b' := Taken(b, s);
            && ListsOk(b') && KeysOk(b')
            && (forall x :: x in b'.avail <==> x in b.avail && (x == s ==> |b.pool[s]| > 1))
  {
    hide IsList, DList, CutNext, CutPrev;
    var b' := Taken(b, s);
    UnlistOk(b.availNext, b.availPrev, b.availHead, b.avail);
    assert SegKeys(b, s) && (|b.avail| > 1 ==> SegKeys(b, b.avail[1]));
    forall x: nat ensures SegKeys(b', x) {
      assert SegKeys(b, x);
    }
  }

  lemma PoolBound(b: Books, s: nat)
    requires Ok(b, 0) && s in b.pool
    ensures |b.pool[s]| <= USABLE_PAGES
  {
    assert SegAt(b, s);
    ListDistinct(b.next, b.freeList[s], b.pool[s]);
    ElemsSize(b.pool[s]);
    PagesOfSize(s);
    forall x | x in Elems(b.pool[s]) ensures x in PagesOf(s) {
      assert PooledIn(b, s, x) && PageHome(b, x, 0);
      PagesOfMeaning(s, x);
    }
    SubsetSmaller(Elems(b.pool[s]), PagesOf(s));
  }

  lemma PoolHead(b: Books, s: nat)
    requires SegAt(b, s) && b.pool[s] != []
    ensures b.freeList[s] == b.pool[s][0] != 0
  {
    assert Link(b.next, b.pool[s], 0);
  }

  lemma TakeSegs(b: Books, s: nat, pg: nat, seg: nat)
    requires CanTake(b, s, pg) && SegAt(b, seg)
    requires forall x :: x in Taken(b, s).avail <==> x in b.avail && (x == s ==> |b.pool[s]| > 1)
    ensures SegAt(Taken(b, s), seg)
  {
    hide IsList, CutNext, CutPrev;
    var b' := Taken(b, s);
    if seg == s {
      PoolHead(b, s);
      ListPop(b.next, b.freeList[s], b.pool[s]);
    }
    forall x | x in b'.pool[seg] ensures PooledIn(b', seg, x) {
      assert PooledIn(b, seg, x);
    }
  }

  lemma TakePages(b: Books, s: nat, pg: nat, q: nat)
    requires CanTake(b, s, pg) && PageHome(b, q, 0) && PageHome(b, pg, 0) && pg in b.hdr && Distinct(b.pool[s])
    ensures PageHome(Taken(b, s), q, pg)
  {
    assert PooledIn(b, s, pg);
    WithoutHas(b.pool[s], 0);
    assert Without(b.pool[s], 0) == b.pool[s][1..];
  }

  lemma TakeCounts(b: Books, s: nat, pg: nat)
    requires CountsOk(b, 0) && CanTake(b, s, pg) && pg in b.hdr && 0 !in b.hdr && !b.hdr[pg].inUse
             && |b.pool[s]| <= USABLE_PAGES
    ensures CountsOk(Taken(b, s), pg)
  {
    assert PoolSet(b.hdr, pg) == PoolSet(b.hdr, 0) - {pg};
    assert pg in PoolSet(b.hdr, 0);
    IdleSetAt(b.pool, s, b.pool[s][1..]);
  }

  /** Taking the first page of the first available segment. */
  lemma TakeOk(b: Books, s: nat, pg: nat)
    requires Ok(b, 0) && CanTake(b, s, pg)
    ensures pg in b.hdr && !b.hdr[pg].inUse && Ok(Taken(b, s), pg)
  {
    hide SegAt, PageHome, Taken;
    PoolDistinct(b, s);
    TakeHead(b);
    PagePlace(b, pg, 0);
    PoolBound(b, s);
    TakeAvail(b, s, pg);
    TakeCounts(b, s, pg);
    var b' := Taken(b, s);
    TakenSame(b, s, pg);
    forall seg | seg in b'.pool ensures SegAt(b', seg) {
      assert SegAt(b, seg);
      TakeSegs(b, s, pg, seg);
    }
    forall q: nat ensures PageHome(b', q, pg) {
      assert PageHome(b, q, 0);
      TakePages(b, s, pg, q);
    }
  }

  lemma PoolDistinct(b: Books, s: nat)
    requires SegAt(b, s)
    ensures s in b.pool && Distinct(b.pool[s])
  {
    ListDistinct(b.next, b.freeList[s], b.pool[s]);
  }

  lemma TakenSame(b: Books, s: nat, pg: nat)
    requires CanTake(b, s, pg)
    ensures var b' := Taken(b, s);
            && b'.pool.Keys == b.pool.Keys && b'.hdr == b.hdr && b'.next == b.next && b'.owned == b.owned
            && b'.aband == b.aband && b'.segs == b.segs && b'.segNext == b.segNext && b'.segHead == b.segHead
            && b'.abandHead == b.abandHead && b'.numSegments == b.numSegments
  {
  }

  /** The taken page is stamped with its new owner. */
  ghost function Stamped(b: Books, pg: nat, h: Page): Books {
    b.(hdr := b.hdr[pg := h], next := b.next[pg := 0], owned := b.owned + {pg}, pagesInUse := b.pagesInUse + 1)
  }

  lemma StampOk(b: Books, pg: nat, h: Page)
    requires Ok(b, pg) && pg in b.hdr && h.inUse && h.owner != ABANDONED
    ensures Ok(Stamped(b, pg, h), 0)
  {
    var b' := Stamped(b, pg, h);
    PagePlace(b, pg, pg);
    forall q: nat ensures PageHome(b', q, 0) && SegKeys(b', q) {
      assert PageHome(b, q, pg) && SegKeys(b, q);
    }
    assert PoolSet(b'.hdr, 0) == PoolSet(b.hdr, pg);
    forall x | x in b.aband ensures x != pg {}
    ListFrame(b.next, b'.next, b.abandHead, b.aband);
    forall seg | seg in b'.pool ensures SegAt(b', seg) {
      assert SegAt(b, seg);
      StampSegs(b, pg, h, seg);
    }
  }

  lemma StampSegs(b: Books, pg: nat, h: Page, seg: nat)
    requires SegAt(b, seg) && PageHome(b, pg, pg) && pg in b.hdr
    ensures SegAt(Stamped(b, pg, h), seg)
  {
    var b' := Stamped(b, pg, h);
    forall x | x in b.pool[seg] ensures x != pg && PooledIn(b', seg, x) {
      assert PooledIn(b, seg, x);
    }
    ListFrame(b.next, b'.next, b.freeList[seg], b.pool[seg]);
  }

  // ---------------------------------------------------------------- release and abandonment

  ghost function Disowned(b: Books, pg: nat): Books {
    b.(owned := b.owned - {pg}, pagesInUse := b.pagesInUse - 1)
  }

  lemma DisownOk(b: Books, pg: nat)
    requires Ok(b, 0) && pg in b.owned
    ensures pg in b.hdr && Ok(Disowned(b, pg), pg)
  {
    var b' := Disowned(b, pg);
    assert PageHome(b, pg, 0);
    PagePlace(b, pg, 0);
    forall q: nat ensures PageHome(b', q, pg) && SegKeys(b', q) {
      assert PageHome(b, q, 0) && SegKeys(b, q);
    }
    assert PoolSet(b'.hdr, pg) == PoolSet(b.hdr, 0);
    forall seg | seg in b'.pool ensures SegAt(b', seg) {
      assert SegAt(b, seg);
      forall x | x in b'.pool[seg] ensures PooledIn(b', seg, x) { assert PooledIn(b, seg, x); }
    }
  }

  ghost function Forsaken(b: Books, pg: nat): Books
    requires pg in b.hdr
  {
    b.(hdr := b.hdr[pg := b.hdr[pg].(owner := ABANDONED)], next := b.next[pg := b.abandHead], abandHead := pg,
       aband := [pg] + b.aband, abandonedCount := b.abandonedCount + 1, owned := b.owned - {pg},
           pagesInUse := b.pagesInUse - 1)
  }

  lemma ForsakeOk(b: Books, pg: nat)
    requires Ok(b, 0) && pg in b.owned
    ensures pg in b.hdr && Ok(Forsaken(b, pg), 0)
  {
    assert PageHome(b, pg, 0);
    PagePlace(b, pg, 0);
    var b' := Forsaken(b, pg);
    forall q: nat ensures PageHome(b', q, 0) && SegKeys(b', q) {
      assert PageHome(b, q, 0) && SegKeys(b, q);
    }
    assert PoolSet(b'.hdr, 0) == PoolSet(b.hdr, 0);
    forall seg | seg in b'.pool ensures SegAt(b', seg) {
      assert SegAt(b, seg);
      ForsakeSegs(b, pg, seg);
    }
    ListFrame(b.next, b'.next, b.abandHead, b.aband);
    ListPush(b'.next, pg, b.abandHead, b.aband);
  }

  lemma ForsakeSegs(b: Books, pg: nat, seg: nat)
    requires SegAt(b, seg) && PageHome(b, pg, 0) && pg in b.hdr && pg in b.owned
    ensures SegAt(Forsaken(b, pg), seg)
  {
    var b' := Forsaken(b, pg);
    forall x | x in b.pool[seg] ensures x != pg && PooledIn(b', seg, x) {
      assert PooledIn(b, seg, x);
    }
    ListFrame(b.next, b'.next, b.freeList[seg], b.pool[seg]);
  }

  /** *pp = pg->next for the i-th abandoned page. */
  ghost function Unabandoned(b: Books, i: nat): Books
    requires i < |b.aband|
  {
    b.(next := if i == 0 then b.next else b.next[b.aband[i - 1] := Get(b.next, b.aband[i])],
       abandHead := if i == 0 then Get(b.next, b.aband[i]) else b.abandHead,
       aband := Without(b.aband, i), abandonedCount := b.abandonedCount - 1)
  }

  lemma UnabandonOk(b: Books, i: nat)
    requires Ok(b, 0) && i < |b.aband|
    ensures b.aband[i] in b.hdr && Ok(Unabandoned(b, i), b.aband[i])
  {
    var b', pg := Unabandoned(b, i), b.aband[i];
    assert PageHome(b, pg, 0);
    PagePlace(b, pg, 0);
    assert i > 0 ==> PageHome(b, b.aband[i - 1], 0);
    UnabandonList(b, i);
    forall q: nat ensures PageHome(b', q, pg) && SegKeys(b', q) {
      assert PageHome(b, q, 0) && SegKeys(b, q);
    }
    assert PoolSet(b'.hdr, pg) == PoolSet(b.hdr, 0);
    forall seg | seg in b'.pool ensures SegAt(b', seg) {
      assert SegAt(b, seg);
      UnabandonSegs(b, i, seg);
    }
  }

  lemma UnabandonList(b: Books, i: nat)
    requires IsList(b.next, b.abandHead, b.aband) && i < |b.aband|
    ensures var b' := Unabandoned(b, i);
            && IsList(b'.next, b'.abandHead, b'.aband) && (forall x :: x in b'.aband <==> x in b.aband
                                                                                          && x != b.aband[i])
            && |b'.aband| == |b.aband| - 1
  {
    ListDistinct(b.next, b.abandHead, b.aband);
    WithoutHas(b.aband, i);
    assert Link(b.next, b.aband, i);
    if i == 0 {
      ListPop(b.next, b.abandHead, b.aband);
      assert Without(b.aband, 0) == b.aband[1..];
    } else {
      SkipOk(b.next, b.abandHead, b.aband, i);
    }
  }

  lemma UnabandonSegs(b: Books, i: nat, seg: nat)
    requires Ok(b, 0) && i < |b.aband| && SegAt(b, seg)
    ensures SegAt(Unabandoned(b, i), seg)
  {
    var b' := Unabandoned(b, i);
    forall x | x in b.pool[seg] ensures PooledIn(b', seg, x) && Get(b'.next, x) == Get(b.next, x) {
      assert PooledIn(b, seg, x) && PageHome(b, x, 0);
      assert i > 0 ==> b.aband[i - 1] in b.aband;
    }
    ListFrame(b.next, b'.next, b.freeList[seg], b.pool[seg]);
  }

  // ---------------------------------------------------------------- map_segment

  /** Pages 1, ..., n of segment seg in the order the initialisation loop lists them: last one first. */
  function Chain(seg: nat, n: nat): seq<nat> {
    if n == 0 then [] else [seg * PAGES_PER_SEGMENT + n] + Chain(seg, n - 1)
  }

  lemma {:induction false} ChainMeaning(seg: nat, n: nat)
    ensures |Chain(seg, n)| == n && Distinct(Chain(seg, n))
    ensures forall x :: x in Chain(seg, n) <==> seg * PAGES_PER_SEGMENT < x <= seg * PAGES_PER_SEGMENT + n
  {
    if n > 0 {
      ChainMeaning(seg, n - 1);
      var r := Chain(seg, n - 1);
      forall i, j | 0 <= i < j < n ensures Chain(seg, n)[i] != Chain(seg, n)[j] {
        if i == 0 { assert r[j - 1] in r; }
      }
    }
  }

  lemma ChainIsSegment(seg: nat, x: nat)
    ensures x in Chain(seg, USABLE_PAGES) <==> SegmentOfPage(x) == seg && Usable(x)
  {
    ChainMeaning(seg, USABLE_PAGES);
  }

  /** A fresh segment joins: every page pooled, listed as available and idle. */
  ghost function Joined(b: Books, s: nat, next': map<nat, nat>, hdr': map<nat, Page>): Books {
    b.(next := next', hdr := hdr', freeList := b.freeList[s := s * PAGES_PER_SEGMENT + USABLE_PAGES],
       freeCount := b.freeCount[s := USABLE_PAGES], freePageCount := b.freePageCount + USABLE_PAGES,
       segNext := b.segNext[s := b.segHead], segHead := s, segs := [s] + b.segs,
       numSegments := b.numSegments + 1, freeSegments := b.freeSegments + 1,
       pool := b.pool[s := Chain(s, USABLE_PAGES)],
       availNext := PushNext(b.availNext, b.availHead, s), availPrev := PushPrev(b.availPrev, b.availHead, s),
       availHead := s, inAvail := b.inAvail[s := true], avail := [s] + b.avail,
       registered := b.registered + {s * SEGMENT_SIZE}, segmentBytes := b.segmentBytes + SEGMENT_SIZE)
  }

  /** The initialisation loop added exactly the segment's pages, pooled in one list. */
  ghost predicate Initialised(b: Books, s: nat, next': map<nat, nat>, hdr': map<nat, Page>) {
    && s > 0 && s !in b.pool
    && IsList(next', s * PAGES_PER_SEGMENT + USABLE_PAGES, Chain(s, USABLE_PAGES))
    && (forall p: nat :: p in next' <==> p in hdr')
    && (forall p: nat :: p in hdr' <==> p in b.hdr || p in Chain(s, USABLE_PAGES))
    && (forall p :: p in b.hdr ==> hdr'[p] == b.hdr[p] && Get(next', p) == Get(b.next, p))
    && (forall p :: p in Chain(s, USABLE_PAGES) ==> hdr'[p] == FRESH_PAGE)
  }

  lemma JoinPages(b: Books, s: nat, next': map<nat, nat>, hdr': map<nat, Page>, q: nat)
    requires PageHome(b, q, 0) && Initialised(b, s, next', hdr')
    ensures PageHome(Joined(b, s, next', hdr'), q, 0)
  {
    ChainIsSegment(s, q);
  }

  lemma JoinSegs(b: Books, s: nat, next': map<nat, nat>, hdr': map<nat, Page>, seg: nat)
    requires SegKeys(b, s) && Initialised(b, s, next', hdr') && (seg != s ==> SegAt(b, seg))
    ensures SegAt(Joined(b, s, next', hdr'), seg)
  {
    var b' := Joined(b, s, next', hdr');
    if seg == s {
      ChainMeaning(s, USABLE_PAGES);
      forall x | x in b'.pool[s] ensures PooledIn(b', s, x) { ChainIsSegment(s, x); }
    } else {
      forall x | x in b.pool[seg] ensures PooledIn(b', seg, x) && Get(next', x) == Get(b.next, x) {
        assert PooledIn(b, seg, x);
      }
      ListFrame(b.next, next', b.freeList[seg], b.pool[seg]);
    }
  }

  lemma JoinLists(b: Books, s: nat, next': map<nat, nat>, hdr': map<nat, Page>)
    requires KeysOk(b) && ListsOk(b) && Initialised(b, s, next', hdr') && (forall x :: x in b.aband ==> x in b.hdr)
    ensures ListsOk(Joined(b, s, next', hdr')) && KeysOk(Joined(b, s, next', hdr'))
  {
    var b' := Joined(b, s, next', hdr');
    ListFrame(b.next, next', b.abandHead, b.aband);
    assert SegKeys(b, s);
    ListFrame(b.segNext, b'.segNext, b.segHead, b.segs);
    ListPush(b'.segNext, s, b.segHead, b.segs);
    PushOk(b.availNext, b.availPrev, b.availHead, b.avail, s);
    JoinKeys(b, s, next', hdr');
  }

  lemma JoinKeys(b: Books, s: nat, next': map<nat, nat>, hdr': map<nat, Page>)
    requires KeysOk(b) && ListsOk(b) && Initialised(b, s, next', hdr')
    ensures KeysOk(Joined(b, s, next', hdr'))
  {
    hide IsList;
    var b' := Joined(b, s, next', hdr');
    HeadAvailable(b);
    forall x: nat ensures SegKeys(b', x) {
      assert SegKeys(b, x);
    }
  }

  lemma JoinCounts(b: Books, s: nat, next': map<nat, nat>, hdr': map<nat, Page>)
    requires CountsOk(b, 0) && Initialised(b, s, next', hdr') && 0 !in b.hdr
    requires forall x :: x in b.hdr ==> SegmentOfPage(x) in b.pool
    ensures CountsOk(Joined(b, s, next', hdr'), 0)
  {
    hide IsList;
    var fresh_ := Chain(s, USABLE_PAGES);
    ChainMeaning(s, USABLE_PAGES);
    ElemsSize(fresh_);
    forall x | x in fresh_ ensures x !in b.hdr && x > 0 { ChainIsSegment(s, x); }
    JoinPool(b.hdr, hdr', fresh_);
    IdleSetAt(b.pool, s, fresh_);
  }

  lemma JoinPool(hdr: map<nat, Page>, hdr': map<nat, Page>, fresh_: seq<nat>)
    requires forall p: nat :: p in hdr' <==> p in hdr || p in fresh_
    requires forall p :: p in hdr ==> hdr'[p] == hdr[p]
    requires forall p :: p in fresh_ ==> hdr'[p] == FRESH_PAGE && p !in hdr && p > 0
    ensures |PoolSet(hdr', 0)| == |PoolSet(hdr, 0)| + |Elems(fresh_)|
  {
    assert PoolSet(hdr', 0) == PoolSet(hdr, 0) + Elems(fresh_);
    assert PoolSet(hdr, 0) !! Elems(fresh_);
  }

  lemma JoinOk(b: Books, s: nat, next': map<nat, nat>, hdr': map<nat, Page>)
    requires Ok(b, 0) && Initialised(b, s, next', hdr')
    ensures Ok(Joined(b, s, next', hdr'), 0)
  {
    hide SegAt, Initialised, ListsOk;
    var b' := Joined(b, s, next', hdr');
    assert PageHome(b, 0, 0);
    forall x: nat ensures (x in b.hdr ==> SegmentOfPage(x) in b.pool) && (x in b.aband ==> x in b.hdr) {
      assert PageHome(b, x, 0);
    }
    JoinLists(b, s, next', hdr');
    JoinCounts(b, s, next', hdr');
    forall seg | seg in b'.pool ensures SegAt(b', seg) {
      assert (seg in b.pool ==> SegAt(b, seg)) && SegKeys(b, s);
      JoinSegs(b, s, next', hdr', seg);
    }
    forall q: nat ensures PageHome(b', q, 0) {
      assert PageHome(b, q, 0);
      JoinPages(b, s, next', hdr', q);
    }
  }
}
