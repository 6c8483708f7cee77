/**
 The counters and lists of the central heap against the machine's actions: what pool_return and map_segment decide in
 constant time from a segment's free count is what the machine decides by looking at every page.
 */
module Refinement {
  import opened Layout
  import opened Memory
  import opened Lists
  import opened Machine
  import opened Books
  import opened BookSteps
  import opened BookMoves
  import opened CentralSpec

  /** A full pool means exactly that no page of the segment is in use. */
  lemma IdleIffFree(b: Books, seg: nat)
    requires Ok(b, 0) && seg in b.pool
    ensures |b.pool[seg]| == USABLE_PAGES <==> FullyFree(b.hdr, seg)
  {
    assert SegAt(b, seg);
    if |b.pool[seg]| == USABLE_PAGES {
      forall p | p in b.hdr && SegmentOfPage(p) == seg ensures !b.hdr[p].inUse {
        assert PageHome(b, p, 0);
        IdleIsPooled(b, seg, p);
      }
    }
    if FullyFree(b.hdr, seg) { FreeIsPooled(b, seg); }
  }

  lemma FreeIsPooled(b: Books, seg: nat)
    requires Ok(b, 0) && seg in b.pool && FullyFree(b.hdr, seg)
    ensures |b.pool[seg]| == USABLE_PAGES
  {
    assert SegAt(b, seg);
    ListDistinct(b.next, b.freeList[seg], b.pool[seg]);
    ElemsSize(b.pool[seg]);
    PagesOfSize(seg);
    forall p: nat ensures p in PagesOf(seg) <==> p in Elems(b.pool[seg]) {
      PagesOfMeaning(seg, p);
      assert PageHome(b, p, 0) && PageHome(b, 0, 0);
      assert p in b.pool[seg] ==> PooledIn(b, seg, p);
    }
    assert PagesOf(seg) == Elems(b.pool[seg]);
  }

  /** An idle segment besides seg exists exactly if the count of idle segments says so. */
  lemma OtherIdle(b: Books, seg: nat)
    requires Ok(b, 0) && seg in b.pool && |b.pool[seg]| == USABLE_PAGES
    ensures b.freeSegments > 1 <==> exists other :: other in b.pool && other != seg && FullyFree(b.hdr, other)
  {
    var idle := IdleSet(b.pool);
    assert seg in idle && |idle - {seg}| == |idle| - 1;
    if b.freeSegments > 1 {
      var other :| other in idle - {seg};
      IdleIffFree(b, other);
    }
    if other :| other in b.pool && other != seg && FullyFree(b.hdr, other) {
      IdleIffFree(b, other);
      assert other in idle - {seg};
    }
  }

  /** The books after the page was pooled and before a surplus segment goes. */
  lemma SurplusTest(b: Books, s: State, pg: nat)
    requires Ok(b, pg) && pg in b.hdr && s.pages == b.hdr && s.segs == b.pool.Keys && b.freeSegments <= SEGMENT_CACHE
    ensures Surplus(Pooled(s, pg), SegmentOfPage(pg)) <==>
            |PoolOf(b, SegmentOfPage(pg))| + 1 == USABLE_PAGES && b.freeSegments == SEGMENT_CACHE
  {
    hide Ok, Put, FullyFree, CountIdle;
    var seg, h := SegmentOfPage(pg), ToPool(b.hdr[pg]);
    var b1 := CountIdle(Put(b, pg, h), seg);
    PutOk(b, pg, h);
    PutMeaning(b, pg, h);
    assert Pooled(s, pg).pages == b1.hdr && b1.pool.Keys == s.segs;
    IdleIffFree(b1, seg);
    if |b1.pool[seg]| == USABLE_PAGES { OtherIdle(b1, seg); }
  }

  /** The machine's registry and byte count are those of the books plus what the large regions, heaps and tables add. */
  ghost predicate Accounts(b: Books, s: State, others: set<nat>, otherBytes: int) {
    && s.registered == b.registered + others && s.bytesMapped == b.segmentBytes + otherBytes
    && forall x: nat :: x in b.pool ==> x * SEGMENT_SIZE !in others
  }

  /** pool_return, done on the books, is the machine's PoolReturn: same page headers, same mapped segments, same
      registered bases and same bytes mapped. */
  lemma PoolReturnRefines(b: Books, b': Books, s: State, pg: nat, others: set<nat>, otherBytes: int)
    requires Ok(b, pg) && pg in b.hdr && s.pages == b.hdr && s.segs == b.pool.Keys && b.freeSegments <= SEGMENT_CACHE
             && Returned(b, b', pg)
    requires Accounts(b, s, others, otherBytes)
    ensures b'.hdr == PoolReturn(s, pg).pages && b'.pool.Keys == PoolReturn(s, pg).segs
    ensures Accounts(b', PoolReturn(s, pg), others, otherBytes)
  {
    hide Ok, Surplus, WithoutSegment, UnmapSegment;
    var seg := SegmentOfPage(pg);
    SurplusTest(b, s, pg);
    SegmentGone(Pooled(s, pg), seg);
    PoolKeys(b, pg);
  }

  lemma SegmentGone(s: State, seg: nat)
    ensures UnmapSegment(s, seg).pages == WithoutSegment(s.pages, seg) && UnmapSegment(s, seg).segs == s.segs - {seg}
    ensures UnmapSegment(s, seg).registered == s.registered - {seg * SEGMENT_SIZE}
    ensures UnmapSegment(s, seg).bytesMapped == s.bytesMapped - SEGMENT_SIZE
  {
  }

  lemma PoolKeys(b: Books, pg: nat)
    requires Ok(b, pg) && pg in b.hdr
    ensures var seg := SegmentOfPage(pg);
            (b.pool - {seg}).Keys == b.pool.Keys - {seg} && b.pool[seg := [pg] + PoolOf(b, seg)].Keys == b.pool.Keys
  {
    PagePlace(b, pg, pg);
  }

  /** map_segment, done on the books, is the machine's MapSegment: same page headers, same mapped segments, same
      registered bases and same bytes mapped. */
  lemma MapSegmentRefines(b: Books, s: State, t: Tid, seg: nat, next': map<nat, nat>, hdr': map<nat, Page>,
                          others: set<nat>, otherBytes: int)
    requires Ok(b, 0) && Initialised(b, seg, next', hdr') && s.pages == b.hdr && s.segs == b.pool.Keys
    requires Accounts(b, s, others, otherBytes) && seg * SEGMENT_SIZE !in others
    ensures hdr' == MapSegment(s, t, seg).pages
    ensures Joined(b, seg, next', hdr').pool.Keys == MapSegment(s, t, seg).segs
    ensures Accounts(Joined(b, seg, next', hdr'), MapSegment(s, t, seg), others, otherBytes)
  {
    hide Ok, Chain, Clear, SegmentPages, Initialised, Joined;
    JoinedHeaders(b, seg, next', hdr');
    JoinedFields(b, seg, next', hdr');
    JoinedPools(b, seg, next', hdr');
  }

  lemma JoinedPools(b: Books, seg: nat, next': map<nat, nat>, hdr': map<nat, Page>)
    ensures Joined(b, seg, next', hdr').pool.Keys == b.pool.Keys + {seg}
  {
    hide Chain;
  }

  lemma JoinedHeaders(b: Books, seg: nat, next': map<nat, nat>, hdr': map<nat, Page>)
    requires Ok(b, 0) && Initialised(b, seg, next', hdr')
    ensures hdr' == b.hdr + SegmentPages(seg)
  {
    hide Ok, Chain, IsList, SegmentPages;
    forall p: nat ensures p in Chain(seg, USABLE_PAGES) <==> p in SegmentPages(seg) { NewPages(seg, p); }
    forall p | p in SegmentPages(seg) ensures SegmentPages(seg)[p] == FRESH_PAGE { NewPages(seg, p); }
    forall p | p in b.hdr ensures p !in SegmentPages(seg) { OldPage(b, seg, p); }
  }

  lemma NewPages(seg: nat, p: nat)
    ensures p in Chain(seg, USABLE_PAGES) <==> p in SegmentPages(seg)
    ensures p in SegmentPages(seg) ==> SegmentPages(seg)[p] == FRESH_PAGE
  {
    ChainIsSegment(seg, p);
  }

  lemma OldPage(b: Books, seg: nat, p: nat)
    requires Ok(b, 0) && seg !in b.pool && p in b.hdr
    ensures p !in SegmentPages(seg)
  {
    assert PageHome(b, p, 0);
  }

  /** The available list is empty exactly when every page of every mapped segment is in use: the machine's guard for
      mapping. */
  lemma MapGuard(b: Books)
    requires Ok(b, 0)
    ensures b.avail == [] <==> forall p :: p in b.hdr ==> b.hdr[p].inUse
  {
    if b.avail == [] {
      forall p | p in b.hdr ensures b.hdr[p].inUse {
        assert PageHome(b, p, 0);
        assert SegAt(b, SegmentOfPage(p));
      }
    } else {
      var seg := b.avail[0];
      assert SegKeys(b, seg);
      assert SegAt(b, seg);
      var p := b.pool[seg][0];
      assert PooledIn(b, seg, p) && PageHome(b, p, 0);
    }
  }
}
