/**
 The central heap under its lock: per-segment page pools, the available list, the abandoned list and
 its sweep, mapping and unmapping of segments. Unmapping a segment removes its header fields and
 its pages' headers from the maps, so every dereference below is of mapped memory.
 */
module Central {
  import opened Layout
  import opened Memory
  import opened Blocks
  import opened Lists
  import opened Machine
  import opened PageHeaders
  import opened Books
  import opened BookSteps
  import opened BookMoves
  import opened CentralSpec

  class CentralHeap {
    const pages: Headers
    /** CentralState and the header fields of the mapped segments; its ghost part spells out the lists they form. */
    var g: Books

    /** Consistent except for page `hole`, which is changing hands. */
    ghost predicate Consistent(hole: nat)
      reads this, pages
    {
      Ok(g, hole) && pages.Valid() && g.hdr == pages.hdr && g.next == pages.next
    }

    /** What holds whenever the lock is free. */
    ghost predicate Valid()
      reads this, pages
    {
      Consistent(0) && g.freeSegments <= SEGMENT_CACHE
    }

    constructor (headers: Headers)
      requires headers.Valid() && headers.hdr == map[]
      ensures Valid() && pages == headers && g.numSegments == 0
    {
      pages := headers;
      g := Books(0, map[], 0, map[], map[], map[], map[], map[], 0, 0, 0, 0, 0, 0, {}, 0, map[], map[], [], [], map[],
          [], {});
      new;
      forall x: nat ensures SegKeys(g, x) && PageHome(g, x, 0) && x !in pages.next {
        assert pages.PageAt(x);
      }
      assert pages.next == map[];
      assert PoolSet(g.hdr, 0) == {} && IdleSet(g.pool) == {};
    }

    /** Every page in use, except pg, is exactly as it was. */
    twostate predicate OthersSame(pg: nat)
      reads pages
    {
      forall q: nat {:trigger pages.Snap(q)} ::
        InUse(old(pages.hdr), q) && q != pg ==> pages.Snap(q) == old(pages.Snap(q))
    }

    /** The books take note of what owners did to their own pages without the lock. */
    method Note()
      requires Ok(g, 0) && g.freeSegments <= SEGMENT_CACHE && pages.Valid() && SameStatus(g, pages.hdr, pages.next)
      modifies this
      ensures Valid() && g == old(g).(hdr := pages.hdr, next := pages.next)
    {
      hide Ok;
      StatusKeeps(g, pages.hdr, pages.next);
      g := g.(hdr := pages.hdr, next := pages.next);
    }

    // -------------------------------------------------------------- lists of segments

    /** avail_push: walking the available list now meets s and then every segment that was on it before, in order,
        and walking back along the prev fields undoes every step. */
    method AvailPush(s: nat)
      requires CanList(g, s)
      modifies this
      ensures DList(g.availNext, g.availPrev, g.availHead, [s] + old(g.avail)) && s in g.inAvail && g.inAvail[s]
      ensures g == Listed(old(g), s)
    {
      PushOk(g.availNext, g.availPrev, g.availHead, g.avail, s);
      g := g.(availPrev := g.availPrev[s := 0], availNext := g.availNext[s := g.availHead]);
      if g.availHead != 0 { g := g.(availPrev := g.availPrev[g.availHead := s]); }
      g := g.(availHead := s, inAvail := g.inAvail[s := true], avail := [s] + g.avail);
    }

    method AvailRemove(s: nat, ghost i: nat)
      requires i < |g.avail| && g.avail[i] == s && DList(g.availNext, g.availPrev, g.availHead, g.avail)
      requires (forall x :: x in g.avail ==> x in g.availNext && x in g.availPrev) && s in g.inAvail
      modifies this
      ensures g == Delisted(old(g), s, i)
    {
      hide DList;
      Neighbours(g.availNext, g.availPrev, g.availHead, g.avail, i);
      var p, n := g.availPrev[s], g.availNext[s];
      if p != 0 {
        g := g.(availNext := g.availNext[p := n]);
      } else {
        g := g.(availHead := n);
      }
      if n != 0 { g := g.(availPrev := g.availPrev[n := p]); }
      g := g.(availPrev := g.availPrev[s := 0], availNext := g.availNext[s := 0]);
      g := g.(inAvail := g.inAvail[s := false], avail := Without(g.avail, i));
    }

    method AllRemove(s: nat, ghost j: nat)
      requires j < |g.segs| && g.segs[j] == s && (forall x :: x in g.segs ==> x in g.segNext)
               && IsList(g.segNext, g.segHead, g.segs)
      modifies this
      ensures g == Skipped(old(g), j)
    {
      ListDistinct(g.segNext, g.segHead, g.segs);
      assert Link(g.segNext, g.segs, j) && Link(g.segNext, g.segs, 0);
      assert j > 0 ==> g.segs[0] != g.segs[j];
      if g.segHead == s {
        g := g.(segHead := g.segNext[s], segs := Without(g.segs, j));
        return;
      }
      var p := g.segHead;
      ghost var k: nat := 0;
      while p != 0
        invariant k < j && p == g.segs[k] && p != 0 && unchanged(this)
        decreases j - k
      {
        assert Link(g.segNext, g.segs, k) && Link(g.segNext, g.segs, k + 1);
        if g.segNext[p] == s {
          g := g.(segNext := g.segNext[p := g.segNext[s]], segs := Without(g.segs, j));
          return;
        }
        p := g.segNext[p];
        k := k + 1;
      }
    }

    // -------------------------------------------------------------- pool_return

    /** The header is cleared and the page goes in front of its segment's pool. */
    method PushPage(pg: nat, s: nat)
      requires pages.Valid() && pg in pages.hdr && s == SegmentOfPage(pg) && SegHeader(g, s)
      modifies this, pages`hdr, pages`next, pages`prev
      ensures g == Pushed(old(g), pg, ToPool(old(pages.hdr)[pg])) && pages.Valid()
      ensures pages.hdr == old(pages.hdr)[pg := ToPool(old(pages.hdr)[pg])] && pages.prev == old(pages.prev)[pg := 0]
      ensures pages.next == old(pages.next)[pg := old(g).freeList[s]] && OthersSame(pg)
    {
      pages.hdr := pages.hdr[pg := pages.hdr[pg].(inUse := false, owner := 0, free := 0, blockSize := 0)];
      pages.prev := pages.prev[pg := 0];
      pages.next := pages.next[pg := g.freeList[s]];
      g := g.(hdr := g.hdr[pg := pages.hdr[pg]], next := g.next[pg := g.freeList[s]],
              pool := g.pool[s := [pg] + g.pool[s]], freeList := g.freeList[s := pg]);
      g := g.(freeCount := g.freeCount[s := g.freeCount[s] + 1], freePageCount := g.freePageCount + 1);
      HeadersStay(pg);
    }

    twostate lemma HeadersStay(pg: nat)
      requires old(pages.Valid()) && pg in old(pages.hdr)
               && pages.hdr == old(pages.hdr)[pg := ToPool(old(pages.hdr)[pg])]
      requires pg in pages.next && pages.next == old(pages.next)[pg := pages.next[pg]]
               && pages.prev == old(pages.prev)[pg := 0]
      requires pages.mem == old(pages.mem) && pages.free == old(pages.free) && pages.parked == old(pages.parked)
      ensures pages.Valid()
    {
      forall q: nat ensures pages.PageAt(q) { assert old(pages.PageAt(q)); }
    }

    /** pool_return up to the test for a surplus idle segment. */
    method PutPage(pg: nat, s: nat)
      requires Consistent(pg) && pg in pages.hdr && s == SegmentOfPage(pg)
      modifies this, pages`hdr, pages`next, pages`prev
      ensures Consistent(0) && g == CountIdle(Put(old(g), pg, ToPool(old(pages.hdr)[pg])), s) && OthersSame(pg)
    {
      hide Ok, Listed;
      ghost var b, h := g, ToPool(pages.hdr[pg]);
      ReadyToPut(b, pg);
      PutOk(b, pg, h);
      PushedFields(b, pg, h);
      var wasEmpty := g.freeCount[s] == 0;
      PushPage(pg, s);
      if wasEmpty { AvailPush(s); }
      PutFields(b, pg, h);
      if g.freeCount[s] == USABLE_PAGES {
        g := g.(freeSegments := g.freeSegments + 1);
      }
    }

    /** The idle segment leaves both lists and the address space. */
    method UnmapIdle(s: nat, ghost i: nat, ghost j: nat)
      requires Consistent(0) && BookSteps.Idle(g, s, i, j)
      modifies this, pages`hdr, pages`next, pages`prev, pages`free, pages`parked
      ensures Consistent(0) && g == BookSteps.Unmapped(old(g), s, i, j)
      ensures forall q: nat {:trigger pages.Snap(q)} :: pages.Snap(q) == if SegmentOfPage(q) == s then Gone
              else old(pages.Snap(q))
    {
      hide Ok, Delisted, Skipped, BookSteps.Unmapped, WithoutSegment;
      ghost var b := g;
      ReadyToUnmap(g, s, i, j);
      UnmapOk(g, s, i, j);
      UnmapStages(g, s, i, j);
      AvailRemove(s, i);
      DelistedFields(b, s, i);
      AllRemove(s, j);
      SkippedFields(Delisted(b, s, i), j);
      g := g.(numSegments := g.numSegments - 1, freeSegments := g.freeSegments - 1,
              freePageCount := g.freePageCount - USABLE_PAGES);
      g := g.(availNext := g.availNext - {s}, availPrev := g.availPrev - {s}, inAvail := g.inAvail - {s},
              segNext := g.segNext - {s}, freeList := g.freeList - {s}, freeCount := g.freeCount - {s},
              pool := g.pool - {s},
              registered := g.registered - {s * SEGMENT_SIZE}, segmentBytes := g.segmentBytes - SEGMENT_SIZE,
              hdr := WithoutSegment(g.hdr, s), next := WithoutSegment(g.next, s));
      pages.UnmapSegment(s);
    }

    /** pool_return: the page goes back to its pool; a segment that has just gone idle is unmapped if another one
        already is. */
    method PoolReturn(pg: nat)
      requires Consistent(pg) && pg in pages.hdr && g.freeSegments <= SEGMENT_CACHE
      modifies this, pages`hdr, pages`next, pages`prev, pages`free, pages`parked
      ensures Valid() && OthersSame(pg) && Returned(old(g), g, pg) && g.avail != []
    {
      hide Ok, Put, CountIdle, BookSteps.Unmapped;
      ghost var b, h := g, ToPool(pages.hdr[pg]);
      var s := SegmentOfPage(pg);
      PutPage(pg, s);
      PutMeaning(b, pg, h);
      label Pooled:
      ghost var b1 := g;
      if g.freeCount[s] == USABLE_PAGES {
        if g.freeSegments > SEGMENT_CACHE {
          ghost var i, j := IdlePlace(b1, s);
          UnmapMeaning(b1, s, i, j);
          assert Left(b.avail, Without(b.avail, i), s) && Left(b.segs, Without(b.segs, j), s);
          UnmapIdle(s, i, j);
          forall q: nat | InUse(old(pages.hdr), q) && q != pg ensures pages.Snap(q) == old(pages.Snap(q)) {
            assert old@Pooled(pages.Snap(q)) == old(pages.Snap(q));
            UnmapPages(b1, s, i, j, q);
          }
        }
      }
      AvailableSome(g, s);
    }

    // -------------------------------------------------------------- the sweep of abandoned pages

    /** collect_locked */
    method CollectLocked(pg: nat)
      requires Valid() && pg in pages.hdr && pages.hdr[pg].inUse
      modifies this, pages`hdr, pages`mem, pages`free, pages`parked
      ensures Valid() && g == old(g).(hdr := pages.hdr)
      ensures OnlyAt(old(pages.All()), pages.All(), pg) && Busy(old(pages.All())[pg])
              && pages.All()[pg] == Collected(old(pages.All())[pg])
      ensures HeldSnap(pg, pages.All()[pg]) == HeldSnap(pg, old(pages.All())[pg])
      ensures pg in pages.hdr && pages.All()[pg].page == pages.hdr[pg]
    {
      hide Ok, OnlyAt, HeldSnap, Collected, Headers.Snap;
      pages.Collect(pg);
      StatusKeeps(g, pages.hdr, pages.next);
      g := g.(hdr := pages.hdr);
    }

    /** *pp = pg->next, where pp is &g.abandoned (0) or the next field of the page before. */
    method Unlink(pp: nat, pg: nat, ghost k: nat)
      requires Consistent(0) && AbandonedAt(g, pp, pg, k)
      modifies this, pages`next
      ensures Consistent(pg) && g == Unabandoned(old(g), k)
      ensures forall q: nat {:trigger pages.Snap(q)} :: q != pp || pp == 0 ==> pages.Snap(q) == old(pages.Snap(q))
      ensures pp != 0 ==> OnlyNext(old(pages.Snap(pp)), pages.Snap(pp))
    {
      hide Ok;
      UnabandonOk(g, k);
      AbandonedMapped(g, pp, pg, k);
      assert pages.PageAt(pg) && pages.PageAt(pp);
      if pp == 0 {
        g := g.(abandHead := pages.next[pg]);
      } else {
        pages.next := pages.next[pp := pages.next[pg]];
      }
      g := g.(abandonedCount := g.abandonedCount - 1, aband := Without(g.aband, k), next := pages.next);
      forall q: nat ensures pages.PageAt(q) { assert old(pages.PageAt(q)); }
    }

    /** A drained page leaves the abandoned list for its pool. */
    method Reclaim(pp: nat, pg: nat, ghost k: nat)
      requires Valid() && AbandonedAt(g, pp, pg, k)
      modifies this, pages`hdr, pages`next, pages`prev, pages`free, pages`parked
      ensures Valid() && g.owned == old(g.owned) && g.numSegments <= old(g.numSegments)
      ensures g.aband == Without(old(g.aband), k) && g.avail != []
      ensures RoundEffect(old(pages.All()), pages.All(), pp, pg, false)
    {
      hide Ok;
      AbandonedMapped(g, pp, pg, k);
      Unlink(pp, pg, k);
      label Unlinked:
      assert pages.Snap(pg) == old(pages.Snap(pg));
      PoolReturn(pg);
      forall q: nat | Busy(old(pages.All())[q]) && q != pg && (q != pp || pp == 0)
        ensures pages.All()[q] == old(pages.All())[q] {
        assert old@Unlinked(pages.Snap(q)) == old(pages.Snap(q));
      }
      assert pp != 0 ==> OnlyNext(old(pages.Snap(pp)), old@Unlinked(pages.Snap(pp)));
      assert pp != 0 ==> pages.Snap(pp) == old@Unlinked(pages.Snap(pp));
    }

    /** One round of sweep_abandoned: the page is collected and, if that leaves nothing in use, unlinked and pooled. */
    method SweepOne(pp: nat, pg: nat, ghost k: nat) returns (kept: bool)
      requires Valid() && AbandonedAt(g, pp, pg, k)
      modifies this, pages
      ensures Valid() && g.owned == old(g.owned) && g.numSegments <= old(g.numSegments)
              && (kept <==> !Drained(old(pages.Snap(pg))))
      ensures kept ==> g == old(g).(hdr := pages.hdr)
      ensures !kept ==> g.aband == Without(old(g.aband), k) && g.avail != []
      ensures RoundEffect(old(pages.All()), pages.All(), pp, pg, kept)
    {
      hide Ok, RoundEffect, Without;
      AbandonedMapped(g, pp, pg, k);
      ghost var s0 := pages.All();
      CollectLocked(pg);
      ghost var s1 := pages.All();
      assert s1[pg] == Collected(s0[pg]) == pages.Snap(pg);
      CollectEffect(s0, s1, pp, pg);
      kept := pages.hdr[pg].used != 0;
      if !kept {
        Reclaim(pp, pg, k);
        EffectTwice(s0, s1, pages.All(), pp, pg);
      }
    }

    ghost predicate Sweeping(b0: Books, before: Snaps, done: seq<nat>, todo: seq<nat>)
      reads this, pages
    {
      && Valid() && g.owned == b0.owned && g.aband == done + todo
      && Progress(before, pages.All(), g.owned, done, todo) && Halfway(b0, g, before, done, todo)
    }

    /** One round, seen against the heap as it was before the sweep. */
    method SweepRound(pp: nat, pg: nat, ghost b0: Books, ghost before: Snaps, ghost done: seq<nat>,
                      ghost todo: seq<nat>)
        returns (kept: bool)
      requires Sweeping(b0, before, done, todo) && todo != [] && pg == todo[0] && pp == LastOf(done)
      modifies this, pages
      ensures Sweeping(b0, before, if kept then done + [pg] else done, todo[1..])
    {
      hide Ok, Without, Drained, Progress, RoundEffect, Halfway;
      InUsePages(g);
      SweepSeq(done, todo);
      ghost var s, b := pages.All(), g;
      forall q: nat | q in b.owned || q in done + todo ensures Busy(s[q]) {}
      kept := SweepOne(pp, pg, |done|);
      RoundKeeps(before, s, pages.All(), b.owned, done, todo, kept);
      HalfwayStep(b0, b, g, before, done, todo, kept);
    }

    /** sweep_abandoned: the pages with blocks still out stay, in order and collected; every drained page leaves. */
    method SweepAbandoned()
      requires Valid()
      modifies this, pages
      ensures Valid() && g.owned == old(g.owned) && g.numSegments <= old(g.numSegments)
      ensures g.aband == Filter(old(g.aband), SurvivorsOf(old(g.aband), old(pages.All())))
      ensures Progress(old(pages.All()), pages.All(), g.owned, g.aband, [])
      ensures if g.aband == old(g.aband) then g == old(g).(hdr := pages.hdr) else g.avail != []
    {
      hide Ok, LastOf, Sweeping;
      ghost var b0, before := g, pages.All();
      ghost var done: seq<nat>, todo: seq<nat> := [], g.aband;
      SweepStart();
      var pp := 0;
      while (if pp == 0 then g.abandHead else Get(pages.next, pp)) != 0
        invariant Sweeping(b0, before, done, todo) && pp == LastOf(done)
        decreases |todo|
      {
        SweepNext(b0, before, done, todo, pp);
        var pg := if pp == 0 then g.abandHead else pages.next[pp];
        LastPushed(done, pg);
        var kept := SweepRound(pp, pg, b0, before, done, todo);
        if kept {
          pp := pg;
          done := done + [pg];
        }
        todo := todo[1..];
      }
      SweepNext(b0, before, done, todo, pp);
      SweepEnd(b0, before, done);
    }

    lemma SweepStart()
      requires Valid()
      ensures Sweeping(g, pages.All(), [], g.aband) && LastOf([]) == 0
    {
      hide Ok, Progress, Halfway;
      HalfwayStart(g, pages.All());
      ProgressStart(pages.All(), g.owned, g.aband);
    }

    /** Following the link in pp reaches the first page still to be swept, or null after the last. */
    lemma SweepNext(b0: Books, before: Snaps, done: seq<nat>, todo: seq<nat>, pp: nat)
      requires Sweeping(b0, before, done, todo) && pp == LastOf(done)
      ensures var cur := if pp == 0 then g.abandHead else Get(pages.next, pp);
              (cur == 0 <==> todo == []) && (todo != [] ==> cur == todo[0])
      ensures pp != 0 ==> pp in pages.next
    {
      hide Ok, Progress, Halfway, LastOf;
      NextAbandoned(g, pp, done, todo);
    }

    lemma SweepEnd(b0: Books, before: Snaps, done: seq<nat>)
      requires Sweeping(b0, before, done, [])
      ensures Valid() && g.owned == b0.owned && g.numSegments <= b0.numSegments
              && g.aband == Filter(b0.aband, SurvivorsOf(b0.aband, before))
      ensures Progress(before, pages.All(), g.owned, g.aband, [])
      ensures if g.aband == b0.aband then g == b0.(hdr := pages.hdr) else g.avail != []
    {
      hide Ok, Progress, Halfway, Filter;
      HalfwayEnd(b0, g, before, done, []);
    }

    // -------------------------------------------------------------- map_segment

    /** The initialisation loop over the page table: pages 1 to 63 are pushed one by one on the segment's free list. */
    method LinkPages(s: nat) returns (head: nat, count: nat)
      requires forall q: nat :: SegmentOfPage(q) == s && Usable(q) ==> q in pages.next
      modifies pages`next
      ensures count == USABLE_PAGES && head == s * PAGES_PER_SEGMENT + USABLE_PAGES
              && IsList(pages.next, head, Chain(s, USABLE_PAGES))
      ensures forall q: nat :: q in pages.next <==> q in old(pages.next)
      ensures forall q: nat :: SegmentOfPage(q) != s ==> Get(pages.next, q) == Get(old(pages.next), q)
    {
      head, count := 0, 0;
      var i := FIRST_USABLE_PAGE;
      while i < PAGES_PER_SEGMENT
        invariant 1 <= i <= PAGES_PER_SEGMENT && count == i - 1
        invariant head == At(Chain(s, count), 0) && IsList(pages.next, head, Chain(s, count))
        invariant forall q: nat :: q in pages.next <==> q in old(pages.next)
        invariant forall q: nat :: SegmentOfPage(q) != s ==> Get(pages.next, q) == Get(old(pages.next), q)
      {
        var pg := s * PAGES_PER_SEGMENT + i;
        ChainPush(pages.next, s, count, head);
        pages.next := pages.next[pg := head];
        head, count, i := pg, count + 1, i + 1;
      }
    }

    /** The page table of a fresh segment, laid out and linked. */
    method MapPages(s: nat) returns (head: nat, count: nat)
      requires pages.Valid() && s > 0 && s !in g.pool && g.hdr == pages.hdr && g.next == pages.next
      requires forall p :: p in pages.hdr ==> SegmentOfPage(p) != s
      modifies pages
      ensures pages.Valid() && Initialised(g, s, pages.next, pages.hdr) && OthersSame(0)
      ensures count == USABLE_PAGES && head == s * PAGES_PER_SEGMENT + USABLE_PAGES
    {
      hide SegmentOfPage, Usable, Chain;
      pages.NewSegment(s);
      label Made:
      forall q: nat ensures (q in pages.next <==> q in pages.hdr) && (q in pages.hdr <==> q in g.hdr || PageIn(s, q))
        ensures q in g.hdr ==> !PageIn(s, q)
        ensures (q in g.hdr ==> pages.hdr[q] == g.hdr[q] && Get(pages.next, q) == Get(g.next, q))
                && (PageIn(s, q) ==> pages.hdr[q] == FRESH_PAGE)
      {
        assert pages.PageAt(q) && pages.Snap(q) == pages.Snap(q);
      }
      head, count := LinkPages(s);
      forall q: nat ensures pages.PageAt(q) && (q in Chain(s, USABLE_PAGES) <==> PageIn(s, q)) {
        assert old@Made(pages.PageAt(q));
        ChainIsSegment(s, q);
      }
      forall q: nat | InUse(old(pages.hdr), q) ensures pages.Snap(q) == old(pages.Snap(q)) {
        assert old@Made(pages.Snap(q)) == old(pages.Snap(q));
      }
    }

    /** The new segment's header is filled in and put on the list of all segments. */
    method AddSegment(s: nat, head: nat, count: nat)
      requires count == USABLE_PAGES && head == s * PAGES_PER_SEGMENT + USABLE_PAGES
      modifies this
      ensures g == JoinedRaw(old(g), s, pages.next, pages.hdr)
    {
      hide Chain;
      g := g.(freeList := g.freeList[s := head], freeCount := g.freeCount[s := count], inAvail := g.inAvail[s := false],
              availNext := g.availNext[s := 0], availPrev := g.availPrev[s := 0],
              hdr := pages.hdr, next := pages.next, pool := g.pool[s := Chain(s, USABLE_PAGES)]);
      g := g.(freePageCount := g.freePageCount + count);
      g := g.(segNext := g.segNext[s := g.segHead], segHead := s, segs := [s] + g.segs);
      g := g.(numSegments := g.numSegments + 1, freeSegments := g.freeSegments + 1);
      g := g.(registered := g.registered + {s * SEGMENT_SIZE}, segmentBytes := g.segmentBytes + SEGMENT_SIZE);
    }

    /** map_segment: answer is the number of the segment the kernel hands out, 0 if it refuses. */
    method MapSegment(answer: nat) returns (ok: bool)
      requires Consistent(0) && answer !in g.pool
      modifies this, pages
      ensures Consistent(0) && (ok <==> answer != 0) && OthersSame(0)
      ensures if ok then g == Joined(old(g), answer, pages.next, pages.hdr) else g == old(g) && unchanged(pages)
      ensures ok ==> g.avail != [] && g.owned == old(g.owned) && g.aband == old(g.aband)
      ensures ok ==> g.numSegments == old(g.numSegments) + 1 && g.freeSegments == old(g.freeSegments) + 1
      ensures ok ==> g.registered == old(g.registered) + {answer * SEGMENT_SIZE}
                     && g.segmentBytes == old(g.segmentBytes) + SEGMENT_SIZE
    {
      hide Ok, Chain, Initialised, Listed, Joined, JoinedRaw;
      if answer == 0 { return false; }
      var s := answer;
      ghost var b := g;
      ReadyToMap(b, s);
      var head, count := MapPages(s);
      JoinOk(b, s, pages.next, pages.hdr);
      AddSegment(s, head, count);
      JoinStages(b, s, pages.next, pages.hdr);
      JoinedFields(b, s, pages.next, pages.hdr);
      AvailPush(s);
      return true;
    }

    // -------------------------------------------------------------- central_acquire_page

    /** The first page of the first available segment leaves its pool. */
    method PopPool(s: nat) returns (pg: nat)
      requires Consistent(0) && g.avail != [] && s == g.availHead
      modifies this
      ensures Ok(g, pg) && g == Taken(old(g), s) && InPool(old(g), pg)
      ensures g.hdr == old(g.hdr) && g.next == old(g.next) && g.owned == old(g.owned) && g.aband == old(g.aband)
      ensures g.freeSegments <= old(g.freeSegments) && g.numSegments == old(g.numSegments)
      ensures TakenFirst(old(g), g, pg)
    {
      hide Ok, PoolPopped, Unlisted, TakenFirst;
      ghost var b := g;
      ReadyToTake(b);
      pg := g.freeList[s];
      TakeOk(b, s, pg);
      TakenSame(b, s, pg);
      TakenCounts(b);
      TakenIsFirst(b, pg);
      PopFields(pg);
      PoppedFields(b);
      if g.freeCount[s] == 0 { AvailRemove(s, 0); }
    }

    method PopFields(pg: nat)
      requires g.availHead in g.freeList && g.availHead in g.freeCount && pg == g.freeList[g.availHead]
               && pg in pages.next && g.next == pages.next
      requires g.freeCount[g.availHead] > 0 && g.availHead in g.pool && g.pool[g.availHead] != []
      modifies this
      ensures g == PoolPopped(old(g), old(g.availHead))
    {
      var s := g.availHead;
      if g.freeCount[s] == USABLE_PAGES { g := g.(freeSegments := g.freeSegments - 1); }
      g := g.(freeList := g.freeList[s := pages.next[pg]], pool := g.pool[s := g.pool[s][1..]]);
      g := g.(freeCount := g.freeCount[s := g.freeCount[s] - 1], freePageCount := g.freePageCount - 1);
    }

    /** The taken page is stamped with its new owner. */
    method TakePage(owner: nat, cls: nat, size: nat) returns (pg: nat)
      requires Consistent(0) && g.avail != [] && owner != ABANDONED && GoodSize(size)
      modifies this, pages
      ensures Consistent(0) && g.freeSegments <= old(g.freeSegments) && g.numSegments == old(g.numSegments)
      ensures InPool(old(g), pg) && pg != 0 && g.owned == old(g.owned) + {pg} && g.aband == old(g.aband)
      ensures TakenFirst(old(g), g, pg)
      ensures forall q: nat {:trigger pages.Snap(q)} ::
                pages.Snap(q) == if q == pg then Mapped(NewPage(size, cls, owner), 0, 0, [], []) else old(pages.Snap(q))
    {
      hide Ok, Taken;
      ghost var b := g;
      pg := PopPool(g.availHead);
      assert pages.PageAt(pg);
      StampOk(g, pg, NewPage(size, cls, owner));
      pages.Stamp(pg, size, cls, owner);
      g := g.(pagesInUse := g.pagesInUse + 1, owned := g.owned + {pg}, hdr := pages.hdr, next := pages.next);
    }

    /** Before a page can be taken: sweep when none is available, map when the sweep frees none. */
    method Refill(answer: nat) returns (ok: bool)
      requires Valid() && answer !in g.pool
      modifies this, pages
      ensures Valid() && g.owned == old(g.owned) && (ok <==> g.avail != [])
      ensures ok <==> old(g.avail) != [] || AnyDrained(old(g.aband), old(pages.All())) || answer != 0
      ensures g.numSegments > old(g.numSegments) ==> old(g.avail) == [] && !AnyDrained(old(g.aband), old(pages.All()))
      ensures Reclaimed(old(g), g, old(pages.All()), pages.All()) && (old(g.avail) != [] ==> g == old(g))
    {
      hide Ok, Progress, Filter, SurvivorsOf, AnyDrained, Joined;
      ghost var b0, s0 := g, pages.All();
      AvailHead(g);
      if g.availHead != 0 { return true; }
      SweepAbandoned();
      AvailHead(g);
      FilterAll(b0.aband, s0);
      if g.availHead != 0 { return true; }
      ok := Grow(s0, answer);
    }

    /** Nothing is available and the sweep freed nothing: a new segment, if the kernel grants one. */
    method Grow(ghost s0: Snaps, answer: nat) returns (ok: bool)
      requires Valid() && g.avail == [] && g.freeSegments <= 0 && answer !in g.pool
               && Progress(s0, pages.All(), g.owned, g.aband, [])
      modifies this, pages
      ensures Valid() && g.owned == old(g.owned) && g.aband == old(g.aband) && (ok <==> g.avail != [])
              && (ok <==> answer != 0)
      ensures Progress(s0, pages.All(), g.owned, g.aband, [])
    {
      hide Ok, Progress, Joined;
      ghost var b, s := g, pages.All();
      InUsePages(g);
      ok := MapSegment(answer);
      forall q: nat | q in b.owned || q in b.aband ensures pages.All()[q] == s[q] {}
      ProgressFrame(s0, s, pages.All(), b.owned, b.aband);
    }

    /** central_acquire_page */
    method Acquire(owner: nat, cls: nat, size: nat, answer: nat) returns (pg: nat)
      requires Valid() && owner != ABANDONED && GoodSize(size) && answer !in g.pool
      modifies this, pages
      ensures Valid() && g.owned == old(g.owned) + (if pg == 0 then {} else {pg}) && pg !in old(g.owned)
      ensures pg == 0 <==> old(g.avail) == [] && !AnyDrained(old(g.aband), old(pages.All())) && answer == 0
      ensures g.numSegments > old(g.numSegments) ==> old(g.avail) == [] && !AnyDrained(old(g.aband), old(pages.All()))
      ensures pg != 0 ==> pages.Snap(pg) == Mapped(NewPage(size, cls, owner), 0, 0, [], [])
      ensures pg != 0 ==> Spare(old(g.aband), old(pages.Snap(pg)), pg)
      ensures old(g.avail) != [] ==> TakenFirst(old(g), g, pg)
      ensures Reclaimed(old(g), g, old(pages.All()), pages.All())
    {
      hide Ok, Reclaimed, AnyDrained, TakenFirst;
      InUsePages(g);
      ghost var b0, s0 := g, pages.All();
      BusyPages(g);
      var ok := Refill(answer);
      if !ok { return 0; }
      InUsePages(g);
      ghost var b1, s1 := g, pages.All();
      pg := TakePage(owner, cls, size);
      TakenSpare(b0, b1, s0, s1, pg);
      ReclaimedTake(b0, b1, g, s0, s1, pages.All(), pg);
    }

    lemma BusyPages(b: Books)
      requires Ok(b, 0) && b.hdr == pages.hdr
      ensures forall q: nat {:trigger pages.Snap(q)} :: Busy(pages.Snap(q)) ==> q in b.owned || q in b.aband
    {
      forall q: nat | Busy(pages.Snap(q)) ensures q in b.owned || q in b.aband { assert PageHome(b, q, 0); }
    }

    /** central_release_page */
    method Release(pg: nat)
      requires Valid() && pg in g.owned
      modifies this, pages`hdr, pages`next, pages`prev, pages`free, pages`parked
      ensures Valid() && OthersSame(pg) && g.owned == old(g.owned) - {pg} && g.aband == old(g.aband) && g.avail != []
      ensures Returned(old(g), g.(owned := old(g.owned), pagesInUse := old(g.pagesInUse)), pg)
    {
      hide Ok;
      DisownOk(g, pg);
      g := g.(pagesInUse := g.pagesInUse - 1, owned := g.owned - {pg});
      PoolReturn(pg);
    }

    /** central_abandon_page */
    method Abandon(pg: nat)
      requires Valid() && pg in g.owned
      modifies this, pages`hdr, pages`next, pages`prev
      ensures Valid() && g.owned == old(g.owned) - {pg} && g.aband == [pg] + old(g.aband) && g.pool == old(g.pool)
      ensures g.avail == old(g.avail) && g.segs == old(g.segs)
      ensures forall q: nat {:trigger pages.Snap(q)} :: q != pg ==> pages.Snap(q) == old(pages.Snap(q))
      ensures pg in old(pages.hdr)
      ensures pages.Snap(pg) == Mapped(old(pages.hdr[pg]).(owner := ABANDONED), old(g.abandHead), 0,
              old(pages.FreeOf(pg)), old(pages.ParkedOf(pg)))
    {
      hide Ok;
      ForsakeOk(g, pg);
      pages.hdr := pages.hdr[pg := pages.hdr[pg].(owner := ABANDONED)];
      pages.prev := pages.prev[pg := 0];
      pages.next := pages.next[pg := g.abandHead];
      g := g.(abandHead := pg, aband := [pg] + g.aband, hdr := pages.hdr, next := pages.next);
      g := g.(abandonedCount := g.abandonedCount + 1, pagesInUse := g.pagesInUse - 1, owned := g.owned - {pg});
      forall q: nat ensures pages.PageAt(q) { assert old(pages.PageAt(q)); }
    }
  }
}
