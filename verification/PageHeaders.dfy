/**
 Page headers and block memory as the code sees them between atomic steps: the owner (or the holder of
 the central lock, for an abandoned page) collects, extends, pops and frees on one page.
 A header can be touched only while its segment is mapped, that is while it is in the maps.
 */
module PageHeaders {
  import opened Layout
  import opened Memory
  import opened Blocks
  import opened Lists
  import opened Machine
  import opened Invariant
  import opened PageSteps

  predicate AtHome(pid: nat, x: nat) { x > 0 && x % ALLOC_ALIGN == 0 && x / PAGE_SIZE == pid }

  /** The owner's view of a page: its free list f and the blocks p parked on thread_free are carved blocks, `used`
      counts everything but f, and so at least the parked ones. */
  ghost predicate PageLists(pid: nat, pg: Page, f: seq<nat>, p: seq<nat>, m: Mem) {
    && IsList(m, pg.free, f) && IsList(m, pg.threadFree, p)
    && Shape(pg) && multiset(f) + multiset(p) <= multiset(Carved(pid, pg))
    && pg.used + |f| == pg.reserved && |p| <= pg.used
  }

  lemma ListedPlace(pid: nat, pg: Page, f: seq<nat>, p: seq<nat>, m: Mem, x: nat)
    requires pid > 0 && PageLists(pid, pg, f, p, m) && (x in f || x in p)
    ensures AtHome(pid, x) && (multiset(f) + multiset(p))[x] == 1
  {
    var c := Carved(pid, pg);
    assert x in multiset(f) + multiset(p);
    assert x in multiset(c);
    BlockPlace(pid, pg.blockSize, pg.reserved, x);
    BlocksDistinct(Area(pid), pg.blockSize, pg.reserved);
    DistinctOnce(c, x);
  }

  /** The invariant of the transition system gives the owner exactly this view. */
  lemma OwnerView(pid: nat, pg: Page, pv: PageView, m: Mem)
    requires pg.inUse && PageOk(pid, pg, pv, m)
    ensures PageLists(pid, pg, pv.free, pv.pushed, m)
  {
    assert |Held(pv)| == |multiset(Carved(pid, pg))|;
  }

  /** Everything a page header and its lists hold, or that its segment is not mapped. */
  datatype PageSnap = Gone | Mapped(page: Page, next: nat, prev: nat, free: seq<nat>, parked: seq<nat>)

  /** All pages at one moment. */
  type Snaps = s: imap<nat, PageSnap> | forall q: nat :: q in s ghost witness imap q: nat :: Gone

  ghost predicate Busy(s: PageSnap) { s.Mapped? && s.page.inUse }

  /** Only page p differs. */
  ghost predicate OnlyAt(s: Snaps, t: Snaps, p: nat) {
    forall q: nat {:trigger t[q]} :: q != p ==> t[q] == s[q]
  }

  /** The page after its parked blocks were collected. */
  ghost function Collected(s: PageSnap): PageSnap {
    if s.Gone? then s
    else s.(page := s.page.(threadFree := 0, used := s.page.used - |s.parked|, free := At(s.parked + s.free, 0)),
            free := s.parked + s.free, parked := [])
  }

  /** The page after page_make_available: as it is if a local block is free, else with its parked blocks collected if
      there are any, else with the next batch carved. */
  ghost function Prepared(pid: nat, s: PageSnap): PageSnap {
    if s.Gone? || s.free != [] then s
    else if s.parked != [] then Collected(s)
    else s.(page := Extended(pid, s.page), free := Fresh(pid, s.page))
  }

  /** The page after its first free block was handed out. */
  ghost function Popped(s: PageSnap): PageSnap {
    if s.Gone? || s.free == [] then s
    else s.(page := s.page.(free := At(s.free, 1), used := s.page.used + 1), free := s.free[1..])
  }

  /** The page after a block was pushed on its free list. */
  ghost function Repushed(s: PageSnap, blk: nat): PageSnap {
    if s.Gone? then s else s.(page := s.page.(free := blk, used := s.page.used - 1), free := [blk] + s.free)
  }

  /** The blocks of a page that clients hold: carved and on neither list. */
  ghost function HeldSnap(pid: nat, s: PageSnap): set<nat> {
    if s.Gone? then {} else HeldIn(Carved(pid, s.page), s.free, s.parked)
  }

  /** blk went from the client to the front of the page's free list. */
  ghost predicate PushedOn(pid: nat, s: PageSnap, t: PageSnap, blk: nat) {
    && s.Mapped? && t == Repushed(s, blk)
    && blk in HeldSnap(pid, s) && HeldSnap(pid, t) == HeldSnap(pid, s) - {blk}
    && t.page.used >= 0 && (t.page.used == 0 ==> HeldSnap(pid, t) == {})
  }

  /** Nothing can be had from the page. */
  ghost predicate Spent(s: PageSnap) { s.Mapped? && Exhausted(s.page, s.free, s.parked) }

  ghost predicate HasFree(s: PageSnap) { s.Mapped? && s.free != [] }

  /** The page was made available; clients hold what they held. */
  ghost predicate Readies(p: nat, s: PageSnap, t: PageSnap) {
    t == Prepared(p, s) && t.Mapped? && t.free != [] && HeldSnap(p, t) == HeldSnap(p, s)
  }

  /** The first free block went to a client. */
  ghost predicate Pops(p: nat, s: PageSnap, t: PageSnap, blk: nat) {
    && s.Mapped? && s.free != [] && blk == s.free[0] && blk != 0 && t == Popped(s)
    && blk !in HeldSnap(p, s) && HeldSnap(p, t) == HeldSnap(p, s) + {blk}
  }

  class Headers {
    var hdr: map<nat, Page>
    var next: map<nat, nat>
    var prev: map<nat, nat>
    var mem: Mem
    ghost var free: map<nat, seq<nat>>
    ghost var parked: map<nat, seq<nat>>

    /** The page's local free list, and its thread_free list. */
    ghost function FreeOf(pid: nat): seq<nat>
      reads this
    {
      if pid in free then free[pid] else []
    }

    ghost function ParkedOf(pid: nat): seq<nat>
      reads this
    {
      if pid in parked then parked[pid] else []
    }

    ghost function Snap(pid: nat): PageSnap
      reads this
    {
      if pid in hdr then Mapped(hdr[pid], Get(next, pid), Get(prev, pid), FreeOf(pid), ParkedOf(pid)) else Gone
    }

    ghost function HeldOf(pid: nat): set<nat>
      reads this
    {
      if pid in hdr then HeldIn(Carved(pid, hdr[pid]), FreeOf(pid), ParkedOf(pid)) else {}
    }

    lemma HeldShown(pid: nat)
      ensures HeldOf(pid) == HeldSnap(pid, All()[pid])
    {
      assert All()[pid] == Snap(pid);
    }

    ghost function All(): (r: Snaps)
      reads this
      ensures forall q: nat {:trigger Snap(q)} {:trigger r[q]} :: r[q] == Snap(q)
    {
      imap q: nat :: Snap(q)
    }

    ghost predicate PageAt(pid: nat)
      reads this
    {
      && (pid in next <==> pid in hdr) && (pid in prev <==> pid in hdr)
      && (pid in free <==> pid in hdr) && (pid in parked <==> pid in hdr)
      && (pid in hdr ==> pid > 0 && (hdr[pid].inUse ==> PageLists(pid, hdr[pid], free[pid], parked[pid], mem)))
    }

    ghost predicate Valid()
      reads this
    {
      forall pid: nat {:trigger PageAt(pid)} :: PageAt(pid)
    }

    /** Everything but page pid's header entry, lists and blocks is as before. */
    twostate predicate OnlyPage(pid: nat)
      reads this
    {
      && pid in old(hdr) && pid in hdr && hdr == old(hdr)[pid := hdr[pid]]
      && pid in free && pid in parked && free == old(free)[pid := free[pid]]
      && parked == old(parked)[pid := parked[pid]]
    }

    twostate lemma OnlySnap(pid: nat)
      requires OnlyPage(pid) && next == old(next) && prev == old(prev)
      ensures OnlyAt(old(All()), All(), pid)
    {
    }

    /** Writes inside one page's area leave every other page's lists alone. */
    twostate lemma OthersKept(pid: nat)
      requires old(Valid()) && OnlyPage(pid) && next == old(next) && prev == old(prev)
      requires OutsideSame(old(mem), mem, pid) && PageAt(pid)
      ensures Valid()
    {
      forall q: nat ensures PageAt(q) {
        if q != pid {
          assert old(PageAt(q));
          if q in hdr && hdr[q].inUse { FrameLists(q, hdr[q], free[q], parked[q], old(mem), mem, pid); }
        }
      }
    }

    /** The kernel zero-fills the range of a segment none of whose pages is in use. */
    method ZeroFill(s: nat)
      requires Valid() && forall p :: p in hdr ==> SegmentOfPage(p) != s
      modifies this`mem
      ensures Valid() && mem == Clear(old(mem), s * SEGMENT_SIZE, (s + 1) * SEGMENT_SIZE)
    {
      hide PageLists, Clear;
      mem := Clear(mem, s * SEGMENT_SIZE, (s + 1) * SEGMENT_SIZE);
      forall q: nat ensures PageAt(q) {
        assert old(PageAt(q));
        if q in hdr && hdr[q].inUse { ClearElsewhere(q, hdr[q], free[q], parked[q], old(mem), s); }
      }
    }

    /** A new zero-filled mapping holds a segment header with its page table, all fields null. */
    method NewSegment(s: nat)
      requires Valid() && s > 0 && forall p :: p in hdr ==> SegmentOfPage(p) != s
      modifies this
      ensures Valid()
      ensures forall q: nat {:trigger Snap(q)} :: Snap(q) == if PageIn(s, q) then Mapped(FRESH_PAGE, 0, 0, [], [])
              else old(Snap(q))
    {
      hide WithSegment, PageLists, Clear;
      ZeroFill(s);
      label Zeroed:
      hdr, next, prev := WithSegment(hdr, s, FRESH_PAGE), WithSegment(next, s, 0), WithSegment(prev, s, 0);
      free, parked := WithSegment(free, s, []), WithSegment(parked, s, []);
      forall q: nat ensures PageAt(q) {
        assert old@Zeroed(PageAt(q));
      }
    }

    /** os_free of a segment: its page headers are gone. */
    method UnmapSegment(s: nat)
      requires Valid()
      modifies this`hdr, this`next, this`prev, this`free, this`parked
      ensures Valid() && hdr == WithoutSegment(old(hdr), s) && next == WithoutSegment(old(next), s)
      ensures forall q: nat {:trigger Snap(q)} :: Snap(q) == if SegmentOfPage(q) == s then Gone else old(Snap(q))
    {
      hdr, next, prev := WithoutSegment(hdr, s), WithoutSegment(next, s), WithoutSegment(prev, s);
      free, parked := WithoutSegment(free, s), WithoutSegment(parked, s);
      forall q: nat ensures PageAt(q) { assert old(PageAt(q)); }
    }

    /** A page is handed out: fresh header, empty lists, linked to nothing. */
    method Stamp(pg: nat, size: nat, cls: nat, owner: nat)
      requires Valid() && pg in hdr && GoodSize(size)
      modifies this`hdr, this`next, this`prev, this`free, this`parked
      ensures Valid() && hdr == old(hdr)[pg := NewPage(size, cls, owner)] && next == old(next)[pg := 0]
      ensures forall q: nat {:trigger Snap(q)} :: Snap(q) == if q == pg
              then Mapped(NewPage(size, cls, owner), 0, 0, [], []) else old(Snap(q))
    {
      hdr := hdr[pg := Page(0, 0, PAGE_SIZE / size, 0, size, cls, true, owner, 0)];
      next, prev := next[pg := 0], prev[pg := 0];
      free, parked := free[pg := []], parked[pg := []];
      assert multiset(Carved(pg, hdr[pg])) == multiset{};
      forall q: nat ensures PageAt(q) { assert old(PageAt(q)) && old(PageAt(pg)); }
    }

    /** page_collect and collect_locked: swap thread_free out, find its tail, splice it in front of the free list. */
    method Gather(pid: nat)
      requires Valid() && pid in hdr && hdr[pid].inUse
      modifies this`hdr, this`mem, this`free, this`parked
      ensures Valid() && OnlyPage(pid) && OutsideSame(old(mem), mem, pid)
      ensures ParkedOf(pid) == [] && FreeOf(pid) == old(ParkedOf(pid)) + old(FreeOf(pid))
      ensures old(ParkedOf(pid)) == [] ==> mem == old(mem)
      ensures HeldOf(pid) == old(HeldOf(pid))
      ensures hdr[pid] == old(hdr[pid]).(threadFree := 0, used := old(hdr[pid].used) - |old(ParkedOf(pid))|,
              free := At(FreeOf(pid), 0))
    {
      assert PageAt(pid);
      var list := hdr[pid].threadFree;
      ghost var f, p := FreeOf(pid), ParkedOf(pid);
      assert PageAt(pid);
      ListEmptiness(mem, list, p);
      if list == 0 {
        assert f == p + f && hdr[pid].free == At(f, 0);
        hdr := hdr[pid := hdr[pid].(threadFree := 0)];
        OthersKept(pid);
        return;
      }
      var n := 1;
      var tail := list;
      while Get(mem, tail) != 0
        invariant 1 <= n <= |p| && tail == p[n - 1] && IsList(mem, list, p)
        invariant unchanged(this)
        decreases |p| - n
      {
        WalkOn(mem, list, p, n);
        tail := Get(mem, tail);
        n := n + 1;
      }
      WalkOn(mem, list, p, n);
      SpliceOwner(pid, hdr[pid], f, p, mem);
      assert HeldIn(Carved(pid, hdr[pid]), p + f, []) == HeldIn(Carved(pid, hdr[pid]), f, p);
      mem := Store(mem, tail, hdr[pid].free);
      hdr := hdr[pid := hdr[pid].(threadFree := 0, free := list, used := hdr[pid].used - n)];
      free, parked := free[pid := p + f], parked[pid := []];
      OthersKept(pid);
    }

    /** The same, seen as what it does to all pages. */
    method Collect(pid: nat)
      requires Valid() && pid in hdr && hdr[pid].inUse
      modifies this`hdr, this`mem, this`free, this`parked
      ensures Valid() && OnlyPage(pid) && OutsideSame(old(mem), mem, pid)
      ensures ParkedOf(pid) == [] && FreeOf(pid) == old(ParkedOf(pid)) + old(FreeOf(pid))
      ensures old(ParkedOf(pid)) == [] ==> mem == old(mem)
      ensures HeldOf(pid) == old(HeldOf(pid))
      ensures hdr[pid] == old(hdr[pid]).(threadFree := 0, used := old(hdr[pid].used) - |old(ParkedOf(pid))|,
              free := At(FreeOf(pid), 0))
      ensures OnlyAt(old(All()), All(), pid) && Busy(old(All())[pid]) && All()[pid] == Collected(old(All())[pid])
      ensures HeldSnap(pid, All()[pid]) == HeldSnap(pid, old(All())[pid]) && All()[pid].page == hdr[pid]
    {
      hide OnlyAt, HeldIn, Carved, OutsideSame, PageLists;
      ghost var s := All();
      assert s[pid] == Snap(pid);
      HeldShown(pid);
      Gather(pid);
      OnlySnap(pid);
      HeldShown(pid);
      assert All()[pid] == Snap(pid);
    }

    /** page_extend */
    method Extend(pid: nat)
      requires Valid() && pid in hdr && hdr[pid].inUse
      modifies this`hdr, this`mem, this`free
      ensures Valid() && OnlyPage(pid) && OutsideSame(old(mem), mem, pid)
      ensures hdr[pid] == Extended(pid, old(hdr[pid])) && FreeOf(pid) == Fresh(pid, old(hdr[pid])) + old(FreeOf(pid))
      ensures HeldOf(pid) == old(HeldOf(pid))
      ensures CarvedBatch(old(hdr[pid]), hdr[pid])
    {
      hide PageLists, Carve, Fresh, OutsideSame, BlockSeq, Batch, At, AreaEnd, HeldIn, Carved, EightKiB;
      ghost var f, p, pg0, m0 := FreeOf(pid), ParkedOf(pid), hdr[pid], mem;
      assert PageAt(pid);
      ExtendOwner(pid, pg0, f, p, m0);
      HeldExtend(pid, pg0, f, p, m0);
      FreshMeaning(pid, pg0, f, p, m0);
      BatchMeaning(pg0.blockSize, pg0.capacity - pg0.reserved);
      OutsideRefl(mem, pid);
      var remaining := hdr[pid].capacity - hdr[pid].reserved;
      if remaining == 0 {
        NothingFresh(pid, pg0, f);
        return;
      }
      var batch := Batch(hdr[pid].blockSize, remaining);
      var start := AreaEnd(pid, hdr[pid]);
      var m', head := CarveLoop(mem, start, hdr[pid].blockSize, batch, hdr[pid].free);
      mem := m';
      hdr := hdr[pid := hdr[pid].(free := head, reserved := hdr[pid].reserved + batch)];
      free := free[pid := Fresh(pid, pg0) + f];
      assert hdr[pid] == Extended(pid, pg0);
      OthersKept(pid);
    }

    /** page_make_available: use local blocks, else collect remote frees, else carve more. */
    method MakeAvailable(pid: nat) returns (ok: bool)
      requires Valid() && pid in hdr && hdr[pid].inUse
      modifies this`hdr, this`mem, this`free, this`parked
      ensures Valid() && OnlyPage(pid) && OutsideSame(old(mem), mem, pid)
      ensures ok <==> FreeOf(pid) != []
      ensures !ok <==> Exhausted(old(hdr[pid]), old(FreeOf(pid)), old(ParkedOf(pid)))
      ensures !ok ==> unchanged(this`hdr) && unchanged(this`mem) && unchanged(this`free) && unchanged(this`parked)
      ensures SameOwnership(old(hdr[pid]), hdr[pid])
      ensures old(FreeOf(pid)) != [] ==>
              unchanged(this`hdr) && unchanged(this`mem) && unchanged(this`free) && unchanged(this`parked)
      ensures old(FreeOf(pid)) == [] && old(ParkedOf(pid)) != [] ==>
              FreeOf(pid) == old(ParkedOf(pid)) && ParkedOf(pid) == []
      ensures HeldOf(pid) == old(HeldOf(pid)) && Snap(pid) == Prepared(pid, old(Snap(pid)))
    {
      hide PageLists, Carve, Fresh, OutsideSame, HeldIn, Carved;
      assert PageAt(pid);
      FreeHead(pid);
      OutsideRefl(mem, pid);
      if hdr[pid].free != 0 { return true; }
      ghost var p := ParkedOf(pid);
      ghost var m0 := mem;
      Gather(pid);
      assert FreeOf(pid) == p + [] == p;
      FreeHead(pid);
      if hdr[pid].free != 0 { return true; }
      NothingCollected(pid);
      if hdr[pid].reserved < hdr[pid].capacity {
        ghost var m1 := mem;
        FreshSome(pid);
        Extend(pid);
        OutsideTwice(m0, m1, mem, pid);
        FreeHead(pid);
        assert Fresh(pid, old(hdr[pid])) + [] == Fresh(pid, old(hdr[pid]));
        return hdr[pid].free != 0;
      }
      NothingFresh(pid, hdr[pid], []);
      return false;
    }

    lemma EmptyHeld(pid: nat)
      requires Valid() && pid in hdr && hdr[pid].inUse
      ensures hdr[pid].used >= 0 && (hdr[pid].used == 0 ==> HeldOf(pid) == {})
    {
      assert PageAt(pid);
      if hdr[pid].used == 0 { NothingHeld(pid, hdr[pid], FreeOf(pid), ParkedOf(pid), mem); }
    }

    lemma FreeHead(pid: nat)
      requires Valid() && pid in hdr && hdr[pid].inUse
      ensures (hdr[pid].free == 0 <==> FreeOf(pid) == []) && hdr[pid].reserved <= hdr[pid].capacity
    {
      assert PageAt(pid);
      ListEmptiness(mem, hdr[pid].free, FreeOf(pid));
    }

    lemma FreshSome(pid: nat)
      requires Valid() && pid in hdr && hdr[pid].inUse && hdr[pid].reserved < hdr[pid].capacity
      ensures Fresh(pid, hdr[pid]) != [] && SameOwnership(hdr[pid], Extended(pid, hdr[pid]))
    {
      assert PageAt(pid);
    }

    /** A collection that found nothing changed nothing. */
    twostate lemma NothingCollected(pid: nat)
      requires old(Valid()) && Valid() && OnlyPage(pid) && old(hdr[pid]).inUse && old(ParkedOf(pid)) == []
      requires ParkedOf(pid) == [] && FreeOf(pid) == old(FreeOf(pid)) && old(FreeOf(pid)) == []
      requires hdr[pid] == old(hdr[pid]).(threadFree := 0, used := old(hdr[pid].used) - |old(ParkedOf(pid))|, free := 0)
      ensures hdr == old(hdr) && free == old(free) && parked == old(parked)
    {
      assert old(PageAt(pid));
      ListEmptiness(old(mem), old(hdr[pid]).free, old(FreeOf(pid)));
      ListEmptiness(old(mem), old(hdr[pid]).threadFree, old(ParkedOf(pid)));
    }

    /** page_pop, and the inline pop of heap_malloc. */
    method Pop(pid: nat) returns (b: nat)
      requires Valid() && pid in hdr && hdr[pid].inUse && FreeOf(pid) != []
      modifies this`hdr, this`free
      ensures Valid() && OnlyPage(pid)
      ensures b == old(FreeOf(pid)[0]) && b != 0 && FreeOf(pid) == old(FreeOf(pid)[1..])
      ensures b !in old(HeldOf(pid)) && HeldOf(pid) == old(HeldOf(pid)) + {b}
      ensures hdr[pid] == old(hdr[pid]).(free := Get(mem, b), used := old(hdr[pid].used) + 1)
      ensures Snap(pid) == Popped(old(Snap(pid)))
    {
      assert PageAt(pid);
      ListEmptiness(mem, hdr[pid].free, FreeOf(pid));
      WalkOn(mem, hdr[pid].free, FreeOf(pid), 1);
      b := hdr[pid].free;
      PopOwner(pid, hdr[pid], FreeOf(pid), ParkedOf(pid), mem);
      HeldPop(pid, hdr[pid], FreeOf(pid), ParkedOf(pid), mem);
      hdr := hdr[pid := hdr[pid].(free := Get(mem, b), used := hdr[pid].used + 1)];
      free := free[pid := FreeOf(pid)[1..]];
      OthersKept(pid);
    }

    /** page_make_available, seen as what it does to all pages. */
    method Ready(pid: nat) returns (ok: bool)
      requires Valid() && pid in hdr && hdr[pid].inUse
      modifies this`hdr, this`mem, this`free, this`parked
      ensures Valid() && pid in hdr && hdr == old(hdr)[pid := hdr[pid]] && SameOwnership(old(hdr)[pid], hdr[pid])
      ensures !ok <==> Spent(old(All())[pid])
      ensures !ok ==> unchanged(this) && hdr[pid].used > 0
      ensures ok ==> OnlyAt(old(All()), All(), pid) && Readies(pid, old(All())[pid], All()[pid]) && FreeOf(pid) != []
      ensures HasFree(old(All())[pid]) ==> unchanged(this`mem)
    {
      hide OnlyAt, PageLists, OutsideSame, HeldIn, Carved, Prepared, HeldSnap;
      ghost var s := All();
      assert s[pid] == Snap(pid);
      HeldShown(pid);
      ok := MakeAvailable(pid);
      assert All()[pid] == Snap(pid);
      HeldShown(pid);
      if !ok {
        assert PageAt(pid);
        SpentWorks(pid, hdr[pid], FreeOf(pid), ParkedOf(pid), mem);
        return;
      }
      OnlySnap(pid);
    }

    /** page_pop, seen as what it does to all pages. */
    method Hand(pid: nat) returns (b: nat)
      requires Valid() && pid in hdr && hdr[pid].inUse && FreeOf(pid) != []
      modifies this`hdr, this`free
      ensures Valid() && pid in hdr && hdr == old(hdr)[pid := hdr[pid]] && SameOwnership(old(hdr)[pid], hdr[pid])
      ensures OnlyAt(old(All()), All(), pid) && Pops(pid, old(All())[pid], All()[pid], b)
    {
      hide OnlyAt, PageLists, HeldIn, Carved, HeldSnap;
      ghost var s := All();
      assert s[pid] == Snap(pid);
      HeldShown(pid);
      b := Pop(pid);
      assert All()[pid] == Snap(pid);
      HeldShown(pid);
      OnlySnap(pid);
    }

    /** The push half of a local heap_free; b is a block the client holds. */
    method PushLocal(pid: nat, b: nat)
      requires Valid() && pid in hdr && hdr[pid].inUse && b in HeldOf(pid)
      modifies this`hdr, this`mem, this`free
      ensures Valid() && OnlyPage(pid) && OutsideSame(old(mem), mem, pid)
      ensures FreeOf(pid) == [b] + old(FreeOf(pid)) && HeldOf(pid) == old(HeldOf(pid)) - {b}
      ensures hdr[pid] == old(hdr[pid]).(free := b, used := old(hdr[pid].used) - 1)
    {
      hide PageLists;
      assert PageAt(pid);
      HeldCounted(pid, hdr[pid], FreeOf(pid), ParkedOf(pid), mem, b);
      PushOwner(pid, hdr[pid], FreeOf(pid), ParkedOf(pid), mem, b);
      mem := Store(mem, b, hdr[pid].free);
      hdr := hdr[pid := hdr[pid].(free := b, used := hdr[pid].used - 1)];
      free := free[pid := [b] + FreeOf(pid)];
      OthersKept(pid);
    }

    /** The same, seen as what it does to all pages. */
    method Push(pid: nat, b: nat)
      requires Valid() && pid in hdr && hdr[pid].inUse && b in HeldOf(pid)
      modifies this`hdr, this`mem, this`free
      ensures Valid() && pid in hdr && hdr == old(hdr)[pid := hdr[pid]] && SameOwnership(old(hdr)[pid], hdr[pid])
      ensures OnlyAt(old(All()), All(), pid) && PushedOn(pid, old(All())[pid], All()[pid], b)
              && All()[pid].page == hdr[pid]
    {
      hide OnlyAt, PageLists, OutsideSame, HeldIn, Carved;
      ghost var s := All();
      assert s[pid] == Snap(pid);
      HeldShown(pid);
      PushLocal(pid, b);
      OnlySnap(pid);
      HeldShown(pid);
      EmptyHeld(pid);
      assert All()[pid] == Snap(pid);
    }
  }

  /** Nothing can be allocated from the page: no local block, nothing to collect, nothing left to carve. */
  predicate Exhausted(pg: Page, f: seq<nat>, p: seq<nat>) {
    f == [] && p == [] && pg.reserved == pg.capacity
  }

  /** A page with nothing to give has all its blocks out. */
  lemma SpentWorks(pid: nat, pg: Page, f: seq<nat>, p: seq<nat>, m: Mem)
    requires PageLists(pid, pg, f, p, m) && Exhausted(pg, f, p)
    ensures pg.used > 0
  {
  }

  predicate SameOwnership(a: Page, b: Page) {
    b.inUse == a.inUse && b.owner == a.owner && b.cls == a.cls && b.blockSize == a.blockSize && b.capacity == a.capacity
  }

  lemma ListEmptiness(m: Mem, head: nat, s: seq<nat>)
    requires IsList(m, head, s)
    ensures head == 0 <==> s == []
    ensures s != [] ==> head == s[0]
  {
    assert s != [] ==> Link(m, s, 0);
  }

  lemma WalkOn(m: Mem, head: nat, s: seq<nat>, n: nat)
    requires IsList(m, head, s) && 1 <= n <= |s|
    ensures Get(m, s[n - 1]) == At(s, n) && (Get(m, s[n - 1]) != 0 <==> n < |s|)
  {
    assert Link(m, s, n - 1);
    assert n < |s| ==> Link(m, s, n);
  }

  lemma OutsideRefl(m: Mem, pid: nat)
    ensures OutsideSame(m, m, pid)
  {
  }

  lemma OutsideTwice(m0: Mem, m1: Mem, m2: Mem, pid: nat)
    requires OutsideSame(m0, m1, pid) && OutsideSame(m1, m2, pid)
    ensures OutsideSame(m0, m2, pid)
  {
  }

  /** Where the carved part of a page's area ends. */
  function AreaEnd(pid: nat, pg: Page): nat { Area(pid) + pg.reserved * pg.blockSize }

  /** The carving loop of page_extend, last block first. */
  method CarveLoop(m: Mem, start: nat, size: nat, batch: nat, free: nat) returns (m': Mem, head: nat)
    ensures m' == Carve(m, BlockSeq(start, size, batch), free)
    ensures head == At(BlockSeq(start, size, batch) + [free], 0)
  {
    ghost var blocks := BlockSeq(start, size, batch);
    m', head := m, free;
    var i := batch;
    assert blocks[..i] == blocks;
    while i > 0
      invariant 0 <= i <= batch
      invariant Carve(m, blocks, free) == Carve(m', blocks[..i], head)
      invariant head == At(blocks[i..] + [free], 0)
      decreases i
    {
      i := i - 1;
      var blk := start + i * size;
      assert blocks[i] == blk && blocks[..i + 1][..i] == blocks[..i];
      m' := Store(m', blk, head);
      head := blk;
    }
    assert blocks[0..] == blocks;
  }

  lemma FreshMeaning(pid: nat, pg: Page, f: seq<nat>, p: seq<nat>, m: Mem)
    requires PageLists(pid, pg, f, p, m)
    ensures pg.blockSize > 0 && pg.reserved <= pg.capacity
    ensures Fresh(pid, pg) == BlockSeq(AreaEnd(pid, pg), pg.blockSize, Batch(pg.blockSize, pg.capacity - pg.reserved))
    ensures |Fresh(pid, pg)| == Batch(pg.blockSize, pg.capacity - pg.reserved)
  {
  }

  lemma NothingFresh(pid: nat, pg: Page, f: seq<nat>)
    requires pg.capacity == pg.reserved
    ensures Fresh(pid, pg) == [] && Fresh(pid, pg) + f == f && Extended(pid, pg) == pg
  {
    assert [] + [pg.free] == [pg.free];
  }

  /** The header of a page just acquired: nothing carved yet. */
  function NewPage(size: nat, cls: nat, owner: nat): Page
    requires size > 0
  {
    Page(0, 0, PAGE_SIZE / size, 0, size, cls, true, owner, 0)
  }

  predicate PageIn(s: nat, q: nat) { SegmentOfPage(q) == s && Usable(q) }

  /** A table over pages with the same new entry for every usable page of a segment. */
  function WithSegment<T>(m: map<nat, T>, s: nat, v: T): (r: map<nat, T>)
    ensures forall q: nat :: q in r <==> q in m || PageIn(s, q)
    ensures forall q: nat {:trigger r[q]} :: q in r ==> r[q] == if PageIn(s, q) then v else m[q]
  {
    m + map p | s * PAGES_PER_SEGMENT <= p < (s + 1) * PAGES_PER_SEGMENT && PageIn(s, p) :: v
  }

  /** A mapping made elsewhere leaves a page's lists alone. */
  lemma ClearElsewhere(q: nat, pg: Page, f: seq<nat>, p: seq<nat>, m: Mem, s: nat)
    requires q > 0 && SegmentOfPage(q) != s && PageLists(q, pg, f, p, m)
    ensures PageLists(q, pg, f, p, Clear(m, s * SEGMENT_SIZE, (s + 1) * SEGMENT_SIZE))
  {
    var m' := Clear(m, s * SEGMENT_SIZE, (s + 1) * SEGMENT_SIZE);
    forall x | x in f || x in p ensures Get(m', x) == Get(m, x) {
      ListedPlace(q, pg, f, p, m, x);
      PageWithin(x);
    }
    ListFrame(m, m', pg.free, f);
    ListFrame(m, m', pg.threadFree, p);
  }

  lemma FrameLists(q: nat, pg: Page, f: seq<nat>, p: seq<nat>, m: Mem, m': Mem, pid: nat)
    requires q > 0 && q != pid && PageLists(q, pg, f, p, m) && OutsideSame(m, m', pid)
    ensures PageLists(q, pg, f, p, m')
  {
    forall x | x in f || x in p ensures Get(m', x) == Get(m, x) {
      ListedPlace(q, pg, f, p, m, x);
    }
    ListFrame(m, m', pg.free, f);
    ListFrame(m, m', pg.threadFree, p);
  }

  /** Storing to a block on neither list changes neither, nor anything outside the page. */
  lemma StoreOwner(pid: nat, pg: Page, f: seq<nat>, p: seq<nat>, m: Mem, b: nat, val: nat)
    requires pid > 0 && PageLists(pid, pg, f, p, m) && AtHome(pid, b)
    ensures OutsideSame(m, Store(m, b, val), pid)
    ensures forall x :: (x in f || x in p) && x != b ==> Get(Store(m, b, val), x) == Get(m, x)
  {
    PageEnd(pid, b);
    forall x | (x in f || x in p) && x != b ensures Get(Store(m, b, val), x) == Get(m, x) {
      ListedPlace(pid, pg, f, p, m, x);
      StoreElsewhere(m, b, val, x);
    }
  }

  lemma PageEnd(pid: nat, b: nat)
    requires AtHome(pid, b)
    ensures Area(pid) <= b && b + LINK_BYTES <= Area(pid) + PAGE_SIZE
  {
  }

  ghost function HeldIn(carved: seq<nat>, f: seq<nat>, p: seq<nat>): set<nat> {
    set x | x in carved && x !in f && x !in p
  }

  /** Blocks clients hold are counted as used beyond the parked ones. */
  lemma HeldCounted(pid: nat, pg: Page, f: seq<nat>, p: seq<nat>, m: Mem, b: nat)
    requires pid > 0 && PageLists(pid, pg, f, p, m) && b in HeldIn(Carved(pid, pg), f, p)
    ensures |p| < pg.used
  {
    PushSub(f, p, b, Carved(pid, pg));
    assert |multiset([b] + f) + multiset(p)| == 1 + |f| + |p|;
    MultisetSmaller(multiset([b] + f) + multiset(p), multiset(Carved(pid, pg)));
  }

  /** With no block in use, no client holds one. */
  lemma NothingHeld(pid: nat, pg: Page, f: seq<nat>, p: seq<nat>, m: Mem)
    requires PageLists(pid, pg, f, p, m) && pg.used == 0
    ensures HeldIn(Carved(pid, pg), f, p) == {}
  {
    var c := Carved(pid, pg);
    assert multiset(f) <= multiset(c);
    assert |multiset(c) - multiset(f)| == |c| - |f|;
    forall x | x in c ensures x in f {
      assert multiset(c) == multiset(f) + (multiset(c) - multiset(f));
      assert x in multiset(c);
    }
  }

  lemma MultisetSmaller(a: multiset<nat>, b: multiset<nat>)
    requires a <= b
    ensures |a| <= |b|
  {
    assert b == a + (b - a);
  }

  lemma HeldPop(pid: nat, pg: Page, f: seq<nat>, p: seq<nat>, m: Mem)
    requires pid > 0 && PageLists(pid, pg, f, p, m) && f != []
    ensures var c := Carved(pid, pg);
            f[0] !in HeldIn(c, f, p) && HeldIn(c, f[1..], p) == HeldIn(c, f, p) + {f[0]}
  {
    var b := f[0];
    ListedPlace(pid, pg, f, p, m, b);
    HeadFirst(f);
    assert multiset(f)[b] == multiset(f[1..])[b] + 1;
    assert b in multiset(f) + multiset(p);
    assert b in multiset(Carved(pid, pg));
    forall x | x in f ensures x == b || x in f[1..] {}
  }

  lemma HeldExtend(pid: nat, pg: Page, f: seq<nat>, p: seq<nat>, m: Mem)
    requires pid > 0 && PageLists(pid, pg, f, p, m)
    ensures HeldIn(Carved(pid, Extended(pid, pg)), Fresh(pid, pg) + f, p) == HeldIn(Carved(pid, pg), f, p)
  {
    var before, fresh_ := Carved(pid, pg), Fresh(pid, pg);
    var lo := FreshFacts(pid, pg);
    forall x | x in before ensures x !in fresh_ { CarvedBelow(pid, pg, x); }
  }

  lemma SpliceOwner(pid: nat, pg: Page, f: seq<nat>, p: seq<nat>, m: Mem)
    requires pid > 0 && PageLists(pid, pg, f, p, m) && p != []
    ensures var tail := p[|p| - 1];
            var m' := Store(m, tail, pg.free);
            && OutsideSame(m, m', pid)
            && PageLists(pid, pg.(threadFree := 0, free := p[0], used := pg.used - |p|), p + f, [], m')
  {
    var k := |p| - 1;
    var tail := p[k];
    var m' := Store(m, tail, pg.free);
    ListedPlace(pid, pg, f, p, m, tail);
    StoreOwner(pid, pg, f, p, m, tail, pg.free);
    ListAcyclic(m, pg.threadFree, p);
    forall x | x in f ensures Get(m', x) == Get(m, x) {
      ListedPlace(pid, pg, f, p, m, x);
    }
    forall i: nat | i < k ensures Get(m', p[i]) == Get(m, p[i]) {
      assert p[i] in p;
    }
    ListJoin(m, m', pg.threadFree, p, pg.free, f);
    assert multiset(p + f) == multiset(f) + multiset(p);
    assert multiset(p + f) + multiset([]) == multiset(p + f);
  }

  lemma ExtendOwner(pid: nat, pg: Page, f: seq<nat>, p: seq<nat>, m: Mem)
    requires pid > 0 && PageLists(pid, pg, f, p, m)
    ensures var m' := Carve(m, Fresh(pid, pg), pg.free);
            OutsideSame(m, m', pid) && PageLists(pid, Extended(pid, pg), Fresh(pid, pg) + f, p, m')
  {
    var blocks := Fresh(pid, pg);
    var m' := Carve(m, blocks, pg.free);
    var lo := FreshFacts(pid, pg);
    assert multiset(f) <= multiset(Carved(pid, pg));
    FreshApart(pid, pg, f);
    forall x | x in f || x in p ensures x % ALLOC_ALIGN == 0 && x < lo {
      ListedPlace(pid, pg, f, p, m, x);
      assert x in multiset(f) + multiset(p);
      assert x in multiset(Carved(pid, pg));
      CarvedBelow(pid, pg, x);
    }
    CarveMeaning(m, blocks, pg.free, f, lo, Area(pid) + PAGE_SIZE);
    ListFrame(m, m', pg.threadFree, p);
    ExtendSub(f, p, blocks, Carved(pid, pg), Carved(pid, Extended(pid, pg)));
  }

  lemma ExtendSub(f: seq<nat>, p: seq<nat>, blocks: seq<nat>, before: seq<nat>, after: seq<nat>)
    requires multiset(f) + multiset(p) <= multiset(before) && after == before + blocks
    ensures multiset(blocks + f) + multiset(p) <= multiset(after)
  {
    assert multiset(blocks + f) == multiset(blocks) + multiset(f);
  }

  lemma PopOwner(pid: nat, pg: Page, f: seq<nat>, p: seq<nat>, m: Mem)
    requires pid > 0 && PageLists(pid, pg, f, p, m) && f != []
    ensures PageLists(pid, pg.(free := Get(m, f[0]), used := pg.used + 1), f[1..], p, m)
  {
    ListEmptiness(m, pg.free, f);
    ListPop(m, pg.free, f);
    HeadFirst(f);
  }

  lemma PushOwner(pid: nat, pg: Page, f: seq<nat>, p: seq<nat>, m: Mem, b: nat)
    requires pid > 0 && PageLists(pid, pg, f, p, m) && b in Carved(pid, pg) && b !in f && b !in p && |p| < pg.used
    ensures OutsideSame(m, Store(m, b, pg.free), pid)
    ensures PageLists(pid, pg.(free := b, used := pg.used - 1), [b] + f, p, Store(m, b, pg.free))
  {
    var m' := Store(m, b, pg.free);
    BlockPlace(pid, pg.blockSize, pg.reserved, b);
    StoreOwner(pid, pg, f, p, m, b, pg.free);
    ListFrame(m, m', pg.free, f);
    ListFrame(m, m', pg.threadFree, p);
    ListPush(m', b, pg.free, f);
    PushSub(f, p, b, Carved(pid, pg));
  }

  lemma PushSub(f: seq<nat>, p: seq<nat>, b: nat, c: seq<nat>)
    requires multiset(f) + multiset(p) <= multiset(c) && b in c && b !in f && b !in p
    ensures multiset([b] + f) + multiset(p) <= multiset(c)
  {
    var m := multiset([b] + f) + multiset(p);
    assert m == multiset{b} + multiset(f) + multiset(p);
    forall x ensures m[x] <= multiset(c)[x] {
      assert (multiset(f) + multiset(p))[x] <= multiset(c)[x];
    }
  }
}
