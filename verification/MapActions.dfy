/**
 Mapping a segment, the life of a large region, and client writes keep the invariant.
 */
module MapActions {
  import opened Layout
  import opened Bits
  import opened Memory
  import opened Blocks
  import opened Machine
  import opened Invariant
  import opened PageSteps
  import opened OnePage
  import opened BlockActions
  import opened RegionActions
  import LargeRegion

  // ---------------------------------------------------------------- memory frames

  ghost predicate AreaSame(m: Mem, m': Mem, q: nat) {
    forall a: nat :: Area(q) <= a < Area(q) + PAGE_SIZE ==> Get(m', a) == Get(m, a)
  }

  /** The pages' areas read the same. */
  ghost predicate AreasSame(s: State, m': Mem) {
    forall q {:trigger AreaSame(s.mem, m', q)} :: q in s.pages ==> AreaSame(s.mem, m', q)
  }

  lemma AreasKeep(s: State, v: View, m': Mem)
    requires Rep(s, v) && AreasSame(s, m')
    ensures forall q {:trigger PageAt(s.(mem := m'), v, q)} :: q in s.pages ==> PageAt(s.(mem := m'), v, q)
    ensures forall q {:trigger FlightSame(v, s.mem, m', q)} :: FlightSame(v, s.mem, m', q)
  {
    forall q | q in s.pages ensures PageAt(s.(mem := m'), v, q) && FlightSame(v, s.mem, m', q) {
      PagePositive(s, v, q);
      assert PageAt(s, v, q) && AreaSame(s.mem, m', q);
      PageFrame(q, s.pages[q], v[q], s.mem, m');
    }
  }

  /** Clearing a new mapping leaves a page outside it alone. */
  lemma ClearElsewhere(m: Mem, lo: nat, hi: nat, q: nat)
    requires Disjoint(lo, hi, SegmentOfPage(q) * SEGMENT_SIZE, (SegmentOfPage(q) + 1) * SEGMENT_SIZE)
    ensures AreaSame(m, Clear(m, lo, hi), q)
  {
    PageInSegment(q);
  }

  /** A thread between large-region steps moves; everyone else's position is unaffected. */
  lemma OutsiderMoves(s: State, s': State, v: View, t: Tid)
    requires ThreadsOk(s, v) && v.Keys == s.pages.Keys
    requires s.pages.Keys <= s'.pages.Keys && (forall q :: q in s.pages ==> s'.pages[q] == s.pages[q])
    requires s'.lock == s.lock && s'.heapOf == s.heapOf
    requires forall u :: u != t ==> PcOf(s', u) == PcOf(s, u)
    requires PcOf(s, t).Idle? || PcOf(s, t).Mapping? || PcOf(s, t).Unmapping?
    requires PcOk(s', v, t)
    requires forall b :: b in s.large && (s.large[b].state.Pending? || s.large[b].state.Dying?) &&
                         PcOf(s, t) != Mapping(b) && PcOf(s, t) != Unmapping(b)
               ==> b in s'.large && s'.large[b] == s.large[b]
    requires forall q {:trigger FlightSame(v, s.mem, s'.mem, q)} :: FlightSame(v, s.mem, s'.mem, q)
    ensures ThreadsOk(s', v)
  {
    forall u: Tid ensures PcOk(s', v, u) {
      if u != t {
        assert PcOk(s, v, u) && PcOk(s, v, t);
        if PcOf(s, u).Linked? { assert FlightSame(v, s.mem, s'.mem, PcOf(s, u).pid); }
      }
    }
    forall q | q in v ensures HoldersOk(s', v, q) {
      assert HoldersOk(s, v, q);
      forall b | b in v[q].flight ensures Pushes(PcOf(s', v[q].flight[b]), q, b) {
        assert Pushes(PcOf(s, v[q].flight[b]), q, b);
      }
    }
  }

  lemma OwnersFrame(s: State, s': State)
    requires OwnersOk(s) && s'.pages == s.pages && s'.heaps == s.heaps && s'.heapOf == s.heapOf
             && s'.exiting == s.exiting
    ensures OwnersOk(s')
  {
    forall q: nat ensures StampOk(s', q) && HeapOk(s', q) && ThreadHeapOk(s', q) {
      assert StampOk(s, q) && HeapOk(s, q) && ThreadHeapOk(s, q);
    }
  }

  lemma PoolFrame(s: State, s': State, v: View)
    requires Domains(s, v) && CacheOk(s) && s'.pages == s.pages && s'.segs == s.segs
    ensures Domains(s', v) && CacheOk(s')
  {
    forall q: nat ensures Mapped(s', q) {
      assert Mapped(s, q);
    }
    forall a, b ensures OneIdle(s', a, b) {
      assert OneIdle(s, a, b);
    }
  }

  lemma PagesFrame(s: State, s': State, v: View)
    requires Rep(s, v) && s'.pages == s.pages && (s'.mem == s.mem || AreasSame(s, s'.mem))
    ensures PagesOk(s', v)
    ensures forall q {:trigger FlightSame(v, s.mem, s'.mem, q)} :: FlightSame(v, s.mem, s'.mem, q)
  {
    assert s'.mem == s.mem ==> forall q :: AreaSame(s.mem, s'.mem, q);
    AreasKeep(s, v, s'.mem);
    forall q | q in s'.pages ensures PageAt(s', v, q) {
      assert PageAt(s.(mem := s'.mem), v, q);
    }
  }

  // ---------------------------------------------------------------- map_segment

  function NewViews(seg: nat): View {
    map pid | pid in SegmentPages(seg) :: NO_BLOCKS
  }

  lemma SegmentPagesMeaning(seg: nat, pid: nat)
    ensures pid in SegmentPages(seg) <==> SegmentOfPage(pid) == seg && Usable(pid)
  {
  }

  lemma SegmentNumbers(a: nat, b: nat)
    ensures Disjoint(a * SEGMENT_SIZE, (a + 1) * SEGMENT_SIZE, b * SEGMENT_SIZE, (b + 1) * SEGMENT_SIZE) <==> a != b
  {
  }

  lemma NewSegment(s: State, v: View, seg: nat)
    requires Rep(s, v) && Unmapped(s, seg * SEGMENT_SIZE, (seg + 1) * SEGMENT_SIZE)
    ensures seg !in s.segs && SegmentOk(seg) && AreasSame(s, Clear(s.mem, seg * SEGMENT_SIZE, (seg + 1) * SEGMENT_SIZE))
    ensures forall q :: q in s.pages ==> SegmentOfPage(q) != seg
  {
    SegmentNumbers(seg, seg);
    forall q | q in s.pages ensures AreaSame(s.mem, Clear(s.mem, seg * SEGMENT_SIZE, (seg + 1) * SEGMENT_SIZE), q)
      && SegmentOfPage(q) != seg {
      PagePositive(s, v, q);
      ClearElsewhere(s.mem, seg * SEGMENT_SIZE, (seg + 1) * SEGMENT_SIZE, q);
    }
  }

  lemma MapSegmentDomains(s: State, v: View, t: Tid, seg: nat)
    requires Domains(s, v)
    ensures Domains(MapSegment(s, t, seg), v + NewViews(seg))
  {
    var s' := MapSegment(s, t, seg);
    forall q: nat ensures Mapped(s', q) {
      assert Mapped(s, q);
      SegmentPagesMeaning(seg, q);
    }
  }

  lemma MapSegmentPages(s: State, v: View, t: Tid, seg: nat)
    requires Rep(s, v) && CanMapSegment(s, t, seg)
    ensures PagesOk(MapSegment(s, t, seg), v + NewViews(seg))
  {
    hide Rep, PageOk, Unmapped, Clear, AreasSame, SegmentPages;
    var s', v' := MapSegment(s, t, seg), v + NewViews(seg);
    NewSegment(s, v, seg);
    AreasKeep(s, v, s'.mem);
    forall q | q in s'.pages ensures PageAt(s', v', q) {
      SegmentPagesMeaning(seg, q);
      if q in s.pages {
        assert PageAt(s.(mem := s'.mem), v, q);
      } else {
        FreshIsPooled(q, s'.mem);
        assert s'.pages[q] == FRESH_PAGE by { AllFresh(seg, q); }
      }
    }
  }

  lemma AllFresh(seg: nat, q: nat)
    requires q in SegmentPages(seg)
    ensures SegmentPages(seg)[q] == FRESH_PAGE
  {
  }

  lemma FreshIsPooled(pid: nat, m: Mem)
    ensures PageOk(pid, FRESH_PAGE, NO_BLOCKS, m)
  {
  }

  lemma MapSegmentThreads(s: State, v: View, t: Tid, seg: nat)
    requires Rep(s, v) && CanMapSegment(s, t, seg)
    ensures ThreadsOk(MapSegment(s, t, seg), v + NewViews(seg)) && LiveOk(MapSegment(s, t, seg), v + NewViews(seg))
  {
    hide Unmapped, Clear, AreasSame, ThreadsOk, LiveOk, PagesOk, RegionsOk, RegistryOk, BytesOk, CacheOk, OwnersOk;
    var s', v' := MapSegment(s, t, seg), v + NewViews(seg);
    NewSegment(s, v, seg);
    AreasKeep(s, v, s'.mem);
    forall q | q in s.pages ensures q !in SegmentPages(seg) {
      SegmentPagesMeaning(seg, q);
    }
    OutsiderMoves(s, s', v, t);
    MoreViews(s, s', v, v');
  }

  /** Pages that hold nothing can be added to the view. */
  lemma MoreViews(s: State, s': State, v: View, v': View)
    requires ThreadsOk(s', v) && LiveOk(s, v) && v.Keys == s.pages.Keys && v.Keys <= v'.Keys && v.Keys <= s'.pages.Keys
    requires forall q :: q in v' ==> v'[q] == if q in v then v[q] else NO_BLOCKS
    requires forall q :: q in s.pages ==> s'.pages[q] == s.pages[q]
    requires s'.live == s.live && s'.large == s.large
    ensures ThreadsOk(s', v') && LiveOk(s', v')
  {
    forall u: Tid ensures PcOk(s', v', u) {
      assert PcOk(s', v, u);
    }
    forall q | q in v' ensures HoldersOk(s', v', q) {
      assert q in v ==> HoldersOk(s', v, q);
    }
    forall p | p in s'.live ensures LivePtrOk(s', v', p) {
      assert LivePtrOk(s, v, p);
    }
    forall q, p | q in v' && p in v'[q].live ensures LiveBlockOk(s', q, p) {
      assert LiveBlockOk(s, q, p);
    }
    forall b | b in s'.large && s'.large[b].state == Published ensures PublishedOk(s', b) {
      assert PublishedOk(s, b);
    }
  }

  lemma MapSegmentRegions(s: State, v: View, t: Tid, seg: nat)
    requires RegionsOk(s) && seg !in s.segs && SegmentOk(seg) && CanMapSegment(s, t, seg)
    ensures RegionsOk(MapSegment(s, t, seg))
  {
    var s' := MapSegment(s, t, seg);
    forall b | b in s'.large ensures LargeOk(s', b) {
      assert LargeOk(s, b);
    }
    forall g, b | g in s'.segs && b in s'.large ensures SegmentApart(s', g, b) {
      assert g != seg ==> SegmentApart(s, g, b);
      assert Disjoint(seg * SEGMENT_SIZE, (seg + 1) * SEGMENT_SIZE, b, b + s.large[b].size);
    }
    forall b, c | b in s'.large && c in s'.large && b != c ensures LargeApart(s', b, c) {
      assert LargeApart(s, b, c);
    }
  }

  lemma BaseOfSegment(x: nat, seg: nat)
    ensures x % SEGMENT_SIZE == 0 && x / SEGMENT_SIZE == seg <==> x == seg * SEGMENT_SIZE
  {
  }

  lemma MapSegmentCounts(s: State, t: Tid, seg: nat)
    requires RegistryOk(s) && BytesOk(s) && seg !in s.segs
    ensures RegistryOk(MapSegment(s, t, seg)) && BytesOk(MapSegment(s, t, seg))
  {
    var s' := MapSegment(s, t, seg);
    forall x: nat ensures Listed(s', x) {
      assert Listed(s, x);
      BaseOfSegment(x, seg);
    }
    assert |s'.segs| == |s.segs| + 1;
  }

  lemma MapSegmentCache(s: State, v: View, t: Tid, seg: nat)
    requires Rep(s, v) && CanMapSegment(s, t, seg)
    ensures CacheOk(MapSegment(s, t, seg))
  {
    hide Unmapped, Clear, Rep, FullyFree, Disjoint;
    var s' := MapSegment(s, t, seg);
    NewSegment(s, v, seg);
    forall q | q in s.pages ensures q !in SegmentPages(seg) {
      SegmentPagesMeaning(seg, q);
    }
    forall a, b ensures OneIdle(s', a, b) {
      if a in s.segs { BusySegment(s, v, s', a); }
      if b in s.segs { BusySegment(s, v, s', b); }
    }
  }

  lemma BusySegment(s: State, v: View, s': State, seg: nat)
    requires Rep(s, v) && seg in s.segs && s.pages.Keys <= s'.pages.Keys
             && (forall q :: q in s.pages ==> s'.pages[q] == s.pages[q])
    requires forall pid :: pid in s.pages ==> s.pages[pid].inUse
    ensures !FullyFree(s'.pages, seg)
  {
    var pid := seg * PAGES_PER_SEGMENT + FIRST_USABLE_PAGE;
    assert Mapped(s, pid);
    assert SegmentOfPage(pid) == seg && s'.pages[pid].inUse;
  }

  lemma KeepMapSegment(s: State, v: View, t: Tid, seg: nat) returns (v': View)
    requires Rep(s, v) && CanMapSegment(s, t, seg)
    ensures Rep(MapSegment(s, t, seg), v')
  {
    var s' := MapSegment(s, t, seg);
    v' := v + NewViews(seg);
    NewSegment(s, v, seg);
    MapSegmentDomains(s, v, t, seg);
    MapSegmentPages(s, v, t, seg);
    MapSegmentThreads(s, v, t, seg);
    MapSegmentRegions(s, v, t, seg);
    MapSegmentCounts(s, t, seg);
    MapSegmentCache(s, v, t, seg);
    forall q: nat ensures StampOk(s', q) && HeapOk(s', q) && ThreadHeapOk(s', q) {
      assert StampOk(s, q) && HeapOk(s, q) && ThreadHeapOk(s, q);
    }
  }

  // ---------------------------------------------------------------- bytes of large regions

  /** The sum does not depend on the order of summation. */
  lemma {:induction false} SumPick(large: map<nat, Large>, bases: set<nat>, b: nat)
    requires b in bases
    ensures SumSizes(large, bases) == (if b in large then large[b].size else 0) + SumSizes(large, bases - {b})
    decreases bases
  {
    var c :| c in bases && SumSizes(large, bases) == (if c in large then large[c].size else 0) + SumSizes(large,
        bases - {c});
    if c != b {
      SumPick(large, bases - {c}, b);
      SumPick(large, bases - {b}, c);
      assert bases - {c} - {b} == bases - {b} - {c};
    }
  }

  lemma {:induction false} SumSame(large: map<nat, Large>, large': map<nat, Large>, bases: set<nat>)
    requires forall b :: b in bases ==>
             (b in large <==> b in large') && (b in large ==> large[b].size == large'[b].size)
    ensures SumSizes(large, bases) == SumSizes(large', bases)
    decreases bases
  {
    if bases != {} {
      var b :| b in bases;
      SumPick(large, bases, b);
      SumPick(large', bases, b);
      SumSame(large, large', bases - {b});
    }
  }

  lemma LargeBytesDrop(large: map<nat, Large>, b: nat)
    requires b in large
    ensures LargeBytes(large) == large[b].size + LargeBytes(large - {b})
  {
    var rest := large - {b};
    SumPick(large, large.Keys, b);
    assert rest.Keys == large.Keys - {b};
    SumSame(large, rest, rest.Keys);
  }

  lemma LargeBytesAdd(large: map<nat, Large>, b: nat, r: Large)
    requires b !in large
    ensures LargeBytes(large[b := r]) == r.size + LargeBytes(large)
  {
    LargeBytesDrop(large[b := r], b);
    assert large[b := r] - {b} == large;
  }

  lemma LargeBytesRestate(large: map<nat, Large>, b: nat, r: Large)
    requires b in large && r.size == large[b].size
    ensures LargeBytes(large[b := r]) == LargeBytes(large)
  {
    assert large[b := r].Keys == large.Keys;
    SumSame(large, large[b := r], large.Keys);
  }

  // ---------------------------------------------------------------- alloc_large

  lemma NewRegion(s: State, v: View, base: nat, size: nat)
    requires Rep(s, v) && Unmapped(s, base, base + size)
    ensures base !in s.large && AreasSame(s, Clear(s.mem, base, base + size))
  {
    assert base in s.large ==> LargeOk(s, base);
    forall q | q in s.pages ensures AreaSame(s.mem, Clear(s.mem, base, base + size), q) {
      PagePositive(s, v, q);
      ClearElsewhere(s.mem, base, base + size, q);
    }
  }

  lemma MapLargeRegions(s: State, t: Tid, base: nat, size: nat, offset: nat)
    requires RegionsOk(s) && base !in s.large && Unmapped(s, base, base + size)
    requires base % SEGMENT_SIZE == 0 && LargeRegion.LARGE_OFFSET <= offset < SEGMENT_SIZE && offset % ALLOC_ALIGN == 0
             && offset < size
    requires PcOf(s, t) == Idle
    ensures RegionsOk(MapLarge(s, t, base, size, offset))
  {
    var s' := MapLarge(s, t, base, size, offset);
    forall b | b in s'.large ensures LargeOk(s', b) {
      if b != base { assert LargeOk(s, b); }
    }
    forall g, b | g in s'.segs && b in s'.large ensures SegmentApart(s', g, b) {
      assert b != base ==> SegmentApart(s, g, b);
    }
    forall b, c | b in s'.large && c in s'.large && b != c ensures LargeApart(s', b, c) {
      assert b != base && c != base ==> LargeApart(s, b, c);
    }
  }

  lemma MapLargeCounts(s: State, t: Tid, base: nat, size: nat, offset: nat)
    requires RegistryOk(s) && BytesOk(s) && base !in s.large
    ensures RegistryOk(MapLarge(s, t, base, size, offset)) && BytesOk(MapLarge(s, t, base, size, offset))
  {
    var s' := MapLarge(s, t, base, size, offset);
    forall x: nat ensures Listed(s', x) {
      assert Listed(s, x);
    }
    LargeBytesAdd(s.large, base, Large(size, offset, Pending(t)));
  }

  lemma KeepMapLarge(s: State, v: View, t: Tid, base: nat, size: nat, offset: nat)
    requires Rep(s, v) && Ready(s, t) && Unmapped(s, base, base + size) && base % SEGMENT_SIZE == 0
    requires LargeRegion.LARGE_OFFSET <= offset < SEGMENT_SIZE && offset % ALLOC_ALIGN == 0 && offset < size
    ensures Rep(MapLarge(s, t, base, size, offset), v)
  {
    var s' := MapLarge(s, t, base, size, offset);
    NewRegion(s, v, base, size);
    PagesFrame(s, s', v);
    OutsiderMoves(s, s', v, t);
    MapLargeRegions(s, t, base, size, offset);
    MapLargeCounts(s, t, base, size, offset);
    OwnersFrame(s, s');
    PoolFrame(s, s', v);
    MapLargeLive(s, s', v, base);
  }

  lemma MapLargeLive(s: State, s': State, v: View, base: nat)
    requires LiveOk(s, v) && s'.pages == s.pages && s'.live == s.live && base !in s.large && base in s'.large
    requires s'.large == s.large[base := s'.large[base]] && s'.large[base].state.Pending?
    ensures LiveOk(s', v)
  {
    forall p | p in s'.live ensures LivePtrOk(s', v, p) {
      assert LivePtrOk(s, v, p);
    }
    forall q, p | q in v && p in v[q].live ensures LiveBlockOk(s', q, p) {
      assert LiveBlockOk(s, q, p);
    }
    forall b | b in s'.large && s'.large[b].state == Published ensures PublishedOk(s', b) {
      assert PublishedOk(s, b);
    }
  }

  // ---------------------------------------------------------------- a large region changes state

  lemma RestateRegions(s: State, s': State, t: Tid, base: nat)
    requires RegionsOk(s) && base in s.large && s'.mem == s.mem && s'.segs == s.segs
    requires s'.large.Keys == s.large.Keys && (forall b :: b in s.large && b != base ==> s'.large[b] == s.large[b])
    requires s'.large[base].size == s.large[base].size && s'.large[base].offset == s.large[base].offset
    requires !s'.large[base].state.Pending?
             && (s'.large[base].state.Dying? ==> PcOf(s', s'.large[base].state.freer) == Unmapping(base))
    requires forall u :: u != t ==> PcOf(s', u) == PcOf(s, u)
    requires PcOf(s, t) == Idle || PcOf(s, t) == Mapping(base)
    ensures RegionsOk(s')
  {
    forall b | b in s'.large ensures LargeOk(s', b) {
      assert LargeOk(s, b);
    }
    ApartFrame(s, s');
  }

  lemma KeepPublish(s: State, v: View, t: Tid)
    requires Rep(s, v) && CanPublish(s, t)
    ensures Safe(s, APublish(t)) && Rep(Publish(s, t), v)
    ensures ZeroRange(s.mem, PcOf(s, t).base, PcOf(s, t).base + s.large[PcOf(s, t).base].size)
    ensures PcOf(s, t).base + s.large[PcOf(s, t).base].offset !in s.live
  {
    var base := PcOf(s, t).base;
    assert PcOk(s, v, t);
    assert LargeOk(s, base);
    var s' := Publish(s, t);
    RestateRegions(s, s', t, base);
    PagesFrame(s, s', v);
    OutsiderMoves(s, s', v, t);
    OwnersFrame(s, s');
    PoolFrame(s, s', v);
    PublishLive(s, v, t);
    LargeBytesRestate(s.large, base, s.large[base].(state := Published));
    forall x: nat ensures Listed(s', x) {
      assert Listed(s, x);
    }
  }

  /** An address inside a region not yet published belongs to no live pointer. */
  lemma PendingNotLive(s: State, v: View, base: nat, p: nat)
    requires Rep(s, v) && base in s.large && s.large[base].state != Published && base <= p < base + s.large[base].size
    ensures p !in s.live
  {
    if p in s.live {
      LiveHome(s, v, p);
      match s.live[p] {
        case Small(pid, _) => BigOutside(s, v, base, pid, p);
        case Big(c, _) => BigSeparate(s, v, base, p);
      }
    }
  }

  lemma BigSeparate(s: State, v: View, base: nat, p: nat)
    requires Rep(s, v) && base in s.large && p in s.live && s.live[p].Big? && s.live[p].base != base
    ensures p + s.live[p].usable <= base || base + s.large[base].size <= p
  {
    LiveHome(s, v, p);
    assert LargeOk(s, base) && LargeApart(s, base, s.live[p].base);
  }

  lemma BigOutside(s: State, v: View, base: nat, pid: nat, a: nat)
    requires Rep(s, v) && base in s.large && pid in s.pages && base <= a < base + s.large[base].size
    ensures !(Area(pid) <= a < Area(pid) + PAGE_SIZE)
  {
    PagePositive(s, v, pid);
    PageInSegment(pid);
    assert SegmentApart(s, SegmentOfPage(pid), base);
  }

  lemma PublishLive(s: State, v: View, t: Tid)
    requires Rep(s, v) && CanPublish(s, t) && PcOf(s, t).base in s.large && s.large[PcOf(s, t).base].state == Pending(t)
    ensures LiveOk(Publish(s, t), v) && PcOf(s, t).base + s.large[PcOf(s, t).base].offset !in s.live
  {
    var base := PcOf(s, t).base;
    assert LargeOk(s, base);
    PendingNotLive(s, v, base, base + s.large[base].offset);
    AddBig(s, Publish(s, t), v, base);
  }

  lemma AddBig(s: State, s': State, v: View, base: nat)
    requires LiveOk(s, v) && base in s.large && s.large[base].state.Pending?
             && s.large[base].offset <= s.large[base].size
    requires s'.pages == s.pages && s'.large == s.large[base := s.large[base].(state := Published)]
    requires base + s.large[base].offset !in s.live
    requires s'.live == s.live[base + s.large[base].offset := Big(base, s.large[base].size - s.large[base].offset)]
    ensures LiveOk(s', v)
  {
    forall p | p in s'.live ensures LivePtrOk(s', v, p) {
      assert p in s.live ==> LivePtrOk(s, v, p);
    }
    forall q, p | q in v && p in v[q].live ensures LiveBlockOk(s', q, p) {
      assert LiveBlockOk(s, q, p);
    }
    forall b | b in s'.large && s'.large[b].state == Published ensures PublishedOk(s', b) {
      assert b != base ==> PublishedOk(s, b);
    }
  }

  // ---------------------------------------------------------------- free_large

  /** The region base of a live large pointer is its own region; that of a small one is no large region. */
  lemma RegionOfLive(s: State, v: View, p: nat)
    requires Rep(s, v) && p in s.live
    ensures p < WORD
    ensures s.live[p].Big? ==> RegionBase(p) == s.live[p].base
    ensures s.live[p].Small? ==>
              PageOf(p) == s.live[p].pid && RegionBase(p) !in s.large
                  && RegionBase(p) == SegmentOfPage(s.live[p].pid) * SEGMENT_SIZE
  {
    LiveHome(s, v, p);
    match s.live[p] {
      case Small(pid, usable) =>
        PagePositive(s, v, pid);
        RecoveryMeaning(p);
        RegionNotLarge(s, v, SegmentOfPage(pid), RegionBase(p));
      case Big(base, usable) =>
        RecoveryMeaning(p);
        SameSegment(base, p);
    }
  }

  lemma SameSegment(base: nat, p: nat)
    requires base % SEGMENT_SIZE == 0 && base <= p < base + SEGMENT_SIZE
    ensures p / SEGMENT_SIZE * SEGMENT_SIZE == base
  {
  }

  lemma KeepFreeLarge(s: State, v: View, t: Tid, p: nat)
    requires Rep(s, v) && CanFree(s, t, p) && s.live[p].Big?
    ensures s.live[p].base in s.large && s.large[s.live[p].base].state == Published
    ensures Rep(FreeLarge(s, t, s.live[p].base, p), v)
  {
    var base := s.live[p].base;
    LiveHome(s, v, p);
    assert LivePtrOk(s, v, p);
    var s' := FreeLarge(s, t, base, p);
    RestateRegions(s, s', t, base);
    PagesFrame(s, s', v);
    OutsiderMoves(s, s', v, t);
    OwnersFrame(s, s');
    PoolFrame(s, s', v);
    FreeLargeLive(s, v, t, p);
    NotSegmentBase(s, v, base);
    FreeLargeCounts(s, t, base, p);
  }

  lemma FreeLargeCounts(s: State, t: Tid, base: nat, p: nat)
    requires RegistryOk(s) && BytesOk(s) && base in s.large && !IsSegmentBase(s, base)
    ensures RegistryOk(FreeLarge(s, t, base, p)) && BytesOk(FreeLarge(s, t, base, p))
  {
    var s' := FreeLarge(s, t, base, p);
    forall x: nat ensures Listed(s', x) {
      assert Listed(s, x);
      assert IsSegmentBase(s', x) == IsSegmentBase(s, x);
    }
    LargeBytesRestate(s.large, base, s.large[base].(state := Dying(t)));
  }

  /** No large region starts where a small segment does. */
  lemma RegionNotLarge(s: State, v: View, seg: nat, x: nat)
    requires Rep(s, v) && seg in s.segs && x == seg * SEGMENT_SIZE
    ensures x !in s.large
  {
    assert x in s.large ==> LargeOk(s, x) && SegmentApart(s, seg, x);
  }

  lemma NotSegmentBase(s: State, v: View, base: nat)
    requires Rep(s, v) && base in s.large
    ensures !IsSegmentBase(s, base)
  {
    assert IsSegmentBase(s, base) ==> SegmentApart(s, base / SEGMENT_SIZE, base);
    assert LargeOk(s, base);
  }

  lemma FreeLargeLive(s: State, v: View, t: Tid, p: nat)
    requires LiveOk(s, v) && p in s.live && s.live[p].Big? && s.live[p].base in s.large
    ensures LiveOk(FreeLarge(s, t, s.live[p].base, p), v)
  {
    var s' := FreeLarge(s, t, s.live[p].base, p);
    assert LivePtrOk(s, v, p);
    forall q | q in s'.live ensures LivePtrOk(s', v, q) {
      assert LivePtrOk(s, v, q);
    }
    forall q, x | q in v && x in v[q].live ensures LiveBlockOk(s', q, x) {
      assert LiveBlockOk(s, q, x);
    }
    forall b | b in s'.large && s'.large[b].state == Published ensures PublishedOk(s', b) {
      assert PublishedOk(s, b);
    }
  }

  lemma KeepUnmapLarge(s: State, v: View, t: Tid)
    requires Rep(s, v) && CanUnmapLarge(s, t)
    ensures Safe(s, AUnmapLarge(t)) && Rep(UnmapLarge(s, t), v)
  {
    var base := PcOf(s, t).base;
    assert PcOk(s, v, t);
    var s' := UnmapLarge(s, t);
    PagesFrame(s, s', v);
    OutsiderMoves(s, s', v, t);
    OwnersFrame(s, s');
    PoolFrame(s, s', v);
    LargeBytesDrop(s.large, base);
    UnmapLargeRest(s, v, t);
  }

  lemma UnmapLargeRest(s: State, v: View, t: Tid)
    requires Rep(s, v) && CanUnmapLarge(s, t) && PcOf(s, t).base in s.large && s.large[PcOf(s, t).base].state.Dying?
    ensures RegionsOk(UnmapLarge(s, t)) && RegistryOk(UnmapLarge(s, t)) && LiveOk(UnmapLarge(s, t), v)
  {
    var s' := UnmapLarge(s, t);
    forall b | b in s'.large ensures LargeOk(s', b) {
      assert LargeOk(s, b);
    }
    ApartFrame(s, s');
    forall x: nat ensures Listed(s', x) {
      assert Listed(s, x);
    }
    UnmapLargeLive(s, v, t);
  }

  lemma UnmapLargeLive(s: State, v: View, t: Tid)
    requires LiveOk(s, v) && CanUnmapLarge(s, t) && PcOf(s, t).base in s.large && s.large[PcOf(s, t).base].state.Dying?
    ensures LiveOk(UnmapLarge(s, t), v)
  {
    var s' := UnmapLarge(s, t);
    forall p | p in s'.live ensures LivePtrOk(s', v, p) {
      assert LivePtrOk(s, v, p);
    }
    forall q, p | q in v && p in v[q].live ensures LiveBlockOk(s', q, p) {
      assert LiveBlockOk(s, q, p);
    }
    forall b | b in s'.large && s'.large[b].state == Published ensures PublishedOk(s', b) {
      assert PublishedOk(s, b);
    }
  }

  // ---------------------------------------------------------------- client writes

  /** Bytes of distinct blocks of a page do not overlap. */
  lemma ApartInPage(pid: nat, pg: Page, pv: PageView, m: Mem, x: nat, y: nat)
    requires pg.inUse && PageOk(pid, pg, pv, m) && x in Held(pv) && y in Held(pv) && x != y
    ensures x + pg.blockSize <= y || y + pg.blockSize <= x
  {
    var c := Carved(pid, pg);
    assert x in multiset(c) && y in multiset(c);
    var i: nat :| i < |c| && c[i] == x;
    var j: nat :| j < |c| && c[j] == y;
    if i < j {
      BlocksApart(Area(pid), pg.blockSize, pg.reserved, i, j);
    } else {
      BlocksApart(Area(pid), pg.blockSize, pg.reserved, j, i);
    }
  }

  /** A client's byte is no link of any list and no byte of a block in flight. */
  lemma WriteMisses(s: State, v: View, p: nat, off: nat, q: nat, x: nat)
    requires Rep(s, v) && CanWrite(s, p, off) && q in s.pages && q in v && x in Held(v[q]) && x !in v[q].live
    ensures x != p + off
  {
    assert PageAt(s, v, q);
    PagePositive(s, v, q);
    LiveHome(s, v, p);
    HeldPlace(q, s.pages[q], v[q], s.mem, x);
    match s.live[p] {
      case Small(pid, usable) =>
        if pid == q {
          assert p in Held(v[q]);
          ApartInPage(q, s.pages[q], v[q], s.mem, p, x);
        }
      case Big(base, usable) =>
        if x == p + off { BigOutside(s, v, base, q, x); }
    }
  }

  lemma WritePage(s: State, v: View, p: nat, off: nat, val: nat, q: nat)
    requires Rep(s, v) && CanWrite(s, p, off) && q in s.pages
    ensures PageAt(Write(s, p, off, val), v, q) && FlightSame(v, s.mem, Write(s, p, off, val).mem, q)
  {
    hide Rep;
    var m' := Poke(s.mem, p + off, val);
    PageFacts(s, v, q);
    var pg, pv := s.pages[q], v[q];
    if pg.inUse {
      HeldOnce(q, pg, pv, s.mem);
      forall x | x in pv.free || x in pv.pushed || x in pv.taken || x in pv.flight ensures Get(m', x) == Get(s.mem, x) {
        assert Held(pv)[x] <= 1;
        WriteMisses(s, v, p, off, q, x);
      }
      ListsFrame(s.mem, m', pg, pv);
    }
  }

  lemma KeepWrite(s: State, v: View, p: nat, off: nat, val: nat)
    requires Rep(s, v) && CanWrite(s, p, off)
    ensures Rep(Write(s, p, off, val), v)
  {
    hide PageOk, Poke;
    var s' := Write(s, p, off, val);
    forall q | q in s'.pages ensures PageAt(s', v, q) && FlightSame(v, s.mem, s'.mem, q) {
      WritePage(s, v, p, off, val, q);
    }
    WriteThreads(s, s', v);
    ControlLive(s, s', v);
    WriteRegions(s, v, p, off, val);
    RegistryFrame(s, s');
    OwnersFrame(s, s');
    PoolFrame(s, s', v);
  }

  lemma WriteThreads(s: State, s': State, v: View)
    requires ThreadsOk(s, v) && s' == s.(mem := s'.mem) && v.Keys == s.pages.Keys
    requires forall q {:trigger FlightSame(v, s.mem, s'.mem, q)} :: q in s.pages ==> FlightSame(v, s.mem, s'.mem, q)
    ensures ThreadsOk(s', v)
  {
    forall t: Tid ensures PcOk(s', v, t) {
      assert PcOk(s, v, t);
      if PcOf(s, t).Linked? { assert FlightSame(v, s.mem, s'.mem, PcOf(s, t).pid); }
    }
    forall q | q in v ensures HoldersOk(s', v, q) {
      assert HoldersOk(s, v, q);
    }
  }

  lemma WriteRegions(s: State, v: View, p: nat, off: nat, val: nat)
    requires Rep(s, v) && CanWrite(s, p, off)
    ensures RegionsOk(Write(s, p, off, val))
  {
    var s' := Write(s, p, off, val);
    LiveHome(s, v, p);
    forall b | b in s'.large ensures LargeOk(s', b) {
      assert LargeOk(s, b);
      if s.large[b].state.Pending? { WriteMissesPending(s, v, p, off, b); }
    }
    ApartFrame(s, s');
  }

  lemma WriteMissesPending(s: State, v: View, p: nat, off: nat, b: nat)
    requires Rep(s, v) && CanWrite(s, p, off) && b in s.large && s.large[b].state.Pending?
    ensures !(b <= p + off < b + s.large[b].size)
  {
    LiveHome(s, v, p);
    match s.live[p] {
      case Small(pid, usable) =>
        if b <= p + off < b + s.large[b].size { BigOutside(s, v, b, pid, p + off); }
      case Big(base, usable) =>
        assert LivePtrOk(s, v, p) && LargeApart(s, b, base);
    }
  }
}
