/**
 Framing: an action that works on one page and moves one thread keeps the whole
 invariant, provided it keeps that page's part and every other thread's stake in the page.
 */
module OnePage {
  import opened Layout
  import opened Memory
  import opened Blocks
  import opened Machine
  import opened Invariant
  import opened PageSteps

  ghost predicate SameElse(s: State, s': State) {
    && s'.segs == s.segs && s'.large == s.large && s'.registered == s.registered
    && s'.heaps == s.heaps && s'.heapOf == s.heapOf && s'.exiting == s.exiting && s'.lock == s.lock
    && s'.heapBytes == s.heapBytes && s'.osPage == s.osPage && s'.tableCap == s.tableCap
    && s'.bytesMapped == s.bytesMapped
  }

  /** Blocks being pushed and a collection under way by threads other than t are left alone. */
  ghost predicate StakeKept(pv: PageView, pv': PageView, m: Mem, m': Mem, t: Tid) {
    && (forall b :: b in pv.flight && pv.flight[b] != t ==>
          b in pv'.flight && pv'.flight[b] == pv.flight[b] && Get(m', b) == Get(m, b))
    && (forall b :: b in pv'.flight && pv'.flight[b] != t ==> b in pv.flight && pv.flight[b] == pv'.flight[b])
    && (pv.walker.Some? && pv.walker.value != t ==> pv'.walker == pv.walker && pv'.taken == pv.taken)
    && (pv'.walker.Some? && pv'.walker.value != t ==> pv.walker == pv'.walker)
  }

  predicate HomeIs(a: Alloc, pid: nat) { a.Small? && a.pid == pid }

  ghost predicate PtrMoved(s: State, s': State, pid: nat, size: nat, pv': PageView, p: nat) {
    && (p in s'.live ==>
          (p in pv'.live && s'.live[p] == Small(pid, size)) ||
          (p in s.live && s'.live[p] == s.live[p] && !HomeIs(s.live[p], pid)))
    && (p in pv'.live ==> p in s'.live && s'.live[p] == Small(pid, size))
    && (p in s.live && !HomeIs(s.live[p], pid) ==> p in s'.live && s'.live[p] == s.live[p])
  }

  /** The client's pointers into the page become pv'.live; its other pointers stay. */
  ghost predicate LiveMoved(s: State, s': State, pid: nat, size: nat, pv': PageView) {
    forall p: nat {:trigger PtrMoved(s, s', pid, size, pv', p)} :: PtrMoved(s, s', pid, size, pv', p)
  }

  predicate AtPage(c: Pc, pid: nat) {
    match c
    case Idle => true
    case Mapping(_) => false
    case Unmapping(_) => false
    case _ => c.pid == pid
  }

  /** The page entry changes, but not who owns it or how it is cut. */
  ghost predicate PageMoved(s: State, s': State, pid: nat) {
    && pid in s.pages && pid in s'.pages && s'.pages == s.pages[pid := s'.pages[pid]]
    && s.pages[pid].inUse && s'.pages[pid].inUse
    && s'.pages[pid].owner == s.pages[pid].owner && s'.pages[pid].blockSize == s.pages[pid].blockSize
  }

  ghost predicate Moves(s: State, s': State, v: View, pv': PageView, t: Tid, pid: nat) {
    && SameElse(s, s') && PageMoved(s, s', pid) && pid in v
    && OutsideSame(s.mem, s'.mem, pid)
    && LiveMoved(s, s', pid, s.pages[pid].blockSize, pv')
    && (forall u :: u != t ==> PcOf(s', u) == PcOf(s, u))
    && StakeKept(v[pid], pv', s.mem, s'.mem, t)
    && AtPage(PcOf(s, t), pid) && AtPage(PcOf(s', t), pid)
  }

  lemma PageInSegment(pid: nat)
    ensures var seg := SegmentOfPage(pid);
            seg * SEGMENT_SIZE <= Area(pid) && Area(pid) + PAGE_SIZE <= (seg + 1) * SEGMENT_SIZE
    ensures SegmentOfPage(pid) > 0 ==> pid > 0
  {
  }

  /** A mapped page has a positive number and lies below the top of the address space. */
  lemma PagePositive(s: State, v: View, pid: nat)
    requires Rep(s, v) && pid in s.pages
    ensures pid > 0 && 0 < Area(pid) && Area(pid) + PAGE_SIZE <= WORD && SegmentOfPage(pid) in s.segs
  {
    assert Mapped(s, pid);
    assert SegmentOk(SegmentOfPage(pid));
    PageInSegment(pid);
  }

  /** A page untouched by the action keeps its lists. */
  lemma PageFrame(q: nat, pg: Page, pv: PageView, m: Mem, m': Mem)
    requires q > 0 && PageOk(q, pg, pv, m)
    requires forall a: nat :: Area(q) <= a < Area(q) + PAGE_SIZE ==> Get(m', a) == Get(m, a)
    ensures PageOk(q, pg, pv, m')
    ensures forall b :: b in pv.flight ==> Get(m', b) == Get(m, b)
  {
    if pg.inUse {
      forall x | x in Held(pv) ensures Get(m', x) == Get(m, x) {
        HeldPlace(q, pg, pv, m, x);
      }
      ListsFrame(m, m', pg, pv);
    }
  }

  ghost predicate FlightSame(v: View, m: Mem, m': Mem, q: nat) {
    q in v ==> forall b :: b in v[q].flight ==> Get(m', b) == Get(m, b)
  }

  lemma MovesPages(s: State, s': State, v: View, pv': PageView, pid: nat)
    requires Rep(s, v) && PageMoved(s, s', pid) && OutsideSame(s.mem, s'.mem, pid)
    requires PageOk(pid, s'.pages[pid], pv', s'.mem)
    ensures PagesOk(s', v[pid := pv'])
    ensures forall q {:trigger FlightSame(v, s.mem, s'.mem, q)} :: q != pid ==> FlightSame(v, s.mem, s'.mem, q)
  {
    forall q | q in s.pages && q != pid ensures PageAt(s', v[pid := pv'], q) && FlightSame(v, s.mem, s'.mem, q) {
      PagePositive(s, v, q);
      assert PageAt(s, v, q);
      PageFrame(q, s.pages[q], v[q], s.mem, s'.mem);
    }
    assert PageAt(s', v[pid := pv'], pid);
  }

  lemma MovesLive(s: State, s': State, v: View, pv': PageView, pid: nat)
    requires LiveOk(s, v) && v.Keys == s.pages.Keys && PageMoved(s, s', pid) && s'.large == s.large
    requires LiveMoved(s, s', pid, s.pages[pid].blockSize, pv')
    ensures LiveOk(s', v[pid := pv'])
  {
    var v' := v[pid := pv'];
    forall p | p in s'.live ensures LivePtrOk(s', v', p) {
      assert PtrMoved(s, s', pid, s.pages[pid].blockSize, pv', p);
      assert p in s.live ==> LivePtrOk(s, v, p);
    }
    forall q, p | q in v' && p in v'[q].live ensures LiveBlockOk(s', q, p) {
      assert PtrMoved(s, s', pid, s.pages[pid].blockSize, pv', p);
      if q != pid { assert LiveBlockOk(s, q, p); }
    }
    forall b | b in s.large && s.large[b].state == Published ensures PublishedOk(s', b) {
      assert PublishedOk(s, b);
      assert PtrMoved(s, s', pid, s.pages[pid].blockSize, pv', b + s.large[b].offset);
    }
  }

  lemma MovesThreads(s: State, s': State, v: View, pv': PageView, t: Tid, pid: nat)
    requires v.Keys == s.pages.Keys && ThreadsOk(s, v) && Moves(s, s', v, pv', t, pid)
    requires forall q {:trigger FlightSame(v, s.mem, s'.mem, q)} :: q != pid ==> FlightSame(v, s.mem, s'.mem, q)
    requires PcOk(s', v[pid := pv'], t) && HoldersOk(s', v[pid := pv'], pid)
    ensures ThreadsOk(s', v[pid := pv'])
  {
    var v' := v[pid := pv'];
    forall u: Tid ensures PcOk(s', v', u) {
      if u != t {
        assert PcOk(s, v, u) && HoldersOk(s, v, pid);
        OtherPc(s, s', v, pv', t, pid, u);
      }
    }
    forall q | q in v' ensures HoldersOk(s', v', q) {
      if q != pid {
        assert HoldersOk(s, v, q);
        OtherHolders(s, s', v, pv', t, pid, q);
      }
    }
  }

  lemma OtherHolders(s: State, s': State, v: View, pv': PageView, t: Tid, pid: nat, q: nat)
    requires q != pid && HoldersOk(s, v, q) && AtPage(PcOf(s, t), pid)
    requires forall u :: u != t ==> PcOf(s', u) == PcOf(s, u)
    ensures HoldersOk(s', v[pid := pv'], q)
  {
    forall b | b in v[q].flight ensures Pushes(PcOf(s', v[q].flight[b]), q, b) {
      assert Pushes(PcOf(s, v[q].flight[b]), q, b);
    }
  }

  lemma OtherPc(s: State, s': State, v: View, pv': PageView, t: Tid, pid: nat, u: Tid)
    requires v.Keys == s.pages.Keys && Moves(s, s', v, pv', t, pid) && PcOk(s, v, u) && HoldersOk(s, v, pid)
    requires forall q {:trigger FlightSame(v, s.mem, s'.mem, q)} :: q != pid ==> FlightSame(v, s.mem, s'.mem, q)
    requires u != t
    ensures PcOk(s', v[pid := pv'], u)
  {
    if PcOf(s, u).Linked? { assert PcOf(s, u).pid != pid ==> FlightSame(v, s.mem, s'.mem, PcOf(s, u).pid); }
  }

  lemma MovesRegions(s: State, s': State, pid: nat, t: Tid)
    requires RegionsOk(s) && SegmentOfPage(pid) in s.segs && OutsideSame(s.mem, s'.mem, pid)
    requires s'.segs == s.segs && s'.large == s.large && AtPage(PcOf(s, t), pid)
    requires forall u :: u != t ==> PcOf(s', u) == PcOf(s, u)
    ensures RegionsOk(s')
  {
    PageInSegment(pid);
    forall b | b in s'.large ensures LargeOk(s', b) {
      assert LargeOk(s, b) && SegmentApart(s, SegmentOfPage(pid), b);
    }
    forall seg, b | seg in s'.segs && b in s'.large ensures SegmentApart(s', seg, b) {
      assert SegmentApart(s, seg, b);
    }
    forall b, c | b in s'.large && c in s'.large && b != c ensures LargeApart(s', b, c) {
      assert LargeApart(s, b, c);
    }
  }

  /** The framing rule. */
  lemma MovesKeep(s: State, s': State, v: View, pg': Page, pv': PageView, t: Tid, pid: nat)
    requires pid in s'.pages && s'.pages[pid] == pg'
    requires Rep(s, v) && Moves(s, s', v, pv', t, pid) && PageOk(pid, pg', pv', s'.mem)
    requires PcOk(s', v[pid := pv'], t) && HoldersOk(s', v[pid := pv'], pid)
    ensures Rep(s', v[pid := pv'])
  {
    PagePositive(s, v, pid);
    MovesPages(s, s', v, pv', pid);
    MovesLive(s, s', v, pv', pid);
    MovesThreads(s, s', v, pv', t, pid);
    MovesRegions(s, s', pid, t);
    MovesRest(s, s', v, pv', pid);
  }

  lemma MovesRest(s: State, s': State, v: View, pv': PageView, pid: nat)
    requires Domains(s, v) && OwnersOk(s) && RegistryOk(s) && BytesOk(s) && CacheOk(s)
    requires SameElse(s, s') && PageMoved(s, s', pid)
    ensures OwnersOk(s') && RegistryOk(s') && BytesOk(s') && CacheOk(s') && Domains(s', v[pid := pv'])
  {
    RegistryFrame(s, s');
    forall q: nat ensures Mapped(s', q) && StampOk(s', q) {
      assert Mapped(s, q) && StampOk(s, q);
    }
    forall h: nat ensures HeapOk(s', h) && ThreadHeapOk(s', h) {
      assert HeapOk(s, h) && ThreadHeapOk(s, h);
    }
    forall a, b ensures OneIdle(s', a, b) {
      assert OneIdle(s, a, b);
      SameFree(s, s', pid, a);
      SameFree(s, s', pid, b);
    }
  }

  lemma RegistryFrame(s: State, s': State)
    requires RegistryOk(s) && s'.segs == s.segs && s'.large == s.large && s'.registered == s.registered
    ensures RegistryOk(s')
  {
    forall x: nat ensures Listed(s', x) {
      assert Listed(s, x);
    }
  }

  lemma SameFree(s: State, s': State, pid: nat, seg: nat)
    requires PageMoved(s, s', pid)
    ensures FullyFree(s'.pages, seg) ==> FullyFree(s.pages, seg)
  {
    if FullyFree(s'.pages, seg) {
      forall q | q in s.pages && SegmentOfPage(q) == seg ensures !s.pages[q].inUse {
        assert !s'.pages[q].inUse;
      }
    }
  }
}
