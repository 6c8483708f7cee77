/**
 The actions that move blocks keep the invariant: pop, extend, local and remote free, the three
 steps of a remote push, and the swap, walk and splice of a collection.
 */
module BlockActions {
  import opened Layout
  import opened Memory
  import opened Blocks
  import opened Machine
  import opened Invariant
  import opened PageSteps
  import opened OnePage

  /** Exclusive authority over the owner-private fields of a page: its owner thread, or the lock holder if it is
      abandoned. */
  ghost predicate Authority(s: State, t: Tid, pid: nat) {
    Owns(s, t, pid) || (s.lock == Some(t) && pid in s.pages && s.pages[pid].owner == ABANDONED)
  }

  lemma AuthorityUnique(s: State, v: View, t: Tid, u: Tid, pid: nat)
    requires Rep(s, v) && Authority(s, t, pid) && Authority(s, u, pid)
    ensures t == u && s.pages[pid].inUse && pid > 0
  {
    PagePositive(s, v, pid);
    assert PageAt(s, v, pid);
    assert ThreadHeapOk(s, t) && ThreadHeapOk(s, u) && HeapOk(s, HeapOf(s, t)) && HeapOk(s, HeapOf(s, u));
  }

  /** While its authority is between two steps of a collection, nobody else collects the page. */
  lemma NoWalker(s: State, v: View, t: Tid, pid: nat)
    requires Rep(s, v) && Authority(s, t, pid) && !Walks(PcOf(s, t), pid)
    ensures v[pid].walker == None && v[pid].taken == []
  {
    assert HoldersOk(s, v, pid);
    if v[pid].walker.Some? {
      var u := v[pid].walker.value;
      assert PcOk(s, v, u);
      AuthorityUnique(s, v, t, u, pid);
    }
  }

  /** Nothing of the page is in t's hands while t is idle. */
  lemma IdleHoldsNothing(s: State, v: View, t: Tid, pid: nat)
    requires Rep(s, v) && pid in s.pages && PcOf(s, t) == Idle
    ensures forall b :: b in v[pid].flight ==> v[pid].flight[b] != t
    ensures v[pid].walker != Some(t)
  {
    assert HoldersOk(s, v, pid);
  }

  lemma PageFacts(s: State, v: View, pid: nat)
    requires Rep(s, v) && pid in s.pages
    ensures PageAt(s, v, pid) && HoldersOk(s, v, pid) && pid > 0 && SegmentOfPage(pid) in s.segs
  {
    PagePositive(s, v, pid);
    assert PageAt(s, v, pid) && HoldersOk(s, v, pid);
  }

  lemma ThreadFacts(s: State, v: View, t: Tid)
    requires Rep(s, v)
    ensures PcOk(s, v, t) && v.Keys == s.pages.Keys
    ensures var c := PcOf(s, t);
            && (c.Walking? ==> Authority(s, t, c.pid))
            && (c.Walking? || c.Freeing? || c.Loaded? || c.Linked? ==> c.pid in s.pages && s.pages[c.pid].inUse)
  {
    assert PcOk(s, v, t);
    var c := PcOf(s, t);
    if c.Walking? || c.Freeing? || c.Loaded? || c.Linked? { assert PageAt(s, v, c.pid); }
  }

  lemma LiveSame(s: State, s': State, v: View, pid: nat)
    requires Rep(s, v) && pid in s.pages && s'.live == s.live
    ensures forall pv': PageView {:trigger LiveMoved(s, s', pid, s.pages[pid].blockSize, pv')} ::
            pv'.live == v[pid].live ==>
              LiveMoved(s, s', pid, s.pages[pid].blockSize, pv')
  {
    forall pv': PageView, p: nat | pv'.live == v[pid].live
      ensures PtrMoved(s, s', pid, s.pages[pid].blockSize, pv', p) {
      assert p in s.live ==> LivePtrOk(s, v, p);
      assert p in v[pid].live ==> LiveBlockOk(s, pid, p);
    }
  }

  lemma LiveAdded(s: State, s': State, v: View, pid: nat, pv': PageView, b: nat)
    requires Rep(s, v) && pid in s.pages && b !in s.live && pv'.live == v[pid].live + {b}
    requires s'.live == s.live[b := Small(pid, s.pages[pid].blockSize)]
    ensures LiveMoved(s, s', pid, s.pages[pid].blockSize, pv')
  {
    forall p: nat ensures PtrMoved(s, s', pid, s.pages[pid].blockSize, pv', p) {
      assert p in s.live ==> LivePtrOk(s, v, p);
      assert p in v[pid].live ==> LiveBlockOk(s, pid, p);
    }
  }

  lemma LiveDropped(s: State, s': State, v: View, pid: nat, pv': PageView, b: nat)
    requires Rep(s, v) && pid in s.pages && b in v[pid].live && pv'.live == v[pid].live - {b}
    requires s'.live == s.live - {b}
    ensures LiveMoved(s, s', pid, s.pages[pid].blockSize, pv')
  {
    assert LiveBlockOk(s, pid, b);
    forall p: nat ensures PtrMoved(s, s', pid, s.pages[pid].blockSize, pv', p) {
      assert p in s.live ==> LivePtrOk(s, v, p);
      assert p in v[pid].live ==> LiveBlockOk(s, pid, p);
    }
  }

  lemma KeepPop(s: State, v: View, t: Tid, pid: nat) returns (v': View)
    requires Rep(s, v) && CanPop(s, t, pid)
    ensures Rep(Pop(s, t, pid), v')
    ensures Safe(s, APop(t, pid)) && s.pages[pid].free !in s.live
  {
    hide Rep, PageOk, LiveMoved, Held;
    AuthorityUnique(s, v, t, t, pid);
    PageFacts(s, v, pid);
    var pg, s' := s.pages[pid], Pop(s, t, pid);
    var pv' := PopPage(pid, pg, v[pid], s.mem);
    HeldPlace(pid, pg, v[pid], s.mem, pg.free);
    NotLive(s, v, pid, pg.free);
    LiveAdded(s, s', v, pid, pv', pg.free);
    v' := v[pid := pv'];
    assert HoldersOk(s', v', pid);
    MovesKeep(s, s', v, pg.(free := Get(s.mem, pg.free), used := pg.used + 1), pv', t, pid);
  }

  /** A block of an in-use page that is not in the page's live set is not live at all. */
  lemma NotLive(s: State, v: View, pid: nat, b: nat)
    requires Rep(s, v) && pid in s.pages && s.pages[pid].inUse
    requires b in Held(v[pid]) && b !in v[pid].live
    ensures b !in s.live
  {
    PagePositive(s, v, pid);
    assert PageAt(s, v, pid);
    HeldPlace(pid, s.pages[pid], v[pid], s.mem, b);
    PageInSegment(pid);
    if b in s.live {
      assert SegmentOfPage(pid) in s.segs;
      LiveHome(s, v, b);
      if s.live[b].Big? { BigElsewhere(s, v, pid, b); }
    }
  }

  lemma BigElsewhere(s: State, v: View, pid: nat, p: nat)
    requires Rep(s, v) && pid in s.pages && p in s.live && s.live[p].Big?
    ensures p < Area(pid) || Area(pid) + PAGE_SIZE <= p
  {
    LiveHome(s, v, p);
    PagePositive(s, v, pid);
    PageInSegment(pid);
    assert SegmentApart(s, SegmentOfPage(pid), s.live[p].base);
  }

  /** A pointer's address lies in the page or region it is recorded for. */
  lemma LiveHome(s: State, v: View, p: nat)
    requires Rep(s, v) && p in s.live
    ensures match s.live[p]
            case Small(pid, usable) =>
              && pid in s.pages && pid in v && s.pages[pid].inUse && p in v[pid].live && p in Held(v[pid])
              && usable == s.pages[pid].blockSize && usable >= ALLOC_ALIGN && BlockOf(pid, usable, p)
            case Big(base, usable) =>
              && LargeOk(s, base) && s.large[base].state == Published && base < p && p - base < SEGMENT_SIZE
              && p + usable == base + s.large[base].size && usable > 0
  {
    assert LivePtrOk(s, v, p);
    match s.live[p] {
      case Small(q, _) =>
        PagePositive(s, v, q);
        assert PageAt(s, v, q);
        HeldPlace(q, s.pages[q], v[q], s.mem, p);
      case Big(base, _) =>
        assert LargeOk(s, base);
    }
  }

  /** Blocks being pushed keep their links when other blocks of the page are written. */
  ghost predicate FlightKept(pv: PageView, m: Mem, m': Mem) {
    forall b :: b in pv.flight ==> Get(m', b) == Get(m, b)
  }

  lemma ExtendKeepsFlight(pid: nat, pg: Page, pv: PageView, m: Mem, m': Mem)
    requires pg.inUse && PageOk(pid, pg, pv, m) && HeldSame(m, m', pv, pg.blockSize)
    ensures FlightKept(pv, m, m')
  {
    forall b | b in pv.flight ensures Get(m', b) == Get(m, b) {
      assert b in Held(pv) && b <= b < b + pg.blockSize;
    }
  }

  lemma ExtendBatch(s: State, v: View, t: Tid, pid: nat)
    requires PageAt(s, v, pid) && CanExtend(s, t, pid) && s.pages[pid].inUse
    ensures CarvedBatch(s.pages[pid], Extend(s, t, pid).pages[pid])
  {
    hide Carve, EightKiB;
    BatchMeaning(s.pages[pid].blockSize, s.pages[pid].capacity - s.pages[pid].reserved);
  }

  lemma KeepExtend(s: State, v: View, t: Tid, pid: nat) returns (v': View)
    requires Rep(s, v) && CanExtend(s, t, pid)
    ensures Rep(Extend(s, t, pid), v') && pid in v
    ensures HeldSame(s.mem, Extend(s, t, pid).mem, v[pid], s.pages[pid].blockSize)
    ensures RangeSame(s.mem, Extend(s, t, pid).mem, Area(pid) + s.pages[pid].reserved * s.pages[pid].blockSize,
            Area(pid) + PAGE_SIZE)
    ensures CarvedBatch(s.pages[pid], Extend(s, t, pid).pages[pid])
  {
    hide Rep, PageOk, LiveMoved, OutsideSame, Held, Store, Carve, CarvedBatch;
    AuthorityUnique(s, v, t, t, pid);
    PageFacts(s, v, pid);
    ExtendBatch(s, v, t, pid);
    var pg, s' := s.pages[pid], Extend(s, t, pid);
    var pv' := ExtendPage(pid, pg, v[pid], s.mem);
    ExtendKeepsFlight(pid, pg, v[pid], s.mem, s'.mem);
    LiveSame(s, s', v, pid);
    v' := v[pid := pv'];
    assert HoldersOk(s', v', pid);
    MovesKeep(s, s', v, Extended(pid, pg), pv', t, pid);
  }

  lemma KeepSwap(s: State, v: View, t: Tid, pid: nat, sweep: bool) returns (v': View)
    requires Rep(s, v) && CanSwap(s, t, pid, sweep)
    ensures Rep(Swap(s, t, pid, sweep), v')
  {
    hide Rep, PageOk, LiveMoved, Held;
    AuthorityUnique(s, v, t, t, pid);
    NoWalker(s, v, t, pid);
    IdleHoldsNothing(s, v, t, pid);
    PageFacts(s, v, pid);
    var pg, s' := s.pages[pid], Swap(s, t, pid, sweep);
    var pv' := SwapPage(pid, pg, v[pid], s.mem, t);
    LiveSame(s, s', v, pid);
    v' := v[pid := pv'];
    assert HoldersOk(s', v', pid) && PcOk(s', v', t);
    MovesKeep(s, s', v, pg.(threadFree := 0), pv', t, pid);
  }

  lemma KeepWalk(s: State, v: View, t: Tid) returns (v': View)
    requires Rep(s, v) && CanWalk(s, t)
    ensures Rep(Walk(s, t), v') && v' == v && Safe(s, AWalk(t)) && PcOf(s, t).pid in v
    ensures PcOf(s, t).n < |v[PcOf(s, t).pid].taken|
  {
    hide Rep, PageOk, LiveMoved, Held;
    var c, s' := PcOf(s, t), Walk(s, t);
    ThreadFacts(s, v, t);
    PageFacts(s, v, c.pid);
    var pg, pv := s.pages[c.pid], v[c.pid];
    WalkPage(c.pid, pg, pv, s.mem, c.n);
    LiveSame(s, s', v, c.pid);
    v' := v;
    assert v[c.pid := pv] == v;
    assert HoldersOk(s', v, c.pid) && PcOk(s', v, t);
    MovesKeep(s, s', v, pg, pv, t, c.pid);
  }

  lemma WalkPage(pid: nat, pg: Page, pv: PageView, m: Mem, n: nat)
    requires pid > 0 && pg.inUse && PageOk(pid, pg, pv, m) && 1 <= n <= |pv.taken|
    ensures Get(m, pv.taken[n - 1]) == At(pv.taken, n) && pv.taken[n - 1] / PAGE_SIZE == pid
            && pv.taken[n - 1] in Held(pv)
    ensures n < |pv.taken| <==> Get(m, pv.taken[n - 1]) != 0
  {
    assert Link(m, pv.taken, n - 1);
    assert n < |pv.taken| ==> Link(m, pv.taken, n);
    assert pv.taken[n - 1] in Held(pv);
    HeldPlace(pid, pg, pv, m, pv.taken[n - 1]);
  }

  lemma StoreKeepsFlight(pid: nat, pg: Page, pv: PageView, m: Mem, x: nat, val: nat)
    requires pid > 0 && pg.inUse && PageOk(pid, pg, pv, m) && x in Held(pv) && x !in pv.flight
    ensures FlightKept(pv, m, Store(m, x, val)) && OutsideSame(m, Store(m, x, val), pid)
  {
    StoreBlock(pid, pg, pv, m, x, val);
    forall b | b in pv.flight ensures Get(Store(m, x, val), b) == Get(m, b) {
      assert b in Held(pv) && b != x;
    }
  }

  lemma TakenNotFlight(pid: nat, pg: Page, pv: PageView, m: Mem, x: nat)
    requires pg.inUse && PageOk(pid, pg, pv, m) && (x in pv.taken || x in pv.live)
    ensures x in Held(pv) && x !in pv.flight
  {
    HeldOnce(pid, pg, pv, m);
    assert Held(pv)[x] <= 1;
  }

  lemma KeepSplice(s: State, v: View, t: Tid) returns (v': View)
    requires Rep(s, v) && CanSplice(s, t)
    ensures Rep(Splice(s, t), v') && Safe(s, ASplice(t)) && PcOf(s, t).pid in v
    ensures PcOf(s, t).n == |v[PcOf(s, t).pid].taken| <= s.pages[PcOf(s, t).pid].used
    ensures PcOf(s, t).tail in v[PcOf(s, t).pid].taken
  {
    hide Rep, PageOk, LiveMoved, OutsideSame, Held, Store, Carve;
    var c, s' := PcOf(s, t), Splice(s, t);
    ThreadFacts(s, v, t);
    PageFacts(s, v, c.pid);
    var pg, pv := s.pages[c.pid], v[c.pid];
    WalkPage(c.pid, pg, pv, s.mem, c.n);
    TakenNotFlight(c.pid, pg, pv, s.mem, c.tail);
    StoreKeepsFlight(c.pid, pg, pv, s.mem, c.tail, pg.free);
    var pv' := SplicePage(c.pid, pg, pv, s.mem, c.n);
    LiveSame(s, s', v, c.pid);
    v' := v[c.pid := pv'];
    assert HoldersOk(s', v', c.pid);
    MovesKeep(s, s', v, pg.(free := pv.taken[0], used := pg.used - c.n), pv', t, c.pid);
  }

  lemma FreeLocalFrame(s: State, pid: nat, p: nat)
    requires pid in s.pages && s.pages[pid].inUse
    ensures SameElse(s, FreeLocal(s, pid, p)) && PageMoved(s, FreeLocal(s, pid, p), pid)
  {
  }

  lemma KeepFreeLocal(s: State, v: View, t: Tid, pid: nat, p: nat) returns (v': View)
    requires Rep(s, v) && Ready(s, t) && pid in s.pages && pid in v && p in v[pid].live && Owns(s, t, pid)
    ensures Rep(FreeLocal(s, pid, p), v')
    ensures s.pages[pid].used >= 1
  {
    hide Rep, PageOk, LiveMoved, OutsideSame, Held, Store, Carve, SameElse, PageMoved, HoldersOk, StakeKept, FlightKept;
    AuthorityUnique(s, v, t, t, pid);
    PageFacts(s, v, pid);
    FreeLocalFrame(s, pid, p);
    var pg, pv, s' := s.pages[pid], v[pid], FreeLocal(s, pid, p);
    TakenNotFlight(pid, pg, pv, s.mem, p);
    StoreKeepsFlight(pid, pg, pv, s.mem, p, pg.free);
    var pv' := FreeLocalPage(pid, pg, pv, s.mem, p);
    LiveDropped(s, s', v, pid, pv', p);
    v' := v[pid := pv'];
    SameHolders(s, s', v, pv', t, pid);
    MovesKeep(s, s', v, pg.(free := p, used := pg.used - 1), pv', t, pid);
  }

  /** Nobody's position changed, and nothing of the page that is mid-push or being collected. */
  lemma SameHolders(s: State, s': State, v: View, pv': PageView, t: Tid, pid: nat)
    requires Rep(s, v) && pid in s.pages && pid in v && s'.pc == s.pc && FlightKept(v[pid], s.mem, s'.mem)
    requires pv'.flight == v[pid].flight && pv'.taken == v[pid].taken && pv'.walker == v[pid].walker
    ensures HoldersOk(s', v[pid := pv'], pid) && StakeKept(v[pid], pv', s.mem, s'.mem, t)
  {
    assert HoldersOk(s, v, pid);
  }

  lemma KeepFreeRemote(s: State, v: View, t: Tid, pid: nat, p: nat) returns (v': View)
    requires Rep(s, v) && Ready(s, t) && pid in s.pages && s.pages[pid].inUse && pid in v && p in v[pid].live
    ensures Rep(FreeRemote(s, t, pid, p), v')
  {
    hide Rep, PageOk, LiveMoved, Held;
    PageFacts(s, v, pid);
    IdleHoldsNothing(s, v, t, pid);
    var s' := FreeRemote(s, t, pid, p);
    var pv' := FreeRemotePage(pid, s.pages[pid], v[pid], s.mem, p, t);
    LiveDropped(s, s', v, pid, pv', p);
    v' := v[pid := pv'];
    assert HoldersOk(s', v', pid) && PcOk(s', v', t);
    MovesKeep(s, s', v, s.pages[pid], pv', t, pid);
  }

  lemma KeepLoad(s: State, v: View, t: Tid) returns (v': View)
    requires Rep(s, v) && CanLoad(s, t)
    ensures Rep(Load(s, t), v') && v' == v && Safe(s, ALoad(t))
  {
    hide Rep, PageOk, LiveMoved, Held;
    var c, s' := PcOf(s, t), Load(s, t);
    ThreadFacts(s, v, t);
    PageFacts(s, v, c.pid);
    LiveSame(s, s', v, c.pid);
    v' := v;
    assert v[c.pid := v[c.pid]] == v;
    assert HoldersOk(s', v, c.pid) && PcOk(s', v, t);
    MovesKeep(s, s', v, s.pages[c.pid], v[c.pid], t, c.pid);
  }

  lemma KeepLink(s: State, v: View, t: Tid) returns (v': View)
    requires Rep(s, v) && CanLink(s, t)
    ensures Rep(LinkBlock(s, t), v') && v' == v && Safe(s, ALink(t))
  {
    hide Rep, PageOk, LiveMoved, OutsideSame, Held, Store, Carve;
    var c, s' := PcOf(s, t), LinkBlock(s, t);
    ThreadFacts(s, v, t);
    PageFacts(s, v, c.pid);
    var pg, pv := s.pages[c.pid], v[c.pid];
    LinkPage(c.pid, pg, pv, s.mem, c.b, c.head);
    LiveSame(s, s', v, c.pid);
    v' := v;
    assert v[c.pid := pv] == v;
    assert HoldersOk(s', v, c.pid) && PcOk(s', v, t);
    assert StakeKept(pv, pv, s.mem, s'.mem, t);
    MovesKeep(s, s', v, pg, pv, t, c.pid);
  }

  lemma LinkPage(pid: nat, pg: Page, pv: PageView, m: Mem, b: nat, val: nat)
    requires pid > 0 && pg.inUse && PageOk(pid, pg, pv, m) && b in pv.flight
    ensures PageOk(pid, pg, pv, Store(m, b, val)) && OutsideSame(m, Store(m, b, val), pid) && b / PAGE_SIZE == pid
    ensures forall x :: x in pv.flight && x != b ==> Get(Store(m, b, val), x) == Get(m, x)
  {
    LinkLists(pid, pg, pv, m, b, val);
    assert forall x :: x in pv.flight ==> x in Held(pv);
  }

  lemma KeepCas(s: State, v: View, t: Tid, spurious: bool) returns (v': View)
    requires Rep(s, v) && CanCas(s, t)
    ensures Rep(Cas(s, t, spurious), v') && Safe(s, ACas(t, spurious))
  {
    hide Rep;
    ThreadFacts(s, v, t);
    if s.pages[PcOf(s, t).pid].threadFree == PcOf(s, t).head && !spurious {
      v' := KeepCasWon(s, v, t);
    } else {
      v' := KeepCasLost(s, v, t, spurious);
    }
  }

  lemma KeepCasWon(s: State, v: View, t: Tid) returns (v': View)
    requires Rep(s, v) && CanCas(s, t) && Pg(s, PcOf(s, t).pid).threadFree == PcOf(s, t).head
    ensures Rep(Cas(s, t, false), v')
  {
    hide Rep, PageOk, LiveMoved, Held;
    var c, s' := PcOf(s, t), Cas(s, t, false);
    ThreadFacts(s, v, t);
    PageFacts(s, v, c.pid);
    LiveSame(s, s', v, c.pid);
    var pg, pv := s.pages[c.pid], v[c.pid];
    var pv' := CasPage(c.pid, pg, pv, s.mem, c.b);
    v' := v[c.pid := pv'];
    assert HoldersOk(s', v', c.pid) && PcOk(s', v', t);
    MovesKeep(s, s', v, pg.(threadFree := c.b), pv', t, c.pid);
  }

  lemma KeepCasLost(s: State, v: View, t: Tid, spurious: bool) returns (v': View)
    requires Rep(s, v) && CanCas(s, t) && (spurious || Pg(s, PcOf(s, t).pid).threadFree != PcOf(s, t).head)
    ensures Rep(Cas(s, t, spurious), v')
  {
    hide Rep, PageOk, LiveMoved, Held;
    var c, s' := PcOf(s, t), Cas(s, t, spurious);
    ThreadFacts(s, v, t);
    PageFacts(s, v, c.pid);
    LiveSame(s, s', v, c.pid);
    v' := v;
    assert v[c.pid := v[c.pid]] == v;
    assert HoldersOk(s', v, c.pid) && PcOk(s', v, t);
    MovesKeep(s, s', v, s.pages[c.pid], v[c.pid], t, c.pid);
  }
}
