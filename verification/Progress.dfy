/**
 What a thread can do on its own, from any reachable state: collect a page, and leave with all its pages given back or
 abandoned. Beside the safety theorems this rules out a protocol that is safe because nothing moves.
 */
module Progress {
  import opened Layout
  import opened Memory
  import opened Blocks
  import opened Machine
  import opened Invariant
  import opened BlockActions
  import opened RegionActions
  import opened MapActions
  import opened Safety
  import opened Theorems
  import opened Protocol
  import PageHeaders
  import LargeRegion

  /** The steps acts, all of them t's, lead from s to s'. */
  ghost predicate Alone(s: State, acts: seq<Action>, t: Tid, s': State) {
    Runs(s, acts) && Exec(s, acts) == s' && forall a :: a in acts ==> a.t == t
  }

  lemma AloneNothing(s: State, t: Tid)
    ensures Alone(s, [], t, s)
  {
  }

  lemma AloneStep(s: State, a: Action)
    requires Reachable(s) && Enabled(s, a)
    ensures Safe(s, a) && Reachable(Next(s, a)) && Alone(s, [a], a.t, Next(s, a))
  {
    hide Reachable, Enabled, Safe, Next;
    NoWildAccess(s, a);
    EmptyThen(s, a);
  }

  lemma EmptyThen(s: State, a: Action)
    requires Enabled(s, a) && Safe(s, a)
    ensures Runs(s, [a]) && Exec(s, [a]) == Next(s, a)
  {
    hide Enabled, Safe, Next;
    assert [a][1..] == [];
  }

  lemma {:induction false} AloneThen(s: State, acts: seq<Action>, s1: State, more: seq<Action>, s2: State, t: Tid)
    requires Alone(s, acts, t, s1) && Alone(s1, more, t, s2)
    ensures Alone(s, acts + more, t, s2)
    decreases |acts|
  {
    hide Enabled, Safe, Next;
    if acts == [] {
      assert acts + more == more;
    } else {
      assert acts[0] in acts;
      AloneThen(Next(s, acts[0]), acts[1..], s1, more, s2, t);
      assert (acts + more)[1..] == acts[1..] + more && (acts + more)[0] == acts[0];
    }
  }

  // ---------------------------------------------------------------- one collection

  /** The walk to the tail, one link per block. */
  lemma {:induction false} WalkAlone(s: State, t: Tid, l: seq<nat>) returns (acts: seq<Action>, s': State)
    requires Reachable(s) && PcOf(s, t).Walking? && IsList(s.mem, PcOf(s, t).list, l)
    ensures Alone(s, acts, t, s') && Reachable(s') && s' == s.(pc := s'.pc) && CanSplice(s', t)
    ensures |l| > 0 && PcOf(s', t) == PcOf(s, t).(tail := l[|l| - 1], n := |l|)
    decreases if PcOf(s, t).Walking? then |l| - PcOf(s, t).n else 0
  {
    hide Reachable, IsList, Alone;
    var c := PcOf(s, t);
    var m := WalkOnList(s, t);
    ListUnique(s.mem, c.list, l, m);
    if c.n == |l| {
      acts, s' := [], s;
      AloneNothing(s, t);
    } else {
      AloneStep(s, AWalk(t));
      var s1 := Next(s, AWalk(t));
      WalkEffect(s, t);
      var more: seq<Action>;
      more, s' := WalkAlone(s1, t, l);
      AloneThen(s, [AWalk(t)], s1, more, s', t);
      acts := [AWalk(t)] + more;
    }
  }

  lemma WalkEffect(s: State, t: Tid)
    requires CanWalk(s, t) && Safe(s, AWalk(t))
    ensures var c, s' := PcOf(s, t), Next(s, AWalk(t));
            PcOf(s', t) == c.(tail := Get(s.mem, c.tail), n := c.n + 1) && s' == s.(pc := s'.pc)
  {
  }

  /** Page pid after its thread_free list l was collected in front of its free list f. */
  ghost predicate Gathered(s: State, s': State, pid: nat, l: seq<nat>, f: seq<nat>) {
    && pid in s.pages && IsList(s'.mem, At(l + f, 0), l + f)
    && var pg := s.pages[pid];
       s' == s.(pages := s.pages[pid := pg.(threadFree := 0, used := pg.used - |l|, free := At(l + f, 0))],
                mem := s'.mem, pc := s'.pc)
  }

  /** A thread with authority over a page collects it on its own: afterwards everything that was parked is free, in
      order and in front, and no longer counted. */
  lemma CollectAlone(s: State, t: Tid, pid: nat, sweep: bool, l: seq<nat>, f: seq<nat>)
    returns (acts: seq<Action>, s': State)
    requires Reachable(s) && CanSwap(s, t, pid, sweep)
    requires IsList(s.mem, Pg(s, pid).threadFree, l) && IsList(s.mem, Pg(s, pid).free, f)
    ensures Alone(s, acts, t, s') && Reachable(s') && PcOf(s', t) == Idle && Gathered(s, s', pid, l, f)
  {
    hide Reachable, IsList, Alone, Next, Safe, Store, Authority;
    var a := ASwap(t, pid, sweep);
    AloneStep(s, a);
    var s1 := Next(s, a);
    SwapEffect(s, t, pid, sweep);
    Emptiness(s.mem, Pg(s, pid).threadFree, l);
    Emptiness(s.mem, Pg(s, pid).free, f);
    if l == [] {
      acts, s' := [a], s1;
      assert l + f == f;
    } else {
      var more, s2 := WalkAlone(s1, t, l);
      AloneStep(s2, ASplice(t));
      s' := Next(s2, ASplice(t));
      SpliceEffect(s2, t);
      AloneThen(s, [a], s1, more, s2, t);
      AloneThen(s, [a] + more, s2, [ASplice(t)], s', t);
      acts := [a] + more + [ASplice(t)];
      Spliced(s, t, pid, l, f);
    }
  }

  lemma SwapEffect(s: State, t: Tid, pid: nat, sweep: bool)
    requires CanSwap(s, t, pid, sweep) && Safe(s, ASwap(t, pid, sweep))
    ensures var s', list := Next(s, ASwap(t, pid, sweep)), Pg(s, pid).threadFree;
            && pid in s.pages && Authority(s, t, pid)
            && s' == s.(pages := s.pages[pid := s.pages[pid].(threadFree := 0)], pc := s'.pc)
            && PcOf(s', t) == if list == 0 then Idle else Walking(pid, list, list, 1, sweep)
  {
  }

  lemma SpliceEffect(s: State, t: Tid)
    requires CanSplice(s, t) && Safe(s, ASplice(t))
    ensures var s', c := Next(s, ASplice(t)), PcOf(s, t);
            && c.pid in s.pages && PcOf(s', t) == Idle
            && s' == s.(pages := s.pages[c.pid := s.pages[c.pid].(free := c.list, used := s.pages[c.pid].used - c.n)],
                        mem := Store(s.mem, c.tail, s.pages[c.pid].free), pc := s'.pc)
  {
  }

  lemma Emptiness(m: Mem, head: nat, l: seq<nat>)
    requires IsList(m, head, l)
    ensures head == At(l, 0) && (head == 0 <==> l == [])
  {
    assert l != [] ==> Link(m, l, 0);
  }

  lemma Spliced(s: State, t: Tid, pid: nat, l: seq<nat>, f: seq<nat>)
    requires Reachable(s) && pid in s.pages && Authority(s, t, pid) && l != []
    requires IsList(s.mem, s.pages[pid].threadFree, l) && IsList(s.mem, s.pages[pid].free, f)
    ensures IsList(Store(s.mem, l[|l| - 1], s.pages[pid].free), l[0], l + f)
  {
    hide Rep, PageOk, Store;
    var v := ReachableRep(s);
    AuthorityUnique(s, v, t, t, pid);
    PageFacts(s, v, pid);
    var pg, pv := s.pages[pid], v[pid];
    PageHeaders.OwnerView(pid, pg, pv, s.mem);
    ListUnique(s.mem, pg.threadFree, l, pv.pushed);
    ListUnique(s.mem, pg.free, f, pv.free);
    PageHeaders.SpliceOwner(pid, pg, f, l, s.mem);
  }

  /** The sweep's work on one abandoned page: if everything that was out is parked, the lock holder on its own collects
      the page and gives it back. */
  lemma ReclaimAlone(s: State, t: Tid, pid: nat, l: seq<nat>, f: seq<nat>) returns (acts: seq<Action>, s': State)
    requires Reachable(s) && PcOf(s, t) == Idle && s.lock == Some(t) && pid in s.pages
    requires s.pages[pid].owner == ABANDONED && s.pages[pid].used == |l|
    requires IsList(s.mem, s.pages[pid].threadFree, l) && IsList(s.mem, s.pages[pid].free, f)
    ensures Alone(s, acts, t, s') && Reachable(s') && PcOf(s', t) == Idle && s'.live == s.live && s'.lock == s.lock
    ensures pid in s'.pages ==> !s'.pages[pid].inUse
  {
    hide Reachable, IsList, Alone, Next, Safe, PoolReturn;
    var acts1, s1 := CollectAlone(s, t, pid, true, l, f);
    AloneStep(s1, AReclaim(t, pid));
    s' := Next(s1, AReclaim(t, pid));
    ReclaimEffect(s1, t, pid);
    PoolReturnFrame(s1, pid);
    if pid in s'.pages { PoolReturnEntry(s1, pid, pid); }
    AloneThen(s, acts1, s1, [AReclaim(t, pid)], s', t);
    acts := acts1 + [AReclaim(t, pid)];
  }

  lemma ReclaimEffect(s: State, t: Tid, pid: nat)
    requires CanReclaim(s, t, pid) && Safe(s, AReclaim(t, pid))
    ensures Next(s, AReclaim(t, pid)) == PoolReturn(s, pid)
  {
    hide PoolReturn;
  }

  // ---------------------------------------------------------------- a thread leaves

  /** The pages stamped with t's heap. */
  ghost function OwnPages(s: State, t: Tid): set<nat> { set pid | pid in s.pages && s.pages[pid].owner == HeapOf(s, t) }

  /** t is inside heap_destroy, between two pages. */
  ghost predicate Leaving(s: State, t: Tid) {
    Reachable(s) && PcOf(s, t) == Idle && t in s.exiting && s.lock == None && HeapOf(s, t) != 0
  }

  /** From s to s' the client's pointers and the set of heaps stayed, and t is still leaving with the same heap. */
  ghost predicate StillLeaving(s: State, s': State, t: Tid) {
    Leaving(s', t) && s'.live == s.live && s'.heaps == s.heaps && s'.heapOf == s.heapOf && s'.exiting == s.exiting
  }

  lemma LockEffect(s: State, t: Tid)
    requires Reachable(s) && PcOf(s, t) == Idle && HeapOf(s, t) != 0 && s.lock == None
    ensures Enabled(s, ALock(t)) && Safe(s, ALock(t)) && Next(s, ALock(t)) == s.(lock := Some(t))
    ensures Reachable(Next(s, ALock(t))) && Alone(s, [ALock(t)], t, Next(s, ALock(t)))
  {
    hide Reachable, Alone;
    AloneStep(s, ALock(t));
  }

  lemma UnlockEffect(s: State, t: Tid)
    requires Reachable(s) && PcOf(s, t) == Idle && s.lock == Some(t)
    ensures Enabled(s, AUnlock(t)) && Safe(s, AUnlock(t)) && Next(s, AUnlock(t)) == s.(lock := None)
    ensures Reachable(Next(s, AUnlock(t))) && Alone(s, [AUnlock(t)], t, Next(s, AUnlock(t)))
  {
    hide Reachable, Alone;
    AloneStep(s, AUnlock(t));
  }

  /** What becomes of a page pg when its heap goes: an empty one is given back, one with blocks out is abandoned. */
  ghost predicate GivenUp(s: State, pid: nat, pg: Page) {
    if pg.used == 0 then pid in s.pages ==> !s.pages[pid].inUse
    else pid in s.pages && s.pages[pid] == pg.(owner := ABANDONED)
  }

  /** Under the lock the collected page is released if nothing of it is out, and abandoned if something is. */
  lemma GiveUpEffect(s: State, t: Tid, pid: nat) returns (a: Action)
    requires Reachable(s) && PcOf(s, t) == Idle && s.lock == Some(t) && t in s.exiting && Owns(s, t, pid)
    ensures a.t == t && Enabled(s, a) && Safe(s, a) && Reachable(Next(s, a)) && Alone(s, [a], t, Next(s, a))
    ensures var s' := Next(s, a);
            && s' == s.(pages := s'.pages, segs := s'.segs, registered := s'.registered, bytesMapped := s'.bytesMapped)
            && OwnPages(s', t) == OwnPages(s, t) - {pid} && GivenUp(s', pid, s.pages[pid])
  {
    hide Reachable, Alone;
    if s.pages[pid].used == 0 {
      a := ARelease(t, pid);
      AloneStep(s, a);
      ReleasedPages(s, t, pid);
    } else {
      a := AAbandon(t, pid);
      AloneStep(s, a);
      AbandonedPages(s, t, pid);
    }
  }

  lemma HeapIsNoTag(s: State, t: Tid)
    requires Reachable(s) && HeapOf(s, t) != 0
    ensures HeapOf(s, t) > ABANDONED
  {
    hide Rep;
    var v := ReachableRep(s);
    OwnerStamp(s, v, t);
  }

  lemma AbandonedPages(s: State, t: Tid, pid: nat)
    requires Reachable(s) && Owns(s, t, pid)
    ensures OwnPages(Abandon(s, pid), t) == OwnPages(s, t) - {pid}
  {
    hide Reachable;
    HeapIsNoTag(s, t);
  }

  lemma ReleasedPages(s: State, t: Tid, pid: nat)
    requires Reachable(s) && Owns(s, t, pid)
    ensures var s' := PoolReturn(s, pid);
            && OwnPages(s', t) == OwnPages(s, t) - {pid}
            && s' == s.(pages := s'.pages, segs := s'.segs, registered := s'.registered, bytesMapped := s'.bytesMapped)
  {
    hide Rep, PoolReturn;
    var v := ReachableRep(s);
    var s' := PoolReturn(s, pid);
    PoolReturnFrame(s, pid);
    forall q: nat ensures q in OwnPages(s', t) <==> q in OwnPages(s, t) && q != pid {
      if q in s'.pages { PoolReturnEntry(s, pid, q); }
      if q in s.pages && q !in s'.pages && q != pid {
        PoolReturnScope(s, pid, q);
        UnusedStamp(s, v, q);
      }
    }
  }

  lemma PoolReturnFrame(s: State, pid: nat)
    ensures var s' := PoolReturn(s, pid);
            s' == s.(pages := s'.pages, segs := s'.segs, registered := s'.registered, bytesMapped := s'.bytesMapped)
  {
    hide Surplus;
  }

  lemma UnusedStamp(s: State, v: View, pid: nat)
    requires Rep(s, v) && pid in s.pages && !s.pages[pid].inUse
    ensures s.pages[pid].owner == 0
  {
    assert PageAt(s, v, pid);
  }

  /** One page of the leaving heap: collected, then given back or abandoned under the lock. It is given back exactly
      when all blocks that were out of it had been parked on its thread_free list l. */
  lemma RetireAlone(s: State, t: Tid, pid: nat) returns (acts: seq<Action>, s': State, l: seq<nat>)
    requires Leaving(s, t) && pid in OwnPages(s, t)
    ensures Alone(s, acts, t, s') && StillLeaving(s, s', t) && OwnPages(s', t) == OwnPages(s, t) - {pid}
    ensures IsList(s.mem, s.pages[pid].threadFree, l)
    ensures if s.pages[pid].used == |l| then pid in s'.pages ==> !s'.pages[pid].inUse
            else pid in s'.pages && s'.pages[pid].owner == ABANDONED && s'.pages[pid].used == s.pages[pid].used - |l|
  {
    hide Reachable, IsList, Alone, Next, Safe;
    var f;
    l, f := PageListsOf(s, t, pid);
    var acts1, s1 := CollectAlone(s, t, pid, false, l, f);
    LockEffect(s1, t);
    var s2 := Next(s1, ALock(t));
    var a := GiveUpEffect(s2, t, pid);
    var s3 := Next(s2, a);
    UnlockEffect(s3, t);
    s' := Next(s3, AUnlock(t));
    AloneThen(s, acts1, s1, [ALock(t)], s2, t);
    AloneThen(s, acts1 + [ALock(t)], s2, [a], s3, t);
    AloneThen(s, acts1 + [ALock(t)] + [a], s3, [AUnlock(t)], s', t);
    acts := acts1 + [ALock(t)] + [a] + [AUnlock(t)];
    assert OwnPages(s1, t) == OwnPages(s, t) && OwnPages(s2, t) == OwnPages(s1, t)
           && OwnPages(s', t) == OwnPages(s3, t);
  }

  lemma PageListsOf(s: State, t: Tid, pid: nat) returns (l: seq<nat>, f: seq<nat>)
    requires Reachable(s) && Owns(s, t, pid)
    ensures IsList(s.mem, s.pages[pid].threadFree, l) && IsList(s.mem, s.pages[pid].free, f)
  {
    hide Rep;
    var v := ReachableRep(s);
    AuthorityUnique(s, v, t, t, pid);
    PageFacts(s, v, pid);
    l, f := v[pid].pushed, v[pid].free;
  }

  lemma {:induction false} RetireAll(s: State, t: Tid) returns (acts: seq<Action>, s': State)
    requires Leaving(s, t)
    ensures Alone(s, acts, t, s') && StillLeaving(s, s', t) && OwnPages(s', t) == {}
    decreases OwnPages(s, t)
  {
    hide Alone, OwnPages, Reachable;
    if OwnPages(s, t) == {} {
      acts, s' := [], s;
      AloneNothing(s, t);
    } else {
      var pid :| pid in OwnPages(s, t);
      var acts1, s1, _ := RetireAlone(s, t, pid);
      var more: seq<Action>;
      more, s' := RetireAll(s1, t);
      AloneThen(s, acts1, s1, more, s', t);
      acts := acts1 + more;
    }
  }

  /** Thread exit gets through: from any reachable state in which a thread has a heap, is between two calls and finds
      the lock free, its own steps lead to a state where its heap is gone and all other heaps are there, and no client
      has lost a pointer. No page keeps the stamp of the heap that went. */
  lemma ExitAlone(s: State, t: Tid) returns (acts: seq<Action>, s': State)
    requires Reachable(s) && Ready(s, t) && HeapOf(s, t) != 0 && s.lock == None
    ensures Alone(s, acts, t, s') && Reachable(s') && HeapOf(s', t) == 0 && Ready(s', t) && s'.lock == None
    ensures s'.heaps == s.heaps - {HeapOf(s, t)} && s'.live == s.live
    ensures forall pid :: pid in s'.pages ==> s'.pages[pid].owner != HeapOf(s, t)
  {
    hide Alone, Reachable, OwnPages;
    AloneStep(s, ABeginExit(t));
    var s1 := Next(s, ABeginExit(t));
    BeginEffect(s, t);
    var more, s2 := RetireAll(s1, t);
    NoneLeft(s2, t);
    AloneStep(s2, AEndExit(t));
    s' := Next(s2, AEndExit(t));
    EndEffect(s2, t);
    AloneThen(s, [ABeginExit(t)], s1, more, s2, t);
    AloneThen(s, [ABeginExit(t)] + more, s2, [AEndExit(t)], s', t);
    acts := [ABeginExit(t)] + more + [AEndExit(t)];
  }

  lemma BeginEffect(s: State, t: Tid)
    requires Enabled(s, ABeginExit(t)) && Safe(s, ABeginExit(t))
    ensures Next(s, ABeginExit(t)) == s.(exiting := s.exiting + {t})
  {
  }

  lemma EndEffect(s: State, t: Tid)
    requires Enabled(s, AEndExit(t)) && Safe(s, AEndExit(t))
    ensures var s' := Next(s, AEndExit(t));
            && HeapOf(s', t) == 0 && s'.heaps == s.heaps - {HeapOf(s, t)} && s'.live == s.live && t !in s'.exiting
            && PcOf(s', t) == PcOf(s, t) && s'.lock == s.lock && s'.pages == s.pages
  {
  }

  lemma NoneLeft(s: State, t: Tid)
    requires Leaving(s, t) && OwnPages(s, t) == {}
    ensures Enabled(s, AEndExit(t))
    ensures forall pid :: pid in s.pages ==> s.pages[pid].owner != HeapOf(s, t)
  {
    forall pid | pid in s.pages ensures s.pages[pid].owner != HeapOf(s, t) { assert pid !in OwnPages(s, t); }
  }
}
