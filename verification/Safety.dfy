/**
 Every run of the transition system stays inside the invariant.
 */
module Safety {
  import opened Layout
  import opened Memory
  import opened Machine
  import opened Invariant
  import opened PageSteps
  import opened OnePage
  import opened BlockActions
  import opened RegionActions
  import opened MapActions
  import opened TableSize
  import LargeRegion

  lemma InitBytes(heapBytes: nat, osPage: nat)
    requires LargeRegion.GoodOsPage(osPage)
    ensures BytesOk(Init(heapBytes, osPage))
  {
    hide SlotsBytes, LargeRegion.GoodOsPage;
    var s := Init(heapBytes, osPage);
    SlotsBytesMeaning(0, osPage);
    assert s.large.Keys == {} && LargeBytes(s.large) == 0 && |s.heaps| == 0;
  }

  lemma InitRep(heapBytes: nat, osPage: nat)
    requires LargeRegion.GoodOsPage(osPage)
    ensures Rep(Init(heapBytes, osPage), map[])
  {
    hide BytesOk, LargeRegion.GoodOsPage;
    var s := Init(heapBytes, osPage);
    InitBytes(heapBytes, osPage);
    forall q: nat ensures Mapped(s, q) && StampOk(s, q) && HeapOk(s, q) && ThreadHeapOk(s, q) {}
    forall x: nat ensures Listed(s, x) {}
  }

  /** Freeing dispatches on recovered metadata and always reaches the right page or region. */
  lemma KeepFree(s: State, v: View, t: Tid, p: nat) returns (v': View)
    requires Rep(s, v) && CanFree(s, t, p)
    ensures Safe(s, AFree(t, p)) && Rep(Free(s, t, p), v')
  {
    hide Rep, RegionBase, PageOf, PageIndexOf;
    RegionOfLive(s, v, p);
    if s.live[p].Small? {
      v' := KeepFreeSmall(s, v, t, p);
    } else {
      KeepFreeLarge(s, v, t, p);
      v' := v;
    }
  }

  lemma KeepFreeSmall(s: State, v: View, t: Tid, p: nat) returns (v': View)
    requires Rep(s, v) && CanFree(s, t, p) && s.live[p].Small?
    ensures Safe(s, AFree(t, p)) && Rep(Free(s, t, p), v')
  {
    hide Rep, RegionBase, PageOf, PageIndexOf, PageOk, Held;
    RegionOfLive(s, v, p);
    LiveHome(s, v, p);
    var pid := s.live[p].pid;
    PageFacts(s, v, pid);
    NullIsNoOwner(s, v, t, pid);
    if s.pages[pid].owner == HeapOf(s, t) {
      v' := KeepFreeLocal(s, v, t, pid, p);
    } else {
      v' := KeepFreeRemote(s, v, t, pid, p);
    }
  }

  /** The owner stamp of a page with a live block is never null, so a thread without a heap never takes the local
      branch. */
  lemma NullIsNoOwner(s: State, v: View, t: Tid, pid: nat)
    requires Rep(s, v) && pid in s.pages && s.pages[pid].inUse
    ensures s.pages[pid].owner == HeapOf(s, t) <==> Owns(s, t, pid)
  {
    assert PageAt(s, v, pid);
  }

  lemma KeepAnyLarge(s: State, v: View, t: Tid, base: nat, size: nat, align: nat, ps: nat)
    requires Rep(s, v) && CanMapLarge(s, t, base, size, align, ps)
    ensures Rep(Next(s, AMapLarge(t, base, size, align, ps)), v)
  {
    hide Rep, LargeRegion.AllocLargePlan, LargeRegion.GoodAlign, LargeRegion.GoodOsPage;
    LargeRegion.PlanShape(size, align, ps);
    var plan := LargeRegion.AllocLargePlan(size, align, ps);
    KeepMapLarge(s, v, t, base, plan.mmapSize, plan.offset);
  }

  /** Actions on the blocks of a page. */
  predicate OnBlocks(a: Action) {
    a.APop? || a.AExtend? || a.ASwap? || a.AWalk? || a.ASplice? || a.AFree? || a.ALoad? || a.ALink? || a.ACas?
        || a.AWrite?
  }

  lemma KeepOnBlocks(s: State, v: View, a: Action) returns (v': View)
    requires Rep(s, v) && Enabled(s, a) && OnBlocks(a)
    ensures Safe(s, a) && Rep(Next(s, a), v')
  {
    hide Rep, LargeRegion.AllocLargePlan, RegionBase, PageOf, PageIndexOf, Pop, Extend, Swap, Walk, Splice, Free, Load,
         LinkBlock, Cas, Write;
    v' := v;
    match a {
      case APop(t, pid) => v' := KeepPop(s, v, t, pid);
      case AExtend(t, pid) => v' := KeepExtend(s, v, t, pid);
      case ASwap(t, pid, sweep) => v' := KeepSwap(s, v, t, pid, sweep);
      case AWalk(t) => v' := KeepWalk(s, v, t);
      case ASplice(t) => v' := KeepSplice(s, v, t);
      case AFree(t, p) => v' := KeepFree(s, v, t, p);
      case ALoad(t) => v' := KeepLoad(s, v, t);
      case ALink(t) => v' := KeepLink(s, v, t);
      case ACas(t, spurious) => v' := KeepCas(s, v, t, spurious);
      case AWrite(_, p, off, val) => KeepWrite(s, v, p, off, val);
    }
  }

  lemma KeepOnPages(s: State, v: View, a: Action) returns (v': View)
    requires Rep(s, v) && Enabled(s, a) && !OnBlocks(a)
    ensures Safe(s, a) && Rep(Next(s, a), v')
  {
    hide Rep, LargeRegion.AllocLargePlan, RegionBase, PageOf, PageIndexOf;
    v' := v;
    match a {
      case ACreateHeap(t, h) => KeepCreateHeap(s, v, t, h);
      case ABeginExit(t) => KeepBeginExit(s, v, t);
      case AEndExit(t) => KeepEndExit(s, v, t);
      case ALock(t) => KeepLockState(s, v, t, Lock(s, t));
      case AUnlock(t) => KeepLockState(s, v, t, Unlock(s, t));
      case AMapSegment(t, seg) => v' := KeepMapSegment(s, v, t, seg);
      case AAcquire(t, pid, size, cls) => v' := KeepAcquire(s, v, t, pid, size, cls);
      case ARelease(t, pid) => v' := KeepPoolReturn(s, v, t, pid);
      case AReclaim(t, pid) => v' := KeepPoolReturn(s, v, t, pid);
      case AAbandon(t, pid) => v' := KeepAbandon(s, v, t, pid);
      case AMapLarge(t, base, size, align, ps) => KeepAnyLarge(s, v, t, base, size, align, ps);
      case APublish(t) => KeepPublish(s, v, t);
      case AUnmapLarge(t) => KeepUnmapLarge(s, v, t);
      case ARegrow(_) => KeepRegrow(s, v);
    }
  }

  /** No enabled action touches unmapped memory, and every action keeps the invariant. */
  lemma StepKeeps(s: State, v: View, a: Action) returns (v': View)
    requires Rep(s, v) && Enabled(s, a)
    ensures Safe(s, a) && Rep(Next(s, a), v')
  {
    hide Rep, Enabled, Next, Safe;
    if OnBlocks(a) {
      v' := KeepOnBlocks(s, v, a);
    } else {
      v' := KeepOnPages(s, v, a);
    }
  }

  ghost predicate ReachedBy(s: State, heapBytes: nat, osPage: nat, acts: seq<Action>) {
    LargeRegion.GoodOsPage(osPage) && Runs(Init(heapBytes, osPage), acts) && Exec(Init(heapBytes, osPage), acts) == s
  }

  /** The states of all runs from the initial state, for every size of a heap and every OS page size. */
  ghost predicate Reachable(s: State) {
    exists heapBytes: nat, osPage: nat, acts: seq<Action> :: ReachedBy(s, heapBytes, osPage, acts)
  }

  lemma {:induction false} RunKeeps(s: State, v: View, acts: seq<Action>) returns (v': View)
    requires Rep(s, v) && Runs(s, acts)
    ensures Rep(Exec(s, acts), v')
    decreases |acts|
  {
    hide Rep;
    if acts == [] {
      v' := v;
    } else {
      var v1 := StepKeeps(s, v, acts[0]);
      v' := RunKeeps(Next(s, acts[0]), v1, acts[1..]);
    }
  }

  /** Every reachable state satisfies the invariant, whatever the interleaving. */
  lemma ReachableRep(s: State) returns (v: View)
    requires Reachable(s)
    ensures Rep(s, v)
  {
    hide Rep;
    var heapBytes: nat, osPage: nat, acts: seq<Action> :| ReachedBy(s, heapBytes, osPage, acts);
    InitRep(heapBytes, osPage);
    v := RunKeeps(Init(heapBytes, osPage), map[], acts);
  }
}
