/**
 The concurrent protocol step by step: who may write a page's private fields, thread_free as a
 bag that is pushed to and emptied, collections that terminate, and quiescent states.
 */
module Protocol {
  import opened Layout
  import opened Memory
  import opened Blocks
  import opened Machine
  import opened Invariant
  import opened PageSteps
  import opened OnePage
  import opened BlockActions
  import opened RegionActions
  import opened MapActions
  import opened Safety
  import opened Theorems
  import opened Writes
  import opened TableSize
  import LargeRegion

  // ---------------------------------------------------------------- exclusive authority

  /** The thread is the page's live owner, or holds the central lock and the page is abandoned or pooled. */
  ghost predicate MayWrite(s: State, t: Tid, pid: nat) {
    Authority(s, t, pid) || (s.lock == Some(t) && pid in s.pages && !s.pages[pid].inUse)
  }

  /** At every moment at most one thread may write a page's private fields. */
  lemma MayWriteExclusive(s: State, t: Tid, u: Tid, pid: nat)
    requires Reachable(s) && MayWrite(s, t, pid) && MayWrite(s, u, pid)
    ensures t == u
  {
    hide Rep;
    var v := ReachableRep(s);
    if Authority(s, t, pid) { AuthorityUnique(s, v, t, t, pid); }
    if Authority(s, u, pid) { AuthorityUnique(s, v, u, u, pid); }
    if Authority(s, t, pid) && Authority(s, u, pid) { AuthorityUnique(s, v, t, u, pid); }
  }

  predicate SamePrivate(p: Page, q: Page) { q == p.(threadFree := q.threadFree) }

  /** Any change to a page's private fields, or its disappearance, is the work of the one thread allowed to make it. */
  lemma OnlyOneWriter(s: State, a: Action, pid: nat)
    requires Reachable(s) && Enabled(s, a) && Safe(s, a) && pid in s.pages
    requires pid !in Next(s, a).pages || !SamePrivate(s.pages[pid], Next(s, a).pages[pid])
    ensures MayWrite(s, a.t, pid)
  {
    hide Rep;
    var v := ReachableRep(s);
    if IsPoolReturn(a) {
      PoolReturnWriter(s, a.pid, pid);
    } else {
      PageAfter(s, v, a, pid);
      WriterOf(s, v, a, pid);
    }
  }

  lemma PoolReturnWriter(s: State, q: nat, pid: nat)
    requires q in s.pages && pid in s.pages
    requires pid !in PoolReturn(s, q).pages || PoolReturn(s, q).pages[pid] != s.pages[pid]
    ensures pid == q || !s.pages[pid].inUse
  {
    hide PoolReturn, Surplus;
    if pid in PoolReturn(s, q).pages { PoolReturnEntry(s, q, pid); }
    if pid != q { PoolReturnScope(s, q, pid); }
  }

  lemma PoolReturnEntry(s: State, q: nat, pid: nat)
    requires q in s.pages && pid in PoolReturn(s, q).pages
    ensures pid in s.pages && PoolReturn(s, q).pages[pid] ==
            if pid == q then s.pages[q].(inUse := false, owner := 0, free := 0, blockSize := 0) else s.pages[pid]
  {
    hide Surplus;
  }

  lemma WriterOf(s: State, v: View, a: Action, pid: nat)
    requires Rep(s, v) && Enabled(s, a) && Safe(s, a) && pid in s.pages && !IsPoolReturn(a)
    requires !SamePrivate(s.pages[pid], PageNext(s, a, pid))
    ensures MayWrite(s, a.t, pid)
  {
    hide Rep, RegionBase, PageOf, LargeRegion.AllocLargePlan, Fresh;
    ThreadFacts(s, v, a.t);
  }

  /** A page's stamp goes round: from none to the heap of the thread that takes it, from there to the abandoned tag when
      that thread exits with blocks of the page still out, and from either back to none once nothing is counted. Only
      the lock holder changes it. */
  ghost predicate StampStep(s: State, t: Tid, pg: Page, stamp: nat) {
    && s.lock == Some(t)
    && if stamp == ABANDONED then pg.owner == HeapOf(s, t) != 0 && t in s.exiting && pg.used > 0
       else if stamp == 0 then (pg.owner == HeapOf(s, t) || pg.owner == ABANDONED) && pg.used == 0
       else pg.owner == 0 && stamp == HeapOf(s, t) && t !in s.exiting
  }

  lemma StampCycle(s: State, a: Action, pid: nat)
    requires Reachable(s) && Enabled(s, a) && Safe(s, a) && pid in s.pages && pid in Next(s, a).pages
    requires Next(s, a).pages[pid].owner != s.pages[pid].owner
    ensures StampStep(s, a.t, s.pages[pid], Next(s, a).pages[pid].owner)
  {
    hide Rep, Reachable, PoolReturn, RegionBase, PageOf, Fresh, LargeRegion.AllocLargePlan, Free, Extend, Splice;
    var v := ReachableRep(s);
    PageCounts(s, v, pid);
    OwnerStamp(s, v, a.t);
    if IsPoolReturn(a) {
      PoolReturnEntry(s, a.pid, pid);
    } else {
      PageAfter(s, v, a, pid);
      StampOf(s, a, pid);
    }
  }

  lemma PageCounts(s: State, v: View, pid: nat)
    requires Rep(s, v) && pid in s.pages
    ensures s.pages[pid].used >= 0 && (!s.pages[pid].inUse ==> s.pages[pid].owner == 0)
  {
    assert PageAt(s, v, pid);
  }

  lemma StampOf(s: State, a: Action, pid: nat)
    requires Enabled(s, a) && Safe(s, a) && pid in s.pages && PageNext(s, a, pid).owner != s.pages[pid].owner
    ensures (a.AAcquire? || a.AAbandon?) && a.pid == pid
  {
    hide RegionBase, PageOf, LargeRegion.AllocLargePlan, Fresh;
  }

  /** heap_free takes the local branch exactly for the page's live owner: never for a thread without a heap,
      an abandoned page, or a page of another heap. */
  lemma LocalBranchIffOwner(s: State, t: Tid, p: nat)
    requires Reachable(s) && CanFree(s, t, p) && s.live[p].Small?
    ensures var pid := s.live[p].pid;
            && pid in s.pages && Free(s, t, p) == (if Owns(s, t, pid) then FreeLocal(s, pid, p)
               else FreeRemote(s, t, pid, p))
            && (Owns(s, t, pid) ==> HeapOf(s, t) in s.heaps && s.heaps[HeapOf(s, t)] == t)
            && (HeapOf(s, t) == 0 || s.pages[pid].owner == ABANDONED ==> !Owns(s, t, pid))
  {
    hide Rep, RegionBase, PageOf, PageOk, Held;
    var v := ReachableRep(s);
    RegionOfLive(s, v, p);
    LiveHome(s, v, p);
    NullIsNoOwner(s, v, t, s.live[p].pid);
    OwnerStamp(s, v, t);
    HeapThread(s, v, t);
  }

  lemma HeapThread(s: State, v: View, t: Tid)
    requires Rep(s, v)
    ensures t in s.heapOf ==> s.heapOf[t] in s.heaps && s.heaps[s.heapOf[t]] == t
  {
    assert ThreadHeapOk(s, t);
  }

  // ---------------------------------------------------------------- thread_free is a bag

  /** Links of blocks nobody holds privately survive every step. */
  lemma ListSurvives(s: State, v: View, a: Action, pid: nat, head: nat, l: seq<nat>)
    requires Rep(s, v) && Enabled(s, a) && Safe(s, a) && pid in s.pages && s.pages[pid].inUse && pid in v
    requires IsList(s.mem, head, l)
    requires forall x :: x in l ==> x in Held(v[pid]) && Target(s, a) != Some(x)
    ensures IsList(Next(s, a).mem, head, l)
  {
    hide Rep, Written, IsList, Next, Enabled, Safe, Target;
    forall x | x in l ensures Get(Next(s, a).mem, x) == Get(s.mem, x) {
      BlockSizePositive(s, v, pid);
      HeldNotWritten(s, v, a, pid, x, x);
      WritesOnly(s, v, a, x);
    }
    ListFrame(s.mem, Next(s, a).mem, head, l);
  }

  lemma BlockSizePositive(s: State, v: View, pid: nat)
    requires Rep(s, v) && pid in s.pages && s.pages[pid].inUse
    ensures s.pages[pid].blockSize > 0
  {
    assert PageAt(s, v, pid);
  }

  /** No step targets a block parked on thread_free. */
  lemma ParkedNotTarget(s: State, v: View, a: Action, pid: nat, x: nat)
    requires Rep(s, v) && Enabled(s, a) && pid in s.pages && s.pages[pid].inUse && pid in v && x in v[pid].pushed
    ensures x in Held(v[pid]) && Target(s, a) != Some(x)
  {
    hide Rep, PageOk;
    PageFacts(s, v, pid);
    HeldOnce(pid, s.pages[pid], v[pid], s.mem);
    assert Held(v[pid])[x] <= 1;
    HeldPlace(pid, s.pages[pid], v[pid], s.mem, x);
    if a.AWrite? || a.AFree? {
      NotLive(s, v, pid, x);
    } else if a.ASplice? || a.ALink? {
      TargetHeld(s, v, a);
      var q := PcOf(s, a.t).pid;
      PageFacts(s, v, q);
      HeldPlace(q, s.pages[q], v[q], s.mem, Target(s, a).value);
    }
  }

  predicate Wins(s: State, a: Action, pid: nat) {
    a.ACas? && !a.spurious && var c := PcOf(s, a.t); c.Linked? && c.pid == pid && Pg(s, pid).threadFree == c.head
  }

  /** Under every interleaving, also when the head was collected, reused and pushed again between load and CAS,
      thread_free is a bag: a winning CAS adds exactly its own block, a swap takes everything into the collector's
      list, and no other step changes it. */
  lemma ThreadFreeIsABag(s: State, a: Action, pid: nat) returns (l: seq<nat>)
    requires Reachable(s) && Enabled(s, a) && Safe(s, a) && pid in s.pages && s.pages[pid].inUse
    requires !Recycles(s, Next(s, a), pid)
    ensures IsList(s.mem, s.pages[pid].threadFree, l) && Distinct(l)
    ensures var s' := Next(s, a);
            var head := s'.pages[pid].threadFree;
            if Wins(s, a, pid) then PcOf(s, a.t).b !in l && IsList(s'.mem, head, [PcOf(s, a.t).b] + l)
            else if a.ASwap? && a.pid == pid then
              && IsList(s'.mem, head, [])
              && (l != [] ==> PcOf(s', a.t) == Walking(pid, l[0], l[0], 1, a.sweep) && IsList(s'.mem, l[0], l))
            else IsList(s'.mem, head, l)
  {
    hide Rep, PageOk;
    var v := ReachableRep(s);
    PageFacts(s, v, pid);
    l := v[pid].pushed;
    PushedList(pid, s.pages[pid], v[pid], s.mem);
    ListAcyclic(s.mem, s.pages[pid].threadFree, l);
    BagStep(s, v, a, pid);
  }

  lemma PushedList(pid: nat, pg: Page, pv: PageView, m: Mem)
    requires pg.inUse && PageOk(pid, pg, pv, m)
    ensures IsList(m, pg.threadFree, pv.pushed)
  {
  }

  lemma BagStep(s: State, v: View, a: Action, pid: nat)
    requires Rep(s, v) && Enabled(s, a) && Safe(s, a) && pid in s.pages && s.pages[pid].inUse && pid in v
    requires !Recycles(s, Next(s, a), pid) && IsList(s.mem, s.pages[pid].threadFree, v[pid].pushed)
    ensures var s', l := Next(s, a), v[pid].pushed;
            var head := s'.pages[pid].threadFree;
            if Wins(s, a, pid) then PcOf(s, a.t).b !in l && IsList(s'.mem, head, [PcOf(s, a.t).b] + l)
            else if a.ASwap? && a.pid == pid then
              && IsList(s'.mem, head, [])
              && (l != [] ==> PcOf(s', a.t) == Walking(pid, l[0], l[0], 1, a.sweep) && IsList(s'.mem, l[0], l))
            else IsList(s'.mem, head, l)
  {
    hide Rep, PageOk, IsList, Held;
    var s', l := Next(s, a), v[pid].pushed;
    forall x | x in l ensures x in Held(v[pid]) && Target(s, a) != Some(x) {
      ParkedNotTarget(s, v, a, pid, x);
    }
    ListSurvives(s, v, a, pid, s.pages[pid].threadFree, l);
    if Wins(s, a, pid) {
      WinPushes(s, v, a, pid);
    } else if a.ASwap? && a.pid == pid {
      SwapEmpties(s, v, a, pid);
    } else {
      HeadKept(s, v, a, pid);
    }
  }

  lemma WinPushes(s: State, v: View, a: Action, pid: nat)
    requires Rep(s, v) && Enabled(s, a) && Safe(s, a) && pid in s.pages && s.pages[pid].inUse && pid in v
             && Wins(s, a, pid)
    ensures PcOf(s, a.t).b !in v[pid].pushed
    ensures IsList(Next(s, a).mem, Next(s, a).pages[pid].threadFree, [PcOf(s, a.t).b] + v[pid].pushed)
  {
    hide Rep;
    var b := PcOf(s, a.t).b;
    ThreadFacts(s, v, a.t);
    PageFacts(s, v, pid);
    HeldOnce(pid, s.pages[pid], v[pid], s.mem);
    assert Held(v[pid])[b] <= 1;
    var pv' := CasPage(pid, s.pages[pid], v[pid], s.mem, b);
    PushedList(pid, s.pages[pid].(threadFree := b), pv', s.mem);
  }

  lemma SwapEmpties(s: State, v: View, a: Action, pid: nat)
    requires Rep(s, v) && Enabled(s, a) && Safe(s, a) && pid in s.pages && s.pages[pid].inUse && pid in v && a.ASwap?
             && a.pid == pid
    ensures var s', l := Next(s, a), v[pid].pushed;
            && IsList(s'.mem, s'.pages[pid].threadFree, [])
            && (l != [] ==> PcOf(s', a.t) == Walking(pid, l[0], l[0], 1, a.sweep) && IsList(s'.mem, l[0], l))
  {
    hide Rep;
    PageFacts(s, v, pid);
    PushedList(pid, s.pages[pid], v[pid], s.mem);
    assert v[pid].pushed != [] ==> Link(s.mem, v[pid].pushed, 0);
  }

  lemma HeadKept(s: State, v: View, a: Action, pid: nat)
    requires Rep(s, v) && Enabled(s, a) && Safe(s, a) && pid in s.pages && s.pages[pid].inUse
    requires !Recycles(s, Next(s, a), pid) && !Wins(s, a, pid) && !(a.ASwap? && a.pid == pid)
    ensures Next(s, a).pages[pid].threadFree == s.pages[pid].threadFree
  {
    hide Rep;
    if IsPoolReturn(a) {
      PoolReturnHead(s, a.pid, pid);
    } else {
      PageAfter(s, v, a, pid);
      NextHead(s, a, pid);
    }
  }

  lemma PoolReturnHead(s: State, q: nat, pid: nat)
    requires q in s.pages && pid in s.pages && pid in PoolReturn(s, q).pages
    ensures PoolReturn(s, q).pages[pid].threadFree == s.pages[pid].threadFree
  {
    hide PoolReturn, Surplus;
    PoolReturnEntry(s, q, pid);
  }

  lemma NextHead(s: State, a: Action, pid: nat)
    requires Enabled(s, a) && pid in s.pages && s.pages[pid].inUse && !Wins(s, a, pid) && !(a.ASwap? && a.pid == pid)
    ensures PageNext(s, a, pid).threadFree == s.pages[pid].threadFree
  {
    hide Fresh, RegionBase, PageOf, LargeRegion.AllocLargePlan;
  }

  // ---------------------------------------------------------------- a remote free gets through

  predicate MidPushPc(c: Pc) { c.Freeing? || c.Loaded? || c.Linked? }

  /** The page a thread is pushing onto is mapped and in use. */
  lemma PushPage(s: State, t: Tid)
    requires Reachable(s) && MidPushPc(PcOf(s, t))
    ensures PcOf(s, t).pid in s.pages && s.pages[PcOf(s, t).pid].inUse
  {
    hide Rep;
    var v := ReachableRep(s);
    ThreadFacts(s, v, t);
    PageFacts(s, v, PcOf(s, t).pid);
  }

  /** Thread t is idle, and thread_free of the page spells out b in front of l. */
  ghost predicate PushedOnto(s: State, t: Tid, pid: nat, b: nat, l: seq<nat>) {
    PcOf(s, t) == Idle && pid in s.pages && s.pages[pid].inUse && IsList(s.mem, s.pages[pid].threadFree, [b] + l)
  }

  /** The next link and exchange of t will find the head it has loaded. */
  ghost predicate UpToDate(s: State, t: Tid, pid: nat, b: nat, l: seq<nat>) {
    && pid in s.pages && s.pages[pid].inUse && PcOf(s, t) == Loaded(pid, b, s.pages[pid].threadFree)
    && IsList(s.mem, s.pages[pid].threadFree, l)
  }

  lemma LoadThenUpToDate(s: State, t: Tid, l: seq<nat>)
    requires Reachable(s) && PcOf(s, t).Freeing?
    requires IsList(s.mem, Pg(s, PcOf(s, t).pid).threadFree, l)
    ensures Enabled(s, ALoad(t)) && Safe(s, ALoad(t)) && Reachable(Next(s, ALoad(t)))
    ensures UpToDate(Next(s, ALoad(t)), t, PcOf(s, t).pid, PcOf(s, t).b, l)
  {
    hide Reachable, IsList;
    PushPage(s, t);
    NoWildAccess(s, ALoad(t));
  }

  lemma LinkKeepsHead(s: State, t: Tid, l: seq<nat>)
    requires Reachable(s) && PcOf(s, t).Loaded? && IsList(s.mem, Pg(s, PcOf(s, t).pid).threadFree, l)
    ensures Enabled(s, ALink(t)) && Safe(s, ALink(t)) && Reachable(Next(s, ALink(t)))
    ensures var c, s' := PcOf(s, t), Next(s, ALink(t));
            && PcOf(s', t) == Linked(c.pid, c.b, c.head) && s'.pages == s.pages
            && IsList(s'.mem, Pg(s, c.pid).threadFree, l)
  {
    hide Reachable, IsList, Store;
    PushPage(s, t);
    NoWildAccess(s, ALink(t));
    var m := ThreadFreeIsABag(s, ALink(t), PcOf(s, t).pid);
    ListUnique(s.mem, Pg(s, PcOf(s, t).pid).threadFree, l, m);
  }

  /** An exchange succeeds, and then the block is parked in front of what was there, or it leaves the thread with the
      head as it is now. It succeeds whenever the head is the loaded one and it does not fail spuriously. */
  lemma ExchangeOutcome(s: State, t: Tid, spurious: bool, l: seq<nat>)
    requires Reachable(s) && PcOf(s, t).Linked? && IsList(s.mem, Pg(s, PcOf(s, t).pid).threadFree, l)
    ensures Enabled(s, ACas(t, spurious)) && Safe(s, ACas(t, spurious)) && Reachable(Next(s, ACas(t, spurious)))
    ensures var c, s' := PcOf(s, t), Next(s, ACas(t, spurious));
            if !spurious && Pg(s, c.pid).threadFree == c.head then PushedOnto(s', t, c.pid, c.b, l)
            else UpToDate(s', t, c.pid, c.b, l)
  {
    hide Reachable, IsList;
    PushPage(s, t);
    NoWildAccess(s, ACas(t, spurious));
    var m := ThreadFreeIsABag(s, ACas(t, spurious), PcOf(s, t).pid);
    ListUnique(s.mem, Pg(s, PcOf(s, t).pid).threadFree, l, m);
  }

  lemma LastTwoSteps(s: State, t: Tid, pid: nat, b: nat, l: seq<nat>)
    requires Reachable(s) && UpToDate(s, t, pid, b, l)
    ensures Runs(s, [ALink(t), ACas(t, false)]) && PushedOnto(Exec(s, [ALink(t), ACas(t, false)]), t, pid, b, l)
  {
    hide Reachable, IsList, Enabled, Safe, Next;
    LinkKeepsHead(s, t, l);
    var s1 := Next(s, ALink(t));
    ExchangeOutcome(s1, t, false, l);
    TwoSteps(s, ALink(t), ACas(t, false));
  }

  lemma TwoSteps(s: State, a: Action, b: Action)
    requires Enabled(s, a) && Safe(s, a) && Enabled(Next(s, a), b) && Safe(Next(s, a), b)
    ensures Runs(s, [a, b]) && Exec(s, [a, b]) == Next(Next(s, a), b)
  {
    hide Enabled, Safe, Next;
    assert [b] + [] == [b] && [a] + [b] == [a, b];
    StepThen(Next(s, a), b, []);
    StepThen(s, a, [b]);
  }

  lemma StepThen(s: State, a: Action, acts: seq<Action>)
    requires Enabled(s, a) && Safe(s, a) && Runs(Next(s, a), acts)
    ensures Runs(s, [a] + acts) && Exec(s, [a] + acts) == Exec(Next(s, a), acts)
  {
    hide Enabled, Safe, Next;
    assert ([a] + acts)[1..] == acts;
  }

  /** A failed exchange costs one retry: from a pending exchange the thread, running alone, parks its block with that
      exchange or with one more link and exchange, in front of exactly what was parked before. */
  lemma PushProgress(s: State, t: Tid, l: seq<nat>) returns (acts: seq<Action>)
    requires Reachable(s) && PcOf(s, t).Linked? && IsList(s.mem, Pg(s, PcOf(s, t).pid).threadFree, l)
    ensures acts == [ACas(t, false)] || acts == [ACas(t, false), ALink(t), ACas(t, false)]
    ensures Runs(s, acts) && PushedOnto(Exec(s, acts), t, PcOf(s, t).pid, PcOf(s, t).b, l)
  {
    hide Reachable, IsList, Enabled, Safe, Next, PushedOnto, UpToDate;
    var c, a := PcOf(s, t), ACas(t, false);
    ExchangeOutcome(s, t, false, l);
    if Pg(s, c.pid).threadFree == c.head {
      acts := [a];
      assert [a][1..] == [];
    } else {
      acts := [a, ALink(t), a];
      LastTwoSteps(Next(s, a), t, c.pid, c.b, l);
      StepThen(s, a, [ALink(t), a]);
      assert [a] + [ALink(t), a] == acts;
    }
  }

  /** From wherever a thread is inside a remote free it gets through on its own in at most four steps, three from the
      start. */
  lemma PushFinishes(s: State, t: Tid, l: seq<nat>) returns (acts: seq<Action>)
    requires Reachable(s) && MidPushPc(PcOf(s, t)) && IsList(s.mem, Pg(s, PcOf(s, t).pid).threadFree, l)
    ensures |acts| <= (if PcOf(s, t).Loaded? then 4 else 3) && forall a :: a in acts ==> a.t == t
    ensures Runs(s, acts) && PushedOnto(Exec(s, acts), t, PcOf(s, t).pid, PcOf(s, t).b, l)
  {
    hide Reachable, IsList, Enabled, Safe, Next, PushedOnto, UpToDate;
    var c := PcOf(s, t);
    match c {
      case Freeing(pid, b) =>
        LoadThenUpToDate(s, t, l);
        LastTwoSteps(Next(s, ALoad(t)), t, pid, b, l);
        acts := [ALoad(t)] + [ALink(t), ACas(t, false)];
        StepThen(s, ALoad(t), [ALink(t), ACas(t, false)]);
      case Loaded(pid, b, _) =>
        LinkKeepsHead(s, t, l);
        var rest := PushProgress(Next(s, ALink(t)), t, l);
        acts := [ALink(t)] + rest;
        StepThen(s, ALink(t), rest);
      case Linked(pid, b, _) =>
        acts := PushProgress(s, t, l);
    }
  }

  // ---------------------------------------------------------------- the tail walk terminates

  /** A collector's tail pointer is on its swapped-out list, at the position it has counted, and it stops exactly at the
      end. */
  lemma WalkOnList(s: State, t: Tid) returns (l: seq<nat>)
    requires Reachable(s) && PcOf(s, t).Walking?
    ensures var c := PcOf(s, t);
            && IsList(s.mem, c.list, l) && Distinct(l) && 1 <= c.n <= |l| && l[c.n - 1] == c.tail
            && (c.n == |l| <==> CanSplice(s, t)) && (c.n < |l| <==> CanWalk(s, t))
  {
    hide Rep, PageOk;
    var v := ReachableRep(s);
    ThreadFacts(s, v, t);
    var c := PcOf(s, t);
    PageFacts(s, v, c.pid);
    l := v[c.pid].taken;
    TakenList(c.pid, s.pages[c.pid], v[c.pid], s.mem);
    ListAcyclic(s.mem, c.list, l);
    WalkPage(c.pid, s.pages[c.pid], v[c.pid], s.mem, c.n);
  }

  lemma TakenList(pid: nat, pg: Page, pv: PageView, m: Mem)
    requires pg.inUse && PageOk(pid, pg, pv, m)
    ensures IsList(m, At(pv.taken, 0), pv.taken)
  {
  }

  /** A step of another thread, or a client store or table growth by this one. */
  predicate Outside(a: Action, t: Tid) { a.t != t || a.AWrite? || a.ARegrow? }

  /** No such step disturbs a collection under way. */
  lemma WalkUndisturbed(s: State, a: Action, t: Tid, l: seq<nat>)
    requires Reachable(s) && Enabled(s, a) && Safe(s, a) && Outside(a, t) && PcOf(s, t).Walking?
    requires IsList(s.mem, PcOf(s, t).list, l)
    ensures PcOf(Next(s, a), t) == PcOf(s, t) && IsList(Next(s, a).mem, PcOf(s, t).list, l)
  {
    hide Rep, PageOk, IsList, Held;
    var v := ReachableRep(s);
    ThreadFacts(s, v, t);
    var c := PcOf(s, t);
    PageFacts(s, v, c.pid);
    TakenList(c.pid, s.pages[c.pid], v[c.pid], s.mem);
    ListUnique(s.mem, c.list, l, v[c.pid].taken);
    forall x | x in l ensures x in Held(v[c.pid]) && Target(s, a) != Some(x) {
      TakenNotTarget(s, v, a, t, c.pid, x);
    }
    ListSurvives(s, v, a, c.pid, c.list, l);
    OthersKeepPc(s, a, t);
  }

  /** Thread t has swapped out the list l that starts at `list` and has counted n of its blocks. */
  ghost predicate Collecting(s: State, t: Tid, list: nat, l: seq<nat>, n: nat) {
    var c := PcOf(s, t);
    c.Walking? && c.list == list && c.n == n && IsList(s.mem, list, l)
  }

  /** How often t follows a link during the run. */
  function WalkSteps(acts: seq<Action>, t: Tid): nat {
    if acts == [] then 0 else (if acts[0] == AWalk(t) then 1 else 0) + WalkSteps(acts[1..], t)
  }

  lemma CollectorStep(s: State, a: Action, t: Tid, list: nat, l: seq<nat>, n: nat)
    requires Reachable(s) && Enabled(s, a) && Safe(s, a) && Collecting(s, t, list, l, n) && a != ASplice(t)
    ensures Collecting(Next(s, a), t, list, l, if a == AWalk(t) then n + 1 else n)
  {
    hide Reachable, IsList, LargeRegion.AllocLargePlan, RegionBase, PageOf, Unmapped;
    if Outside(a, t) { WalkUndisturbed(s, a, t, l); }
  }

  /** However the run is interleaved, until the splice the collector keeps its list and has counted one block more for
      every link it followed; it can splice exactly when it has followed as many as were left. */
  lemma {:induction false} WalkCounts(s: State, acts: seq<Action>, t: Tid, list: nat, l: seq<nat>, n: nat)
    requires Reachable(s) && Runs(s, acts) && Collecting(s, t, list, l, n) && ASplice(t) !in acts
    ensures Reachable(Exec(s, acts)) && Collecting(Exec(s, acts), t, list, l, n + WalkSteps(acts, t))
    ensures n + WalkSteps(acts, t) <= |l| && (CanSplice(Exec(s, acts), t) <==> WalkSteps(acts, t) == |l| - n)
    decreases |acts|
  {
    hide Reachable, Enabled, Safe, Next, IsList;
    if acts == [] {
      var m := WalkOnList(s, t);
      ListUnique(s.mem, list, l, m);
    } else {
      var a := acts[0];
      NoWildAccess(s, a);
      CollectorStep(s, a, t, list, l, n);
      WalkCounts(Next(s, a), acts[1..], t, list, l, if a == AWalk(t) then n + 1 else n);
    }
  }

  /** Between swapping out a list of k blocks and splicing it a collector follows exactly k - 1 links, whatever is
      interleaved; so the walk ends, and it never starts over. */
  lemma WalkLength(s: State, t: Tid, pid: nat, sweep: bool, acts: seq<Action>, l: seq<nat>)
    requires Reachable(s) && CanSwap(s, t, pid, sweep) && IsList(s.mem, Pg(s, pid).threadFree, l) && l != []
    requires Safe(s, ASwap(t, pid, sweep)) && Runs(Swap(s, t, pid, sweep), acts) && ASplice(t) !in acts
    ensures WalkSteps(acts, t) <= |l| - 1
    ensures CanSplice(Exec(Swap(s, t, pid, sweep), acts), t) <==> WalkSteps(acts, t) == |l| - 1
  {
    hide Reachable, Runs, Exec;
    NoWildAccess(s, ASwap(t, pid, sweep));
    assert Link(s.mem, l, 0);
    WalkCounts(Swap(s, t, pid, sweep), acts, t, l[0], l, 1);
  }

  lemma OthersKeepPc(s: State, a: Action, t: Tid)
    requires Enabled(s, a) && Safe(s, a) && Outside(a, t)
    ensures PcOf(Next(s, a), t) == PcOf(s, t)
  {
    hide Enabled, Safe, Next;
    if OnBlocks(a) {
      BlocksKeepPc(s, a, t);
    } else {
      PagesKeepPc(s, a, t);
    }
  }

  lemma BlocksKeepPc(s: State, a: Action, t: Tid)
    requires Enabled(s, a) && Safe(s, a) && Outside(a, t) && OnBlocks(a)
    ensures PcOf(Next(s, a), t) == PcOf(s, t)
  {
    hide RegionBase, PageOf, LargeRegion.AllocLargePlan, Fresh, Carve, Store, Clear, Unmapped, Poke, Surplus, Free;
    if a.AFree? { FreeKeepsPc(s, a.t, a.p, t); }
  }

  lemma FreeKeepsPc(s: State, u: Tid, p: nat, t: Tid)
    requires CanFree(s, u, p) && Safe(s, AFree(u, p)) && u != t
    ensures PcOf(Free(s, u, p), t) == PcOf(s, t)
  {
    hide RegionBase, PageOf, Store;
  }

  lemma PagesKeepPc(s: State, a: Action, t: Tid)
    requires Enabled(s, a) && Safe(s, a) && Outside(a, t) && !OnBlocks(a)
    ensures PcOf(Next(s, a), t) == PcOf(s, t)
  {
    hide RegionBase, PageOf, LargeRegion.AllocLargePlan, Fresh, Carve, Store, Clear, Unmapped, Poke, Surplus;
  }

  /** Such a step does not write a block in a swapped-out list. */
  lemma TakenNotTarget(s: State, v: View, a: Action, t: Tid, pid: nat, x: nat)
    requires Rep(s, v) && Enabled(s, a) && Outside(a, t) && Walks(PcOf(s, t), pid) && pid in v && x in v[pid].taken
    ensures x in Held(v[pid]) && Target(s, a) != Some(x)
  {
    hide Rep, PageOk;
    ThreadFacts(s, v, t);
    PageFacts(s, v, pid);
    HeldOnce(pid, s.pages[pid], v[pid], s.mem);
    assert Held(v[pid])[x] <= 1;
    HeldPlace(pid, s.pages[pid], v[pid], s.mem, x);
    if a.AWrite? || a.AFree? {
      NotLive(s, v, pid, x);
    } else if a.ASplice? || a.ALink? {
      TargetHeld(s, v, a);
      ThreadFacts(s, v, a.t);
      var q := PcOf(s, a.t).pid;
      PageFacts(s, v, q);
      HeldPlace(q, s.pages[q], v[q], s.mem, Target(s, a).value);
    }
  }

  // ---------------------------------------------------------------- runs

  lemma {:induction false} RunsAppend(s: State, acts: seq<Action>, a: Action)
    requires Runs(s, acts) && Enabled(Exec(s, acts), a) && Safe(Exec(s, acts), a)
    ensures Runs(s, acts + [a]) && Exec(s, acts + [a]) == Next(Exec(s, acts), a)
    decreases |acts|
  {
    hide Enabled, Safe, Next;
    var more := acts + [a];
    if acts == [] {
      assert more[0] == a && more[1..] == [];
    } else {
      RunsAppend(Next(s, acts[0]), acts[1..], a);
      assert more[0] == acts[0] && more[1..] == acts[1..] + [a];
    }
  }

  /** From a reachable state no enabled step dereferences unmapped memory, and it leads to a reachable state. */
  lemma NoWildAccess(s: State, a: Action)
    requires Reachable(s) && Enabled(s, a)
    ensures Safe(s, a) && Reachable(Next(s, a))
  {
    hide Rep, Enabled, Safe, Next;
    var v := ReachableRep(s);
    var v' := StepKeeps(s, v, a);
    var heapBytes: nat, osPage: nat, acts: seq<Action> :| ReachedBy(s, heapBytes, osPage, acts);
    RunsAppend(Init(heapBytes, osPage), acts, a);
    assert ReachedBy(Next(s, a), heapBytes, osPage, acts + [a]);
  }

  predicate Touches(a: Action, p: nat) { (a.AWrite? || a.AFree?) && a.p == p }

  /** Over any run in which the client neither writes nor frees it, a live block stays live and keeps its contents. */
  lemma {:induction false} ContentsKept(s: State, acts: seq<Action>, p: nat)
    requires Reachable(s) && Runs(s, acts) && p in s.live && (forall a :: a in acts ==> !Touches(a, p))
    ensures Reachable(Exec(s, acts)) && p in Exec(s, acts).live && Exec(s, acts).live[p] == s.live[p]
    ensures forall x: nat :: p <= x < p + s.live[p].usable ==> Get(Exec(s, acts).mem, x) == Get(s.mem, x)
    decreases |acts|
  {
    hide Reachable, Enabled, Safe, Next;
    if acts != [] {
      var a, s1 := acts[0], Next(s, acts[0]);
      assert !Touches(a, p);
      NoWildAccess(s, a);
      StepKeepsBlock(s, a, p);
      ContentsKept(s1, acts[1..], p);
    }
  }

  lemma StepKeepsBlock(s: State, a: Action, p: nat)
    requires Reachable(s) && Enabled(s, a) && Safe(s, a) && p in s.live && !Touches(a, p)
    ensures p in Next(s, a).live && Next(s, a).live[p] == s.live[p]
    ensures forall x: nat :: p <= x < p + s.live[p].usable ==> Get(Next(s, a).mem, x) == Get(s.mem, x)
  {
    hide Reachable, Enabled, Safe, Next;
    LiveRecoverable(s, p);
    LiveBytesUntouched(s, a, p, p);
    forall x: nat | p <= x < p + s.live[p].usable ensures Get(Next(s, a).mem, x) == Get(s.mem, x) {
      LiveBytesUntouched(s, a, p, x);
    }
  }

  // ---------------------------------------------------------------- registry, bytes, idle segments

  /** The registry's set is exactly the bases of mapped small segments and published large regions; so it contains
      the region base of every live pointer and nothing that hmalloc has not mapped. */
  lemma RegistryExact(s: State, x: nat)
    requires Reachable(s)
    ensures x in s.registered <==>
            (x % SEGMENT_SIZE == 0 && x / SEGMENT_SIZE in s.segs) || (x in s.large && s.large[x].state == Published)
    ensures x in s.live ==> RegionBase(x) in s.registered
  {
    hide Rep, RegionBase, PageOk, Held;
    var v := ReachableRep(s);
    RegistryFact(s, v, x);
    if x in s.live {
      RegionOfLive(s, v, x);
      LiveHome(s, v, x);
      if s.live[x].Small? { PagePositive(s, v, s.live[x].pid); }
      RegistryFact(s, v, RegionBase(x));
    }
  }

  lemma RegistryFact(s: State, v: View, x: nat)
    requires Rep(s, v)
    ensures x in s.registered <==> IsSegmentBase(s, x) || (x in s.large && s.large[x].state == Published)
  {
    assert Listed(s, x);
  }

  /** Bytes accounted as mapped are exactly the segments, large regions, heaps and registry table, and the table is the
      least whole number of OS pages that holds its slots. */
  lemma BytesConserved(s: State) returns (table: nat)
    requires Reachable(s)
    ensures s.bytesMapped == SEGMENT_SIZE * |s.segs| + SumSizes(s.large, s.large.Keys) + s.heapBytes * |s.heaps| + table
    ensures s.osPage > 0 && table % s.osPage == 0
            && s.tableCap * SLOT_BYTES <= table < s.tableCap * SLOT_BYTES + s.osPage
  {
    hide SlotsBytes;
    var v := ReachableRep(s);
    table := TableBytes(s, s.tableCap);
    SlotsBytesMeaning(s.tableCap, s.osPage);
  }

  /** The largest number of bases registered at any moment of the run. */
  function MostRegistered(s: State, acts: seq<Action>): nat
    requires Runs(s, acts)
    decreases |acts|
  {
    var rest := if acts == [] then 0 else MostRegistered(Next(s, acts[0]), acts[1..]);
    if |s.registered| > rest then |s.registered| else rest
  }

  lemma TableStep(s: State, a: Action)
    requires Enabled(s, a) && Safe(s, a)
    ensures a.ARegrow? || Next(s, a).tableCap == s.tableCap
    ensures Next(s, a).tableCap <= s.tableCap || Next(s, a).tableCap <= INITIAL_CAP
            || Next(s, a).tableCap <= 4 * |s.registered|
  {
    hide LargeRegion.AllocLargePlan, RegionBase, PageOf, Unmapped, Fresh, Carve, Clear, Poke, Store, Surplus,
         TableBytes;
  }

  /** Over every run the registry's table has at most 1024 slots, or four for each base of the most that were ever
      registered at once, unless it was larger before: churn alone does not make it grow. */
  lemma {:induction false} TableFollowsRegistry(s: State, acts: seq<Action>)
    requires Runs(s, acts)
    ensures var cap := Exec(s, acts).tableCap;
            cap <= s.tableCap || cap <= INITIAL_CAP || cap <= 4 * MostRegistered(s, acts)
    decreases |acts|
  {
    hide Enabled, Safe, Next;
    if acts != [] {
      TableStep(s, acts[0]);
      TableFollowsRegistry(Next(s, acts[0]), acts[1..]);
    }
  }

  /** At most SEGMENT_CACHE = 1 segment is entirely free. */
  lemma AtMostOneIdle(s: State, a: nat, b: nat)
    requires Reachable(s) && a in s.segs && b in s.segs && FullyFree(s.pages, a) && FullyFree(s.pages, b)
    ensures a == b
  {
    var v := ReachableRep(s);
    assert OneIdle(s, a, b);
  }

  /** Once no block of a page is live and no thread is inside an operation on it, everything `used` still counts is
      parked on thread_free: one collection brings it to zero. */
  lemma QuietPageDrains(s: State, pid: nat) returns (l: seq<nat>)
    requires Reachable(s) && pid in s.pages && s.pages[pid].inUse
    requires forall p :: p in s.live ==> PageOf(p) != pid
    requires forall t: Tid :: !OnPage(PcOf(s, t), pid)
    ensures IsList(s.mem, s.pages[pid].threadFree, l) && s.pages[pid].used == |l|
  {
    hide Rep, PageOf;
    var v := ReachableRep(s);
    PageFacts(s, v, pid);
    l := v[pid].pushed;
    NothingHeld(s, v, pid);
  }

  lemma NothingHeld(s: State, v: View, pid: nat)
    requires Rep(s, v) && pid in s.pages && pid in v
    requires forall p :: p in s.live ==> PageOf(p) != pid
    requires forall t: Tid :: !OnPage(PcOf(s, t), pid)
    ensures v[pid].live == {} && v[pid].flight == map[] && v[pid].taken == []
  {
    hide PageOf;
    assert HoldersOk(s, v, pid);
    forall p ensures p !in v[pid].live {
      if p in v[pid].live {
        assert LiveBlockOk(s, pid, p);
        RegionOfLive(s, v, p);
      }
    }
    assert forall b :: b in v[pid].flight ==> OnPage(PcOf(s, v[pid].flight[b]), pid);
  }
}
