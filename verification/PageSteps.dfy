/**
 One page at a time: each way blocks move between the client, a remote freer, thread_free, a
 collector and the local free list keeps the page's part of the invariant.
 */
module PageSteps {
  import opened Layout
  import opened Memory
  import opened Blocks
  import opened Machine
  import opened Invariant

  /** Each block is held in one place only. */
  lemma HeldOnce(pid: nat, pg: Page, pv: PageView, m: Mem)
    requires pg.inUse && PageOk(pid, pg, pv, m)
    ensures forall x :: Held(pv)[x] <= 1
  {
    BlocksDistinct(Area(pid), pg.blockSize, pg.reserved);
    forall x ensures Held(pv)[x] <= 1 {
      DistinctOnce(Carved(pid, pg), x);
    }
  }

  /** It lies inside the page's area, 16-byte aligned. */
  lemma HeldPlace(pid: nat, pg: Page, pv: PageView, m: Mem, x: nat)
    requires pid > 0 && pg.inUse && PageOk(pid, pg, pv, m) && x in Held(pv)
    ensures BlockOf(pid, pg.blockSize, x)
  {
    assert x in multiset(Carved(pid, pg));
    BlockPlace(pid, pg.blockSize, pg.reserved, x);
  }

  lemma StoreElsewhere(m: Mem, b: nat, v: nat, x: nat)
    requires b % ALLOC_ALIGN == 0 && x % ALLOC_ALIGN == 0 && x != b
    ensures Get(Store(m, b, v), x) == Get(m, x)
  {
  }

  /** Writing one block's link leaves every other block's link alone. */
  lemma StoreBlock(pid: nat, pg: Page, pv: PageView, m: Mem, b: nat, v: nat)
    requires pid > 0 && pg.inUse && PageOk(pid, pg, pv, m) && b in Held(pv)
    ensures b / PAGE_SIZE == pid && b > 0 && Area(pid) <= b && b + LINK_BYTES <= Area(pid) + PAGE_SIZE
    ensures forall x :: x in Held(pv) && x != b ==> Get(Store(m, b, v), x) == Get(m, x)
  {
    HeldPlace(pid, pg, pv, m, b);
    forall x | x in Held(pv) && x != b ensures Get(Store(m, b, v), x) == Get(m, x) {
      HeldPlace(pid, pg, pv, m, x);
      StoreElsewhere(m, b, v, x);
    }
  }

  predicate BlockOf(pid: nat, size: nat, x: nat) {
    && Area(pid) <= x && x + size <= Area(pid) + PAGE_SIZE
    && x % ALLOC_ALIGN == 0 && x / PAGE_SIZE == pid && x > 0
  }

  lemma HeadFirst(s: seq<nat>)
    requires s != []
    ensures multiset(s) == multiset{s[0]} + multiset(s[1..])
  {
    assert s == [s[0]] + s[1..];
  }

  lemma AddOne(s: set<nat>, b: nat)
    requires b !in s
    ensures multiset(s + {b}) == multiset(s) + multiset{b} && |s + {b}| == |s| + 1
  {
  }

  lemma DropOne(s: set<nat>, b: nat)
    requires b in s
    ensures multiset(s) == multiset(s - {b}) + multiset{b} && |s| == |s - {b}| + 1
  {
  }

  lemma ListsFrame(m: Mem, m': Mem, pg: Page, pv: PageView)
    requires ListsOk(m, pg, pv)
    requires forall x :: x in pv.free || x in pv.pushed || x in pv.taken ==> Get(m', x) == Get(m, x)
    ensures ListsOk(m', pg, pv)
  {
    ListFrame(m, m', pg.free, pv.free);
    ListFrame(m, m', pg.threadFree, pv.pushed);
    ListFrame(m, m', At(pv.taken, 0), pv.taken);
  }

  lemma PopPage(pid: nat, pg: Page, pv: PageView, m: Mem) returns (pv': PageView)
    requires pid > 0 && pg.inUse && PageOk(pid, pg, pv, m) && pg.free != 0
    ensures pv.free != [] && pv.free[0] == pg.free && pg.free in Held(pv) && pg.free !in pv.live
    ensures pv' == pv.(live := pv.live + {pg.free}, free := pv.free[1..])
    ensures PageOk(pid, pg.(free := Get(m, pg.free), used := pg.used + 1), pv', m)
  {
    var b := pg.free;
    ListPop(m, pg.free, pv.free);
    pv' := pv.(live := pv.live + {b}, free := pv.free[1..]);
    HeldOnce(pid, pg, pv, m);
    HeadFirst(pv.free);
    assert Held(pv)[b] <= 1;
    AddOne(pv.live, b);
  }

  /** The page was extended by 8 KiB worth of blocks. */
  predicate CarvedBatch(pg: Page, pg': Page) {
    && pg.reserved <= pg'.reserved <= pg'.capacity == pg.capacity
    && EightKiB(pg'.reserved - pg.reserved, pg.blockSize, pg.capacity - pg.reserved)
  }

  /** The page after page_extend. */
  function Extended(pid: nat, pg: Page): Page {
    pg.(free := At(Fresh(pid, pg) + [pg.free], 0), reserved := pg.reserved + |Fresh(pid, pg)|)
  }

  lemma ExtendPage(pid: nat, pg: Page, pv: PageView, m: Mem) returns (pv': PageView)
    requires pid > 0 && pg.inUse && PageOk(pid, pg, pv, m) && pg.reserved < pg.capacity
    ensures pv' == pv.(free := Fresh(pid, pg) + pv.free)
    ensures PageOk(pid, Extended(pid, pg), pv', Carve(m, Fresh(pid, pg), pg.free))
    ensures OutsideSame(m, Carve(m, Fresh(pid, pg), pg.free), pid)
            && HeldSame(m, Carve(m, Fresh(pid, pg), pg.free), pv, pg.blockSize)
    ensures RangeSame(m, Carve(m, Fresh(pid, pg), pg.free), Area(pid) + pg.reserved * pg.blockSize,
            Area(pid) + PAGE_SIZE)
  {
    var blocks := Fresh(pid, pg);
    pv' := pv.(free := blocks + pv.free);
    var lo := FreshFacts(pid, pg);
    forall x | x in Held(pv) ensures x + pg.blockSize <= lo && x % ALLOC_ALIGN == 0 {
      assert x in multiset(Carved(pid, pg));
      CarvedBelow(pid, pg, x);
      HeldPlace(pid, pg, pv, m, x);
    }
    assert multiset(pv.free) <= Held(pv);
    FreshApart(pid, pg, pv.free);
    ExtendLists(pid, pg, pv, m, blocks, lo);
    ExtendHeld(pv, blocks, Carved(pid, pg), Carved(pid, Extended(pid, pg)));
  }

  /** Memory outside the page's area is untouched. */
  ghost predicate OutsideSame(m: Mem, m': Mem, pid: nat) {
    forall a: nat :: a < Area(pid) || Area(pid) + PAGE_SIZE <= a ==> Get(m', a) == Get(m, a)
  }

  /** Memory outside [lo, hi) is untouched. */
  ghost predicate RangeSame(m: Mem, m': Mem, lo: nat, hi: nat) {
    forall a: nat :: a < lo || hi <= a ==> Get(m', a) == Get(m, a)
  }

  /** The bytes of every block counted in the view are untouched. */
  ghost predicate HeldSame(m: Mem, m': Mem, pv: PageView, size: nat) {
    forall x, a: nat :: x in Held(pv) && x <= a < x + size ==> Get(m', a) == Get(m, a)
  }

  lemma ExtendHeld(pv: PageView, blocks: seq<nat>, before: seq<nat>, after: seq<nat>)
    requires Held(pv) == multiset(before) && after == before + blocks
    ensures Held(pv.(free := blocks + pv.free)) == multiset(after)
  {
  }

  lemma ExtendLists(pid: nat, pg: Page, pv: PageView, m: Mem, blocks: seq<nat>, lo: nat)
    requires ListsOk(m, pg, pv) && Distinct(blocks + pv.free) && 0 < Area(pid) <= lo && pg.blockSize > 0
    requires forall x :: x in Held(pv) ==> x + pg.blockSize <= lo && x % ALLOC_ALIGN == 0
    requires forall x :: x in blocks ==> lo <= x && x + LINK_BYTES <= Area(pid) + PAGE_SIZE && x % ALLOC_ALIGN == 0
    ensures ListsOk(Carve(m, blocks, pg.free), pg.(free := At(blocks + [pg.free], 0)), pv.(free := blocks + pv.free))
    ensures OutsideSame(m, Carve(m, blocks, pg.free), pid) && HeldSame(m, Carve(m, blocks, pg.free), pv, pg.blockSize)
    ensures RangeSame(m, Carve(m, blocks, pg.free), lo, Area(pid) + PAGE_SIZE)
  {
    var m' := Carve(m, blocks, pg.free);
    forall x | x in pv.free ensures x % ALLOC_ALIGN == 0 {
      assert x in Held(pv);
    }
    CarveMeaning(m, blocks, pg.free, pv.free, lo, Area(pid) + PAGE_SIZE);
    forall x | x in pv.pushed || x in pv.taken ensures Get(m', x) == Get(m, x) {
      assert x in Held(pv);
    }
    ListFrame(m, m', pg.threadFree, pv.pushed);
    ListFrame(m, m', At(pv.taken, 0), pv.taken);
  }

  lemma FreshFacts(pid: nat, pg: Page) returns (lo: nat)
    requires pid > 0 && Shape(pg)
    ensures lo == Area(pid) + pg.reserved * pg.blockSize && 0 < Area(pid) <= lo
    ensures pg.reserved + |Fresh(pid, pg)| <= pg.capacity
    ensures Carved(pid, Extended(pid, pg)) == Carved(pid, pg) + Fresh(pid, pg)
    ensures forall x :: x in Fresh(pid, pg) ==>
            lo <= x && x + LINK_BYTES <= Area(pid) + PAGE_SIZE && x % ALLOC_ALIGN == 0
  {
    lo := Area(pid) + pg.reserved * pg.blockSize;
    FreshPlace(pid, pg);
    BlocksSplit(Area(pid), pg.blockSize, pg.reserved, |Fresh(pid, pg)|);
  }

  /** Fresh blocks lie between the carved ones and the end of the page. */
  lemma FreshPlace(pid: nat, pg: Page)
    requires pid > 0 && Shape(pg)
    ensures var lo := Area(pid) + pg.reserved * pg.blockSize;
            0 < lo && forall x :: x in Fresh(pid, pg) ==>
                lo <= x && x + LINK_BYTES <= Area(pid) + PAGE_SIZE && x % ALLOC_ALIGN == 0
  {
    var n, k := pg.reserved, |Fresh(pid, pg)|;
    BlocksSplit(Area(pid), pg.blockSize, n, k);
    forall x | x in Fresh(pid, pg) ensures Area(pid) + n * pg.blockSize <= x && x + LINK_BYTES <= Area(pid) + PAGE_SIZE
      && x % ALLOC_ALIGN == 0 {
      assert x in BlockSeq(Area(pid), pg.blockSize, n + k);
      BlockPlace(pid, pg.blockSize, n + k, x);
      var i: nat :| i < k && Fresh(pid, pg)[i] == x;
      MulLe(0, i, pg.blockSize);
    }
  }

  lemma CarvedBelow(pid: nat, pg: Page, x: nat)
    requires Shape(pg) && x in Carved(pid, pg)
    ensures x + pg.blockSize <= Area(pid) + pg.reserved * pg.blockSize
  {
    var i: nat :| i < pg.reserved && Carved(pid, pg)[i] == x;
    DistributeRight(i, 1, pg.blockSize);
    MulLe(i + 1, pg.reserved, pg.blockSize);
  }

  lemma FreshApart(pid: nat, pg: Page, free: seq<nat>)
    requires pid > 0 && Shape(pg)
    requires multiset(free) <= multiset(Carved(pid, pg))
    ensures Distinct(Fresh(pid, pg) + free)
  {
    var n, k := pg.reserved, |Fresh(pid, pg)|;
    var all := BlockSeq(Area(pid), pg.blockSize, n + k);
    BlocksSplit(Area(pid), pg.blockSize, n, k);
    BlocksDistinct(Area(pid), pg.blockSize, n + k);
    assert multiset(Fresh(pid, pg) + free) <= multiset(all);
    SubDistinct(Fresh(pid, pg) + free, all);
  }

  /** A sequence contained with multiplicity in a distinct one is distinct. */
  lemma SubDistinct(s: seq<nat>, all: seq<nat>)
    requires Distinct(all) && multiset(s) <= multiset(all)
    ensures Distinct(s)
  {
    forall i, j | 0 <= i < j < |s| ensures s[i] != s[j] {
      DistinctOnce(all, s[i]);
      if s[i] == s[j] { Twice(s, i, j); }
    }
  }

  lemma Twice(s: seq<nat>, i: nat, j: nat)
    requires i < j < |s| && s[i] == s[j]
    ensures multiset(s)[s[i]] >= 2
  {
    assert s == s[..j] + [s[j]] + s[j + 1..];
    assert s[i] in s[..j];
  }

  /** Owner or sweeper swaps thread_free out. */
  lemma SwapPage(pid: nat, pg: Page, pv: PageView, m: Mem, t: Tid) returns (pv': PageView)
    requires pg.inUse && PageOk(pid, pg, pv, m) && pv.taken == []
    ensures pg.threadFree == At(pv.pushed, 0) && (pg.threadFree == 0 <==> pv.pushed == [])
    ensures pv' == pv.(pushed := [], taken := pv.pushed, walker := if pv.pushed == [] then pv.walker else Some(t))
    ensures PageOk(pid, pg.(threadFree := 0), pv', m)
  {
    pv' := pv.(pushed := [], taken := pv.pushed, walker := if pv.pushed == [] then pv.walker else Some(t));
    assert pv.pushed != [] ==> Link(m, pv.pushed, 0);
  }

  lemma SplicePage(pid: nat, pg: Page, pv: PageView, m: Mem, n: nat) returns (pv': PageView)
    requires pid > 0 && pg.inUse && PageOk(pid, pg, pv, m)
    requires 1 <= n <= |pv.taken| && Get(m, pv.taken[n - 1]) == 0
    ensures n == |pv.taken| <= pg.used
    ensures pv' == pv.(taken := [], free := pv.taken + pv.free, walker := None)
    ensures PageOk(pid, pg.(free := pv.taken[0], used := pg.used - n), pv', Store(m, pv.taken[n - 1], pg.free))
    ensures forall x :: x in Held(pv) && x != pv.taken[n - 1] ==> Get(Store(m, pv.taken[n - 1], pg.free), x) == Get(m,
            x)
  {
    var tail := pv.taken[n - 1];
    var m' := Store(m, tail, pg.free);
    pv' := pv.(taken := [], free := pv.taken + pv.free, walker := None);
    assert Link(m, pv.taken, n - 1);
    assert n < |pv.taken| ==> Link(m, pv.taken, n);
    assert Held(pv') == Held(pv);
    SpliceLists(pid, pg, pv, m);
  }

  lemma SpliceLists(pid: nat, pg: Page, pv: PageView, m: Mem)
    requires pid > 0 && pg.inUse && PageOk(pid, pg, pv, m) && pv.taken != []
    ensures var tail := pv.taken[|pv.taken| - 1];
            var m' := Store(m, tail, pg.free);
            && IsList(m', pv.taken[0], pv.taken + pv.free) && IsList(m', pg.threadFree, pv.pushed)
            && forall x :: x in Held(pv) && x != tail ==> Get(m', x) == Get(m, x)
  {
    var k := |pv.taken| - 1;
    var tail := pv.taken[k];
    var m' := Store(m, tail, pg.free);
    assert tail in Held(pv);
    StoreBlock(pid, pg, pv, m, tail, pg.free);
    HeldOnce(pid, pg, pv, m);
    ListAcyclic(m, pv.taken[0], pv.taken);
    forall x | x in pv.free || x in pv.pushed ensures x != tail && x in Held(pv) {
      assert Held(pv)[x] <= 1;
    }
    forall i: nat | i < k ensures Get(m', pv.taken[i]) == Get(m, pv.taken[i]) {
      assert pv.taken[i] in Held(pv);
    }
    ListJoin(m, m', pv.taken[0], pv.taken, pg.free, pv.free);
    ListFrame(m, m', pg.threadFree, pv.pushed);
  }

  lemma FreeLocalPage(pid: nat, pg: Page, pv: PageView, m: Mem, p: nat) returns (pv': PageView)
    requires pid > 0 && pg.inUse && PageOk(pid, pg, pv, m) && p in pv.live
    ensures pg.used >= 1
    ensures pv' == pv.(live := pv.live - {p}, free := [p] + pv.free)
    ensures PageOk(pid, pg.(free := p, used := pg.used - 1), pv', Store(m, p, pg.free))
    ensures forall x :: x in Held(pv) && x != p ==> Get(Store(m, p, pg.free), x) == Get(m, x)
  {
    var m' := Store(m, p, pg.free);
    pv' := pv.(live := pv.live - {p}, free := [p] + pv.free);
    assert p in Held(pv);
    LinkLists(pid, pg, pv, m, p, pg.free);
    DropOne(pv.live, p);
    ListPush(m', p, pg.free, pv.free);
  }

  lemma FreeRemotePage(pid: nat, pg: Page, pv: PageView, m: Mem, p: nat, t: Tid) returns (pv': PageView)
    requires pid > 0 && pg.inUse && PageOk(pid, pg, pv, m) && p in pv.live
    ensures p !in pv.flight && pv' == pv.(live := pv.live - {p}, flight := pv.flight[p := t])
    ensures PageOk(pid, pg, pv', m)
  {
    pv' := pv.(live := pv.live - {p}, flight := pv.flight[p := t]);
    HeldOnce(pid, pg, pv, m);
    DropOne(pv.live, p);
    assert pv'.flight.Keys == pv.flight.Keys + {p};
    assert Held(pv)[p] <= 1;
    AddOne(pv.flight.Keys, p);
  }

  /** Writing the link of a block on no list of the page disturbs none of the lists. */
  lemma LinkLists(pid: nat, pg: Page, pv: PageView, m: Mem, b: nat, v: nat)
    requires pid > 0 && pg.inUse && PageOk(pid, pg, pv, m) && (b in pv.live || b in pv.flight)
    ensures ListsOk(Store(m, b, v), pg, pv) && b > 0 && b / PAGE_SIZE == pid
    ensures Area(pid) <= b && b + LINK_BYTES <= Area(pid) + PAGE_SIZE
    ensures forall x :: x in Held(pv) && x != b ==> Get(Store(m, b, v), x) == Get(m, x)
  {
    var m' := Store(m, b, v);
    StoreBlock(pid, pg, pv, m, b, v);
    HeldOnce(pid, pg, pv, m);
    forall x | x in pv.free || x in pv.pushed || x in pv.taken ensures Get(m', x) == Get(m, x) {
      assert Held(pv)[b] <= 1;
      assert x in Held(pv) && x != b;
    }
    ListsFrame(m, m', pg, pv);
  }

  /** A successful CAS: the stale head is current again by value, and that is all the push needs. */
  lemma CasPage(pid: nat, pg: Page, pv: PageView, m: Mem, b: nat) returns (pv': PageView)
    requires pid > 0 && pg.inUse && PageOk(pid, pg, pv, m) && b in pv.flight && Get(m, b) == pg.threadFree
    ensures pv' == pv.(flight := pv.flight - {b}, pushed := [b] + pv.pushed)
    ensures PageOk(pid, pg.(threadFree := b), pv', m)
  {
    pv' := pv.(flight := pv.flight - {b}, pushed := [b] + pv.pushed);
    HeldOnce(pid, pg, pv, m);
    assert b in Held(pv);
    HeldPlace(pid, pg, pv, m, b);
    ListPush(m, b, pg.threadFree, pv.pushed);
    assert pv'.flight.Keys == pv.flight.Keys - {b};
    DropOne(pv.flight.Keys, b);
  }
}
