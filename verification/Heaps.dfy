/**
 A thread's heap: for every size class a doubly-linked list of the pages this heap owns, the active one first. The list
 links live in the page headers, so a page can be followed only while its segment is mapped.
 */
module Heaps {
  import opened Layout
  import opened Memory
  import opened Blocks
  import opened Lists
  import opened Machine
  import Invariant
  import PageSteps
  import opened PageHeaders
  import opened Books
  import opened BookSteps
  import opened CentralSpec
  import opened Central
  import opened SizeClasses
  import opened HeapSpec

  class ThreadHeap {
    const id: nat
    const central: CentralHeap
    const table: Table
    const heads: array<nat>
    ghost var lists: seq<seq<nat>>

    ghost function View(): HeapView
      reads this, heads, central, central.pages
    {
      HeapView(central.g, central.pages.prev, heads[..], lists)
    }

    /** The heap is in order, except that x may have no block out although it is not active. */
    ghost predicate Sound(x: nat)
      reads this, heads, central, central.pages
    {
      id != 0 && id != ABANDONED && Good(table, SMALL_SIZE_MAX) && central.Valid() && Orderly(View(), id, table.size, x)
    }

    ghost predicate Valid()
      reads this, heads, central, central.pages
    {
      Sound(0)
    }

    /** heap_create: every slot holds the empty page; no page can yet be stamped with the new heap's address. */
    constructor (address: nat, c: CentralHeap, t: Table)
      requires address != 0 && address != ABANDONED && Good(t, SMALL_SIZE_MAX) && c.Valid()
      requires forall q: nat :: !OwnedBy(c.g, address, q)
      ensures Valid() && id == address && central == c && table == t && fresh(heads) && forall l :: l in lists ==>
              l == []
    {
      id, central, table := address, c, t;
      heads := new nat[|t.size|](_ => EMPTY);
      lists := seq(|t.size|, _ => []);
      new;
      forall k: nat | k < |lists| ensures ClassAt(View(), id, table.size, k, 0) {}
    }

    /** p, unless it is the active page of class c. */
    ghost function Behind(c: nat, p: nat): nat
      reads heads
    {
      if c < heads.Length && heads[c] == p then 0 else p
    }

    /** The owner moved blocks on page p of class c; the central books take note. */
    method Settle(ghost c: nat, p: nat, ghost y: nat)
      requires id != 0 && id != ABANDONED && Good(table, SMALL_SIZE_MAX) && Orderly(View(), id, table.size, 0)
      requires Ok(central.g, 0) && central.g.freeSegments <= SEGMENT_CACHE && central.pages.Valid()
      requires c < |lists| && p in lists[c] && p in central.g.hdr && p in central.pages.hdr
      requires central.pages.hdr == central.g.hdr[p := central.pages.hdr[p]] && central.pages.next == central.g.next
      requires SameOwnership(central.g.hdr[p], central.pages.hdr[p])
      requires y == p || (y == 0 && (central.pages.hdr[p].used > 0 || heads[c] == p))
      modifies central
      ensures Sound(y) && Reheaded(old(View()), View()) && central.g.hdr == central.pages.hdr
      ensures unchanged(central.pages) && central.pages.All() == old(central.pages.All())
    {
      hide Ok, Orderly, Good;
      OrderlyShape(View(), id, table.size, 0);
      StepPage(View(), central.pages.hdr[p], id, table.size, c, p, y);
      central.Note();
    }

    lemma Parts()
      requires Sound(0)
      ensures id != 0 && id != ABANDONED && Good(table, SMALL_SIZE_MAX) && Orderly(View(), id, table.size, 0)
      ensures Ok(central.g, 0) && central.g.freeSegments <= SEGMENT_CACHE && central.pages.Valid()
      ensures central.g.hdr == central.pages.hdr && central.g.next == central.pages.next
              && |heads[..]| == |lists| == |table.size|
    {
      OrderlyShape(View(), id, table.size, 0);
    }

    /** page_pop from the active page. */
    method Take(c: nat, p: nat) returns (blk: nat)
      requires Sound(0) && c < |lists| && p in lists[c] && p == heads[c] && central.pages.FreeOf(p) != []
      modifies central, central.pages`hdr, central.pages`free
      ensures Sound(0) && OnlyAt(old(central.pages.All()), central.pages.All(), p)
      ensures Pops(p, old(central.pages.All())[p], central.pages.All()[p], blk) && Reheaded(old(View()), View())
      ensures unchanged(central.pages`mem)
    {
      hide ThreadHeap.Sound, CentralHeap.Valid, Ok, Orderly, Good, OnlyAt, Pops, Reheaded, Headers.Valid, Mine;
      ghost var v := View();
      Parts();
      Member(c, p, 0);
      blk := central.pages.Hand(p);
      assert View() == v;
      Settle(c, p, 0);
    }

    /** Heap, pages and block memory are as given. */
    ghost predicate Untouched(v: HeapView, s: Snaps, m: Mem)
      reads this, heads, central, central.pages
    {
      View() == v && central.pages.All() == s && central.pages.mem == m
    }

    twostate lemma StaysPut()
      requires old(Sound(0)) && unchanged(this) && unchanged(heads) && unchanged(central) && unchanged(central.pages)
      ensures Sound(0) && Untouched(old(View()), old(central.pages.All()), old(central.pages.mem))
    {
      hide ThreadHeap.Sound, Headers.Snap;
    }

    /** page_make_available on a page of class c. */
    method MakeReady(c: nat, p: nat) returns (ok: bool)
      requires Sound(0) && c < |lists| && p in lists[c]
      modifies central, central.pages`hdr, central.pages`mem, central.pages`free, central.pages`parked
      ensures ok <==> !Spent(old(central.pages.All())[p])
      ensures ok ==> Sound(Behind(c, p)) && OnlyAt(old(central.pages.All()), central.pages.All(), p)
      ensures ok ==> central.pages.FreeOf(p) != [] && Readies(p, old(central.pages.All())[p], central.pages.All()[p])
      ensures ok ==> Reheaded(old(View()), View())
      ensures HasFree(old(central.pages.All())[p]) ==> central.pages.mem == old(central.pages.mem)
      ensures p in central.g.hdr && central.g.hdr == old(central.g.hdr)[p := central.g.hdr[p]]
      ensures !ok ==> Sound(0) && Untouched(old(View()), old(central.pages.All()), old(central.pages.mem))
                      && central.g.hdr[p].used > 0
    {
      hide ThreadHeap.Sound, CentralHeap.Valid, Ok, Orderly, Good, OnlyAt, Readies, Reheaded, Spent, HasFree,
           Headers.Snap, Headers.Valid, Mine,
           ThreadHeap.Untouched;
      ghost var v := View();
      Parts();
      Member(c, p, 0);
      ok := central.pages.Ready(p);
      if !ok {
        StaysPut();
        return;
      }
      assert View() == v;
      Settle(c, p, Behind(c, p));
    }

    /** The link updates of heap_rotate_to_front. */
    method MoveLinks(head: nat, p: nat, ghost l: seq<nat>, ghost i: nat)
      requires central.pages.Valid() && DList(central.pages.next, central.pages.prev, head, l) && 0 < i < |l|
               && l[i] == p
      requires forall q :: q in l ==> q in central.pages.hdr
      modifies central.pages`next, central.pages`prev
      ensures central.pages.next == RotNext(old(central.pages.next), old(central.pages.prev), head, p)
      ensures central.pages.prev == RotPrev(old(central.pages.next), old(central.pages.prev), head, p)
      ensures central.pages.Valid()
    {
      hide DList;
      var pages := central.pages;
      Neighbours(pages.next, pages.prev, head, l, i);
      Neighbours(pages.next, pages.prev, head, l, 0);
      assert pages.PageAt(p) && pages.PageAt(pages.prev[p]) && pages.PageAt(pages.next[p]) && pages.PageAt(head);
      var before, after := pages.prev[p], pages.next[p];
      if before != 0 { pages.next := pages.next[before := after]; }
      if after != 0 { pages.prev := pages.prev[after := before]; }
      pages.prev := pages.prev[p := 0];
      pages.next := pages.next[p := head];
      if head != 0 { pages.prev := pages.prev[head := p]; }
      forall q: nat ensures pages.PageAt(q) { assert old(pages.PageAt(q)); }
    }

    /** Relinking the pages of l leaves all blocks where they are. */
    twostate lemma LinksOnly(l: seq<nat>)
      requires unchanged(central.pages`hdr) && unchanged(central.pages`free) && unchanged(central.pages`parked)
      requires forall q: nat :: q !in l ==> Get(central.pages.next, q) == Get(old(central.pages.next), q)
      requires forall q: nat :: q !in l ==> Get(central.pages.prev, q) == Get(old(central.pages.prev), q)
      ensures Undisturbed(old(central.pages.All()), central.pages.All(), l, {})
    {
    }

    /** heap_rotate_to_front for a page that is not in front already. */
    method Turn(c: nat, p: nat, ghost i: nat)
      requires c < |lists| && c < heads.Length && i < |lists[c]| && lists[c][i] == p && Sound(p) && p != heads[c]
      requires heads[c] in central.g.hdr && central.g.hdr[heads[c]].used > 0
      modifies this`lists, heads, central, central.pages`next, central.pages`prev
      ensures Sound(0) && lists == old(lists)[c := [p] + Without(old(lists)[c], i)]
              && heads[..] == old(heads[..])[c := p]
      ensures unchanged(central.pages`mem)
      ensures central.g == old(central.g).(next := central.pages.next)
      ensures forall q: nat :: q !in old(lists)[c] ==> Get(central.pages.next, q) == Get(old(central.pages.next), q)
      ensures forall q: nat :: q !in old(lists)[c] ==> Get(central.pages.prev, q) == Get(old(central.pages.prev), q)
    {
      hide Ok, Orderly, Good, RotNext, RotPrev;
      ghost var v, l := View(), lists[c];
      OrderlyShape(v, id, table.size, p);
      RotateReady(v, id, table.size, c, p, i);
      StepRotate(v, id, table.size, c, p, i);
      forall q: nat ensures q in v.b.next <==> q in v.b.hdr { assert central.pages.PageAt(q); }
      MoveLinks(heads[c], p, l, i);
      forall q: nat ensures q in central.pages.next <==> q in v.b.hdr { assert central.pages.PageAt(q); }
      heads[c] := p;
      lists := lists[c := [p] + Without(lists[c], i)];
      RelinkStatus(v.b, central.pages.next, l);
      central.Note();
      assert heads[..] == v.heads[c := p];
      assert View() == Rotated(v, c, p, i);
    }

    /** heap_rotate_to_front */
    method RotateToFront(c: nat, p: nat, ghost i: nat)
      requires c < |lists| && c < heads.Length && i < |lists[c]| && lists[c][i] == p && Sound(Behind(c, p))
      requires p != heads[c] ==> heads[c] in central.g.hdr && central.g.hdr[heads[c]].used > 0
      modifies this`lists, heads, central, central.pages`next, central.pages`prev
      ensures Sound(0) && lists == old(lists)[c := [p] + Without(old(lists)[c], i)]
              && heads[..] == old(heads[..])[c := p] && p in lists[c]
      ensures central.pages.FreeOf(p) == old(central.pages.FreeOf(p)) && unchanged(central.pages`mem)
      ensures (i == 0 ==> central.pages.All() == old(central.pages.All())) && Refronted(old(View()), View(), c, i)
      ensures Undisturbed(old(central.pages.All()), central.pages.All(), old(lists)[c], {})
    {
      hide ThreadHeap.Sound, Undisturbed, Without;
      ghost var l := lists[c];
      if p == heads[c] {
        AtFront(c, p, i);
        LinksOnly(l);
        return;
      }
      NotFirst(c, p, i);
      Turn(c, p, i);
      LinksOnly(l);
    }

    lemma AtFront(c: nat, p: nat, i: nat)
      requires c < |lists| && c < heads.Length && i < |lists[c]| && lists[c][i] == p && Sound(0) && p == heads[c]
      ensures i == 0 && lists[c := [p] + Without(lists[c], i)] == lists && heads[..][c := p] == heads[..]
              && p in lists[c]
    {
      OrderlyShape(View(), id, table.size, 0);
      SameFront(View(), id, table.size, c, i);
    }

    lemma NotFirst(c: nat, p: nat, i: nat)
      requires c < |lists| && c < heads.Length && i < |lists[c]| && lists[c][i] == p && Sound(p) && p != heads[c]
      ensures i > 0
    {
      OrderlyShape(View(), id, table.size, p);
      RotateReady(View(), id, table.size, c, p, i);
    }

    /** The i-th page of class c has a free block: it comes to the front and is popped. */
    method ServeReady(c: nat, p: nat, ghost i: nat) returns (blk: nat)
      requires c < |lists| && c < heads.Length && i < |lists[c]| && lists[c][i] == p && Sound(Behind(c, p))
      requires p != heads[c] ==> heads[c] in central.g.hdr && central.g.hdr[heads[c]].used > 0
      requires central.pages.FreeOf(p) != [] && AllMapped(central.g.owned, central.pages.All())
      requires central.pages.All()[p].Mapped? && central.pages.All()[p].free != []
      modifies this`lists, heads, central, central.pages`hdr, central.pages`free, central.pages`next, central.pages`prev
      ensures Sound(0) && blk != 0 && unchanged(central.pages`mem)
      ensures ServesListed(old(View()), old(central.pages.All()), View(), central.pages.All(), c, i, blk)
    {
      hide ThreadHeap.Sound, Without, Undisturbed, OnlyAt, Headers.Snap, AllMapped, ServesListed, Pops, Reheaded,
           Refronted;
      ghost var v, s := View(), central.pages.All();
      RotateToFront(c, p, i);
      ghost var v1, s1 := View(), central.pages.All();
      blk := Take(c, p);
      ListedServes(v, s, v1, s1, View(), central.pages.All(), c, i, p, blk);
    }

    /** The same for a page that had to be made available first; v and s are from before that. */
    method ServeMade(c: nat, p: nat, ghost i: nat, ghost v: HeapView, ghost s: Snaps) returns (blk: nat)
      requires c < |lists| && c < heads.Length && i < |lists[c]| && lists[c][i] == p && Sound(Behind(c, p))
      requires p != heads[c] ==> heads[c] in central.g.hdr && central.g.hdr[heads[c]].used > 0
      requires central.pages.FreeOf(p) != [] && AllMapped(v.b.owned, s) && Reheaded(v, View())
      requires OnlyAt(s, central.pages.All(), p) && Readies(p, s[p], central.pages.All()[p])
      modifies this`lists, heads, central, central.pages`hdr, central.pages`free, central.pages`next, central.pages`prev
      ensures Sound(0) && blk != 0 && unchanged(central.pages`mem)
              && ServesListed(v, s, View(), central.pages.All(), c, i, blk)
    {
      hide ThreadHeap.Sound, Without, OnlyAt, Headers.Snap, AllMapped, ServesListed, Readies, Reheaded;
      ghost var v1, s1 := View(), central.pages.All();
      ReadyMapped(p, s[p], s1[p]);
      ReadyOwned(v, s, v1, s1, p);
      blk := ServeReady(c, p, i);
      ServesAfter(v, s, v1, s1, View(), central.pages.All(), c, i, blk);
    }

    /** One step of the walk over the pages of a class: serve from the i-th page if it can. */
    method TryPage(c: nat, p: nat, ghost i: nat) returns (blk: nat)
      requires Sound(0) && c < |lists| && c < heads.Length && i < |lists[c]| && lists[c][i] == p
      requires p != heads[c] ==> heads[c] in central.g.hdr && central.g.hdr[heads[c]].used > 0
      modifies this`lists, heads, central, central.pages
      ensures blk == 0 <==> Spent(old(central.pages.All())[p])
      ensures Sound(0) && (blk == 0 ==> Untouched(old(View()), old(central.pages.All()), old(central.pages.mem)))
      ensures blk == 0 ==> p in central.g.hdr && central.g.hdr[p].used > 0
      ensures blk != 0 ==> ServesListed(old(View()), old(central.pages.All()), View(), central.pages.All(), c, i, blk)
      ensures HasFree(old(central.pages.All())[p]) ==> central.pages.mem == old(central.pages.mem)
    {
      hide ThreadHeap.Sound, Without, OnlyAt, Headers.Snap, AllMapped, ServesListed, Readies, Reheaded, Spent, HasFree,
           Mine, ThreadHeap.Behind;
      ghost var v, s := View(), central.pages.All();
      Member(c, p, 0);
      Walk(c, 0);
      var ok := MakeReady(c, p);
      if !ok { return 0; }
      blk := ServeMade(c, p, i, v, s);
    }

    lemma ViewShows()
      requires central.Valid()
      ensures Shows(View(), central.pages.All()) && Shows(Rest(), central.pages.All())
      ensures forall q :: q in central.g.owned ==> InUse(central.g.hdr, q)
    {
      hide Ok, Shows, Headers.Valid;
      InUsePages(central.g);
      RestShows();
      ShowsSame(Rest(), View(), central.pages.All());
    }

    lemma RestShows()
      requires central.g.hdr == central.pages.hdr && central.g.next == central.pages.next
      ensures Shows(Rest(), central.pages.All())
    {
    }

    /** A page for class c from the central heap; the rest of this heap is as it was. */
    method Acquire(c: nat, answer: nat) returns (np: nat)
      requires Sound(0) && c < |lists| && c < |table.size| && GoodSize(table.size[c]) && answer !in central.g.pool
      modifies central, central.pages
      ensures np == 0 <==>
              old(central.g.avail) == [] && !AnyDrained(old(central.g.aband), old(central.pages.All())) && answer == 0
      ensures np == 0 ==> Sound(0) && central.g.owned == old(central.g.owned)
      ensures np != 0 ==>
              id != 0 && id != ABANDONED && central.Valid() && Gained(old(View()), View(), id, table.size, c, np)
      ensures np != 0 ==> central.pages.Snap(np) == NewSnap(table.size[c], c, id)
      ensures Reclaimed(old(central.g), central.g, old(central.pages.All()), central.pages.All())
      ensures AllSame(old(central.g.owned), old(central.pages.All()), central.pages.All())
      ensures AllMapped(old(central.g.owned), central.pages.All())
    {
      hide Orderly, Good, AllSame, AllMapped, Headers.Snap, Reclaimed, AnyDrained, NewPage, Gained, SamePage, Shows,
           CentralHeap.Valid;
      ghost var v, s := View(), central.pages.All();
      ViewShows();
      np := central.Acquire(id, c, table.size[c], answer);
      ghost var v1, s1 := View(), central.pages.All();
      ViewShows();
      OwnedKept(v, v1, s, s1);
      if np == 0 {
        StepKeep(v, v1, id, table.size, c);
      } else {
        GainedBy(v, v1, s1, id, table.size, c, np);
      }
    }

    /** Page np has been acquired for class c of the heap v, none of whose pages of this class can serve. */
    ghost predicate Acquired(v: HeapView, c: nat, np: nat)
      reads this, heads, central, central.pages
    {
      && id != 0 && id != ABANDONED && Good(table, SMALL_SIZE_MAX) && central.Valid()
      && Orderly(v, id, table.size, 0) && Gained(v, View(), id, table.size, c, np) && EMPTY !in v.b.hdr
      && c < |v.lists| && forall q :: q in v.lists[c] && q in v.b.hdr ==> v.b.hdr[q].used > 0
    }

    /** The fresh page np becomes the active one of class c; v is the heap before it was acquired. */
    method Front(c: nat, np: nat, ghost v: HeapView)
      requires Acquired(v, c, np)
      modifies this`lists, heads, central, central.pages`next, central.pages`prev
      ensures Sound(0) && c < |old(lists)| && c < heads.Length && lists == old(lists)[c := [np] + old(lists)[c]]
      ensures heads[..] == old(heads[..])[c := np]
      ensures central.g == old(central.g).(next := central.pages.next)
      ensures forall q: nat :: q !in [np] + old(lists)[c] ==>
              Get(central.pages.next, q) == Get(old(central.pages.next), q)
      ensures forall q: nat :: q !in [np] + old(lists)[c] ==>
              Get(central.pages.prev, q) == Get(old(central.pages.prev), q)
    {
      hide Ok, Orderly, Good, Gained, PushNext, PushPrev;
      ghost var v1 := View();
      FrontReady(v, v1, id, table.size, c, np);
      StepGain(v, v1, id, table.size, c, np);
      forall q: nat ensures q in v1.b.next <==> q in v1.b.hdr { assert central.pages.PageAt(q); }
      Hook(np, Start(heads[c]));
      forall q: nat ensures q in central.pages.next <==> q in v1.b.hdr { assert central.pages.PageAt(q); }
      heads[c] := np;
      lists := lists[c := [np] + lists[c]];
      RelinkStatus(v1.b, central.pages.next, [np]);
      central.Note();
      assert heads[..] == v1.heads[c := np];
      assert View() == Fronted(v1, c, np);
    }

    method Hook(np: nat, head: nat)
      requires central.pages.Valid() && np in central.pages.hdr && (head != 0 ==> head in central.pages.hdr
                                                                                  && head != np)
      modifies central.pages`next, central.pages`prev
      ensures central.pages.Valid() && central.pages.next == PushNext(old(central.pages.next), head, np)
      ensures central.pages.prev == PushPrev(old(central.pages.prev), head, np)
      ensures forall q: nat :: q != np ==> Get(central.pages.next, q) == Get(old(central.pages.next), q)
      ensures forall q: nat :: q != np && (q != head || head == 0) ==>
              Get(central.pages.prev, q) == Get(old(central.pages.prev), q)
    {
      var pages := central.pages;
      assert pages.PageAt(np) && pages.PageAt(head);
      pages.prev := pages.prev[np := 0];
      pages.next := pages.next[np := head];
      if pages.next[np] != 0 { pages.prev := pages.prev[pages.next[np] := np]; }
      forall q: nat ensures pages.PageAt(q) { assert old(pages.PageAt(q)); }
    }

    /** The active page has something to give: it is made available and popped. */
    method ServeActive(c: nat, p: nat) returns (blk: nat)
      requires Sound(0) && c < |lists| && c < heads.Length && p in lists[c] && p == heads[c]
               && !Spent(central.pages.All()[p])
      modifies central, central.pages
      ensures Sound(0) && OnlyAt(old(central.pages.All()), central.pages.All(), p)
              && central.g.owned == old(central.g.owned)
      ensures Serves(p, old(central.pages.All())[p], central.pages.All()[p], blk)
    {
      hide Orderly, Good, OnlyAt, CentralHeap.Valid, Readies, Pops, Serves;
      ghost var s := central.pages.All();
      var ok := MakeReady(c, p);
      ghost var t := central.pages.All();
      blk := Take(c, p);
      OnlyAtTwice(s, t, central.pages.All(), p);
      ReadyMapped(p, s[p], t[p]);
      ServeChain(p, s[p], t[p], t[p], central.pages.All()[p], blk);
    }

    /** The end of heap_malloc_slow: no page of class c can serve, so a fresh one is acquired. */
    method ServeFresh(c: nat, answer: nat) returns (blk: nat)
      requires Sound(0) && c < |lists| && c < |table.size| && GoodSize(table.size[c]) && answer !in central.g.pool
      requires forall q :: q in lists[c] && q in central.g.hdr ==> central.g.hdr[q].used > 0
      modifies this`lists, heads, central, central.pages
      ensures Sound(0) && (blk == 0 <==> NothingLeft(old(central.g), old(central.pages.All()), answer))
      ensures blk == 0 ==> lists == old(lists) && heads[..] == old(heads[..]) && central.g.owned == old(central.g.owned)
      ensures blk == 0 ==> KeptOwn(old(central.g.owned), old(central.pages.All()), central.pages.All(), old(lists)[c],
              {})
      ensures blk != 0 ==> ServesNew(old(View()), old(central.pages.All()), View(), central.pages.All(), id,
              table.size, c, blk)
    {
      hide ThreadHeap.Sound, Orderly, Good, KeptOwn, AllSame, AllMapped, CentralHeap.Valid, Headers.Snap, AnyDrained,
           Reclaimed, NewSnap, Gained,
           Serves, HeldSnap, ServesNew;
      ghost var v, s0, l, owned := View(), central.pages.All(), lists[c], central.g.owned;
      Opened();
      var np := Acquire(c, answer);
      ghost var s1 := central.pages.All();
      if np == 0 {
        KeptUnchanged(owned, s0, s1, l);
        return 0;
      }
      assert Acquired(v, c, np);
      NewToHeap(v, c, np);
      blk := ServeNew(c, np, v);
      KeptAfter(owned, s0, s1, central.pages.All(), l);
      NewServed(v, s0, View(), central.pages.All(), id, table.size, c, np, blk);
    }

    lemma Opened()
      requires Sound(0)
      ensures id != 0 && id != ABANDONED && Good(table, SMALL_SIZE_MAX) && central.Valid()
              && Orderly(View(), id, table.size, 0)
      ensures EMPTY !in central.g.hdr && |heads[..]| == |lists|
    {
      hide Good;
      OrderlyShape(View(), id, table.size, 0);
      NoEmptyPage(central.g);
    }

    /** The fresh page is put in front and served from. */
    method ServeNew(c: nat, np: nat, ghost v: HeapView) returns (blk: nat)
      requires Acquired(v, c, np)
      requires c < |lists| && c < |table.size| && GoodSize(table.size[c])
      requires central.pages.Snap(np) == NewSnap(table.size[c], c, id)
      requires AllMapped(v.b.owned, central.pages.All())
      modifies this`lists, heads, central, central.pages
      ensures Sound(0) && blk != 0 && c < heads.Length && |lists| == |old(lists)|
              && lists == old(lists)[c := [np] + old(lists)[c]]
      ensures heads[..] == old(heads[..])[c := np] && central.g.owned == old(central.g.owned)
      ensures Serves(np, NewSnap(table.size[c], c, id), central.pages.All()[np], blk)
              && HeldSnap(np, central.pages.All()[np]) == {blk}
      ensures KeptOwn(v.b.owned, old(central.pages.All()), central.pages.All(), old(lists)[c], {})
    {
      hide ThreadHeap.Sound, ThreadHeap.Acquired, Undisturbed, OnlyAt, KeptOwn, AllMapped, CentralHeap.Valid,
           Headers.Snap, NewSnap,
           Serves, HeldSnap, Spent, GoodSize;
      ghost var s, l := central.pages.All(), lists[c];
      FreshPage(np, c);
      NewToHeap(v, c, np);
      FrontPage(c, np, v);
      ghost var t := central.pages.All();
      blk := ServeActive(c, np);
      FreshFrame(v.b.owned, s, t, central.pages.All(), l, np);
      NewServes(s, t, [np] + l, np, central.pages.All()[np], table.size[c], c, id, blk);
    }

    lemma NewToHeap(v: HeapView, c: nat, np: nat)
      requires Acquired(v, c, np)
      ensures np !in v.b.owned && lists == v.lists && heads[..] == v.heads && central.g.owned == v.b.owned + {np}
              && central.Valid()
    {
      hide Gained;
      GainedNew(v, View(), id, table.size, c, np);
    }

    /** Front, and what it leaves alone. */
    method FrontPage(c: nat, np: nat, ghost v: HeapView)
      requires Acquired(v, c, np)
      requires c < |lists| && np in central.pages.hdr && central.pages.hdr[np].reserved < central.pages.hdr[np].capacity
      modifies this`lists, heads, central, central.pages`next, central.pages`prev
      ensures Sound(0) && c < |old(lists)| && c < heads.Length && lists == old(lists)[c := [np] + old(lists)[c]]
      ensures heads[..] == old(heads[..])[c := np] && heads[c] == np && np in lists[c]
              && !Spent(central.pages.All()[np])
      ensures central.g.owned == old(central.g.owned)
      ensures Undisturbed(old(central.pages.All()), central.pages.All(), [np] + old(lists)[c], {})
    {
      hide ThreadHeap.Sound, ThreadHeap.Acquired, Undisturbed, CentralHeap.Valid;
      ghost var l := lists[c];
      Front(c, np, v);
      assert heads[c] == heads[..][c] && central.pages.All()[np] == central.pages.Snap(np);
      LinksOnly([np] + l);
    }

    /** A page just stamped can serve, and clients hold nothing of it. */
    lemma FreshPage(np: nat, c: nat)
      requires c < |table.size| && GoodSize(table.size[c]) && central.pages.Snap(np) == NewSnap(table.size[c], c, id)
      ensures np in central.pages.hdr && central.pages.hdr[np].reserved < central.pages.hdr[np].capacity
      ensures central.pages.All()[np] == NewSnap(table.size[c], c, id) && central.pages.All()[np].Mapped?
    {
      CapacityPositive(table.size[c]);
    }

    /** Walking the list of class c: where it starts, and how each page leads to the next. */
    lemma Walk(c: nat, i: nat)
      requires Sound(0) && c < |lists|
      ensures c < heads.Length && c < |table.size| && (heads[c] == EMPTY <==> lists[c] == [])
      ensures i < |lists[c]| ==> lists[c][i] != 0 && lists[c][i] in central.pages.next
                                 && central.pages.next[lists[c][i]] == At(lists[c], i + 1)
      ensures lists[c] != [] ==> lists[c][0] == heads[c]
      ensures AllMapped(central.g.owned, central.pages.All())
    {
      assert ClassAt(View(), id, table.size, c, 0);
      InUsePages(central.g);
      NoEmptyPage(central.g);
      if lists[c] != [] {
        HeadOf(central.g, central.pages.prev, id, c, table.size[c], heads[c], lists[c], 0, 0);
        Member(c, lists[c][0], 0);
      }
      if i < |lists[c]| {
        Neighbours(central.g.next, central.pages.prev, heads[c], lists[c], i);
        Member(c, lists[c][i], 0);
        assert central.pages.PageAt(lists[c][i]);
      }
    }

    /** heap_malloc_slow */
    method MallocSlow(c: nat, answer: nat) returns (blk: nat)
      requires Valid() && c < |lists| && answer !in central.g.pool
      modifies this`lists, heads, central, central.pages
      ensures Valid() && SparesOthers(old(View()), View(), id)
      ensures Allocates(old(View()), old(central.pages.All()), View(), central.pages.All(),
                        id, table.size, c, answer, blk)
      ensures ActiveFree(old(lists)[c], old(central.pages.All())) ==> central.pages.mem == old(central.pages.mem)
    {
      hide Orderly, CentralHeap.Valid, Headers.Snap, SparesOthers, Good, Allocates, Shows;
      ghost var v, s := View(), central.pages.All();
      ViewShows();
      OwnedUsed();
      blk := WalkClass(c, answer);
      ViewShows();
      AllocatesSpares(v, s, View(), central.pages.All(), id, table.size, c, answer, blk);
    }

    lemma OwnedUsed()
      requires central.Valid()
      ensures OwnedInUse(central.g)
    {
      hide Ok;
      InUsePages(central.g);
    }

    /** One step of the walk, seen against the heap v and the pages s as the walk found them. */
    method WalkStep(c: nat, p: nat, ghost i: nat, ghost answer: nat, ghost v: HeapView, ghost s: Snaps, ghost m: Mem)
      returns (blk: nat)
      requires Sound(0) && c < |v.lists| && i < |v.lists[c]| && v.lists[c][i] == p && SpentUpTo(v.lists[c], s, v.b, i)
      requires Untouched(v, s, m)
      modifies this`lists, heads, central, central.pages
      ensures Sound(0) && (blk == 0 ==> Untouched(v, s, m) && SpentUpTo(v.lists[c], s, v.b, i + 1))
      ensures blk == 0 ==> p in central.pages.next && central.pages.next[p] == At(v.lists[c], i + 1)
      ensures blk != 0 ==> Allocates(v, s, View(), central.pages.All(), id, table.size, c, answer, blk)
      ensures blk != 0 && ActiveFree(v.lists[c], s) ==> central.pages.mem == m
    {
      hide ThreadHeap.Sound, Headers.Snap, FirstUsable, SpentUpTo, AllMapped, Spent, ServesListed, Allocates, HasFree;
      Walk(c, i);
      SpentNext(lists[c], s, v.b, i);
      SpentActive(lists[c], s, v.b, i);
      blk := TryPage(c, p, i);
      if blk != 0 {
        AllocatesListed(v, s, View(), central.pages.All(), id, table.size, c, i, answer, blk);
      } else {
        Walk(c, i);
      }
    }

    /** The walk is over: where the list starts, and that it has been worked off. */
    lemma WalkEnd(c: nat, v: HeapView, s: Snaps, m: Mem)
      requires Sound(0) && Untouched(v, s, m) && c < |v.lists|
      ensures 0 !in v.lists[c] && c < heads.Length && lists == v.lists && central.g == v.b && central.pages.All() == s
              && View() == v
      ensures (heads[c] == EMPTY <==> v.lists[c] == []) && (v.lists[c] != [] ==> heads[c] == v.lists[c][0]
                                                                                 && heads[c] != 0)
    {
      hide ThreadHeap.Sound;
      Walk(c, 0);
      forall k: nat | k < |lists[c]| ensures lists[c][k] != 0 { Walk(c, k); }
    }

    lemma AsFound()
      ensures Untouched(View(), central.pages.All(), central.pages.mem)
    {
    }

    /** The walk over the pages of class c: a page serves, or all of them are spent. */
    method WalkPages(c: nat, ghost answer: nat) returns (blk: nat)
      requires Valid() && c < |lists|
      modifies this`lists, heads, central, central.pages
      ensures Valid() && (blk == 0 ==> Untouched(old(View()), old(central.pages.All()), old(central.pages.mem)))
      ensures blk == 0 ==> SpentUpTo(lists[c], central.pages.All(), central.g, |lists[c]|)
      ensures blk != 0 ==> Allocates(old(View()), old(central.pages.All()), View(), central.pages.All(), id,
              table.size, c, answer, blk)
      ensures blk != 0 && ActiveFree(old(lists)[c], old(central.pages.All())) ==>
              central.pages.mem == old(central.pages.mem)
    {
      hide ThreadHeap.Sound, ThreadHeap.Untouched, Headers.Snap, SpentUpTo, Allocates, ActiveFree;
      ghost var v, l, s, m := View(), lists[c], central.pages.All(), central.pages.mem;
      AsFound();
      WalkEnd(c, v, s, m);
      SpentStart(l, s, central.g);
      blk := 0;
      if heads[c] == EMPTY { return; }
      var p := heads[c];
      ghost var i := 0;
      while p != 0
        invariant i <= |l| && p == At(l, i) && Sound(0) && SpentUpTo(l, s, v.b, i) && Untouched(v, s, m) && blk == 0
        decreases |l| - i
      {
        InList(l, i);
        blk := WalkStep(c, p, i, answer, v, s, m);
        if blk != 0 { return; }
        p := central.pages.next[p];
        i := i + 1;
      }
      NotInList(l, i);
      WalkEnd(c, v, s, m);
    }

    /** The walk, and a fresh page at its end. */
    method WalkClass(c: nat, answer: nat) returns (blk: nat)
      requires Valid() && c < |lists| && answer !in central.g.pool
      modifies this`lists, heads, central, central.pages
      ensures Valid()
      ensures Allocates(old(View()), old(central.pages.All()), View(), central.pages.All(),
                        id, table.size, c, answer, blk)
      ensures ActiveFree(old(lists)[c], old(central.pages.All())) ==> central.pages.mem == old(central.pages.mem)
    {
      hide ThreadHeap.Sound, Headers.Snap, SpentUpTo, Allocates;
      ghost var s, l, b := central.pages.All(), lists[c], central.g;
      blk := WalkPages(c, answer);
      if blk != 0 { return; }
      SpentActive(l, s, b, |l|);
      blk := ServeLast(c, answer);
    }

    /** All pages of the class are spent: the fresh page decides. */
    method ServeLast(c: nat, answer: nat) returns (blk: nat)
      requires Valid() && c < |lists| && answer !in central.g.pool
               && SpentUpTo(lists[c], central.pages.All(), central.g, |lists[c]|)
      modifies this`lists, heads, central, central.pages
      ensures Valid()
      ensures Allocates(old(View()), old(central.pages.All()), View(), central.pages.All(),
                        id, table.size, c, answer, blk)
    {
      hide Orderly, KeptOwn, CentralHeap.Valid, Headers.Snap, FirstUsable, NothingLeft, SpentUpTo, ServesListed,
           ServesNew, AllMapped;
      Walk(c, 0);
      SpentAll(lists[c], central.pages.All(), central.g);
      ClassIsGoodSize(table, c);
      blk := ServeFresh(c, answer);
    }

    /** The `free` field of a page or of the empty page. */
    function FreeField(p: nat): nat
      requires p == EMPTY || p in central.pages.hdr
      reads central.pages
    {
      if p == EMPTY then 0 else central.pages.hdr[p].free
    }

    /** heap_malloc: the inline path meets the same specification as heap_malloc_slow, which leaves no choice then
        (AllocationDetermined). */
    method Malloc(n: nat, answer: nat) returns (blk: nat)
      requires Valid() && n <= SMALL_SIZE_MAX && answer !in central.g.pool
      modifies this`lists, heads, central, central.pages
      ensures Valid() && SparesOthers(old(View()), View(), id)
      ensures Allocates(old(View()), old(central.pages.All()), View(), central.pages.All(), id, table.size,
                        SizeClass(table, SMALL_SIZE_MAX, n), answer, blk)
      ensures var c := SizeClass(table, SMALL_SIZE_MAX, n);
              c < |old(lists)| && (ActiveFree(old(lists)[c], old(central.pages.All())) ==>
                  central.pages.mem == old(central.pages.mem))
    {
      hide Orderly, CentralHeap.Valid, Headers.Snap, SparesOthers, Good, Allocates, Shows, AllMapped, OnlyAt,
           SizeClass, Pops;
      ghost var v, s := View(), central.pages.All();
      SmallestFit(table, SMALL_SIZE_MAX, n);
      var c := SizeClass(table, SMALL_SIZE_MAX, n);
      Slot(c);
      var p := heads[c];
      if FreeField(p) != 0 {
        Walk(c, 0);
        ViewShows();
        OwnedUsed();
        blk := Take(c, p);
        ViewShows();
        AllocatesActive(v, s, View(), central.pages.All(), id, table.size, c, answer, blk);
        AllocatesSpares(v, s, View(), central.pages.All(), id, table.size, c, answer, blk);
        return;
      }
      blk := MallocSlow(c, answer);
    }

    lemma Slot(c: nat)
      requires Valid() && c < |table.size|
      ensures c < |lists| && c < heads.Length && (heads[c] == EMPTY || heads[c] in central.pages.hdr)
      ensures heads[c] != EMPTY ==> lists[c] != [] && heads[c] == lists[c][0]
      ensures heads[c] != EMPTY ==> (FreeField(heads[c]) != 0 <==> central.pages.FreeOf(heads[c]) != [])
      ensures heads[c] != EMPTY ==> central.pages.All()[heads[c]].Mapped?
                                    && central.pages.All()[heads[c]].free == central.pages.FreeOf(heads[c])
    {
      hide Ok, PageLists;
      OrderlyShape(View(), id, table.size, 0);
      Walk(c, 0);
      if lists[c] != [] {
        Member(c, lists[c][0], 0);
        central.pages.FreeHead(heads[c]);
        assert central.pages.All()[heads[c]] == central.pages.Snap(heads[c]);
      }
    }

    /** pg->prev->next = pg->next and back; pg is not the head of its list, so pg->prev is not null. */
    method Unlink(p: nat, ghost head: nat, ghost l: seq<nat>, ghost i: nat)
      requires central.pages.Valid() && DList(central.pages.next, central.pages.prev, head, l) && 0 < i < |l|
               && l[i] == p
      requires forall q :: q in l ==> q in central.pages.hdr
      modifies central.pages`next, central.pages`prev
      ensures central.pages.next == CutNext(old(central.pages.next), old(central.pages.prev), p)
      ensures central.pages.prev == CutPrev(old(central.pages.next), old(central.pages.prev), p)
      ensures central.pages.Valid()
    {
      hide DList;
      var pages := central.pages;
      Neighbours(pages.next, pages.prev, head, l, i);
      assert pages.PageAt(p) && pages.PageAt(pages.prev[p]) && pages.PageAt(pages.next[p]);
      var before, after := pages.prev[p], pages.next[p];
      pages.next := pages.next[before := after];
      if after != 0 { pages.prev := pages.prev[after := before]; }
      forall q: nat ensures pages.PageAt(q) { assert old(pages.PageAt(q)); }
    }

    twostate lemma SnapsRelinked()
      requires unchanged(central.pages`hdr) && unchanged(central.pages`free) && unchanged(central.pages`parked)
      ensures Relinked(old(central.pages.All()), central.pages.All(), central.pages.next, central.pages.prev)
    {
    }

    /** The page leaves its list; it is still this heap's. */
    method CutOut(c: nat, p: nat, ghost i: nat)
      requires c < |lists| && c < heads.Length && i < |lists[c]| && lists[c][i] == p && Sound(p) && p != heads[c]
      modifies central, central.pages`next, central.pages`prev
      ensures central.Valid() && central.g == old(central.g).(next := central.pages.next) && p in central.g.owned
              && i > 0
      ensures central.pages.next == CutNext(old(central.g.next), old(central.pages.prev), p)
      ensures central.pages.prev == CutPrev(old(central.g.next), old(central.pages.prev), p)
    {
      hide Ok, Orderly, Good, CutNext, CutPrev;
      ghost var v, l := View(), lists[c];
      OrderlyShape(v, id, table.size, p);
      CutReady(v, id, table.size, c, p, i);
      forall q: nat ensures q in v.b.next <==> q in v.b.hdr { assert central.pages.PageAt(q); }
      Unlink(p, heads[c], l, i);
      forall q: nat ensures q in central.pages.next <==> q in v.b.hdr { assert central.pages.PageAt(q); }
      RelinkStatus(v.b, central.pages.next, l);
      central.Note();
    }

    /** The drained page leaves its list and goes back to the central heap. */
    method GiveBack(c: nat, p: nat, ghost i: nat)
      requires c < |lists| && c < heads.Length && i < |lists[c]| && lists[c][i] == p && Sound(p) && p != heads[c]
      modifies this`lists, central, central.pages
      ensures Sound(0) && lists == old(lists)[c := Without(old(lists)[c], i)]
              && central.g.owned == old(central.g.owned) - {p}
      ensures KeptOwn(old(central.g.owned), old(central.pages.All()), central.pages.All(), old(lists)[c], {p})
    {
      hide Ok, Orderly, Good, CutNext, CutPrev, Lost, Without, Shows, Relinked, BusySame, CentralHeap.Valid, KeptOwn,
           Headers.Snap, LinksOff;
      ghost var v, s, l := View(), central.pages.All(), lists[c];
      ViewShows();
      OrderlyShape(v, id, table.size, p);
      CutOut(c, p, i);
      SnapsRelinked();
      ghost var s', next, prev := central.pages.All(), central.pages.next, central.pages.prev;
      lists := lists[c := Without(lists[c], i)];
      ReleasePage(p);
      ViewShows();
      ghost var t := central.pages.All();
      LostBy(v, View(), s, s', t, c, p, i);
      StepLose(v, View(), id, table.size, c, p, i);
      CutKept(v, s, id, table.size, c, p, i);
      KeptLost(v.b.owned, s, s', t, next, prev, l, p);
    }

    method ReleasePage(p: nat)
      requires central.Valid() && p in central.g.owned
      modifies central, central.pages`hdr, central.pages`next, central.pages`prev, central.pages`free,
               central.pages`parked
      ensures central.Valid() && central.g.owned == old(central.g.owned) - {p}
              && central.g.aband == old(central.g.aband)
      ensures BusySame(old(central.pages.All()), central.pages.All(), p)
    {
      hide Ok;
      central.Release(p);
    }

    /** Where a page of this heap is listed. */
    lemma Listed(p: nat) returns (c: nat, i: nat)
      requires Valid() && OwnedBy(central.g, id, p)
      ensures c == central.g.hdr[p].cls && c < |lists| && c < heads.Length && c < |table.size| && i < |lists[c]|
              && lists[c][i] == p
      ensures p in central.pages.hdr && central.pages.hdr[p] == central.g.hdr[p] && central.pages.hdr[p].inUse
    {
      hide Ok, ClassOk;
      assert Home(View(), id, p);
      c := central.g.hdr[p].cls;
      i :| i < |lists[c]| && lists[c][i] == p;
      Member(c, p, 0);
    }

    /** heap_on_page_empty */
    method OnPageEmpty(p: nat, ghost i: nat)
      requires p in central.pages.hdr && central.pages.hdr[p].cls < |lists| && central.pages.hdr[p].cls < heads.Length
      requires Sound(Behind(central.pages.hdr[p].cls, p)) && i < |lists[central.pages.hdr[p].cls]|
               && lists[central.pages.hdr[p].cls][i] == p
      modifies this`lists, central, central.pages
      ensures Sound(0)
      ensures var c := old(central.pages.hdr[p].cls);
              if heads[c] == p then unchanged(this) && unchanged(central) && unchanged(central.pages)
              else && lists == old(lists)[c := Without(old(lists)[c], i)]
                   && central.g.owned == old(central.g.owned) - {p}
                   && KeptOwn(old(central.g.owned), old(central.pages.All()), central.pages.All(), old(lists)[c], {p})
    {
      hide Orderly, Good, CentralHeap.Valid, KeptOwn, Without;
      var c := central.pages.hdr[p].cls;
      if heads[c] == p { return; }
      GiveBack(c, p, i);
    }

    /** The push of a local free, before the page is looked at. */
    method PushBlock(ghost c: nat, p: nat, blk: nat)
      requires Valid() && c < |lists| && c < heads.Length && p in lists[c] && blk in central.pages.HeldOf(p)
      modifies central, central.pages`hdr, central.pages`mem, central.pages`free
      ensures InUse(central.pages.hdr, p) && InUse(old(central.pages.hdr), p) && central.pages.hdr[p].cls == c
      ensures central.pages.hdr[p].used >= 0 && central.pages.All()[p].Mapped?
              && central.pages.All()[p].page == central.pages.hdr[p]
      ensures Sound(if central.pages.hdr[p].used > 0 then 0 else Behind(c, p)) && Reheaded(old(View()), View())
      ensures OnlyAt(old(central.pages.All()), central.pages.All(), p)
      ensures BlockPushed(old(View()), old(central.pages.All()), central.pages.All(), c, p, blk)
    {
      hide Ok, Orderly, Good, OnlyAt, PushedOn, Headers.Snap, Headers.HeldOf;
      Member(c, p, 0);
      ShownClass(c, p);
      central.pages.Push(p, blk);
      PushedMapped(p, old(central.pages.All())[p], central.pages.All()[p], blk);
      Settle(c, p, if central.pages.hdr[p].used > 0 then 0 else Behind(c, p));
    }

    lemma ShownClass(c: nat, p: nat)
      requires c < |table.size| && Mine(central.g, id, c, table.size[c], p) && central.g.hdr == central.pages.hdr
      ensures central.pages.All()[p].Mapped? && central.pages.All()[p].page.cls == c
              && central.pages.All()[p].page == central.pages.hdr[p]
    {
      assert central.pages.All()[p] == central.pages.Snap(p);
    }

    /** heap_free, the branch for a page this heap owns. */
    method Free(blk: nat)
      requires Valid() && blk < WORD && OwnedBy(central.g, id, PageOf(blk)) && blk in central.pages.HeldOf(PageOf(blk))
      modifies this`lists, central, central.pages
      ensures Valid() && Frees(old(View()), old(central.pages.All()), View(), central.pages.All(), PageOf(blk), blk)
      ensures SparesOthers(old(View()), View(), id)
    {
      hide ThreadHeap.Sound, CentralHeap.Valid, Headers.Snap, Headers.HeldOf, SparesOthers, Shows, Frees, PageOf,
           OwnedInUse, Orderly, Good;
      ghost var v, s := View(), central.pages.All();
      Opened();
      ViewShows();
      OwnedUsed();
      FreeHere(blk);
      Opened();
      ViewShows();
      FreesSpares(v, s, View(), central.pages.All(), id, table.size, PageOf(blk), blk);
    }

    /** The push, and what becomes of the page. */
    method FreeHere(blk: nat)
      requires Valid() && blk < WORD && OwnedBy(central.g, id, PageOf(blk)) && blk in central.pages.HeldOf(PageOf(blk))
      modifies this`lists, central, central.pages
      ensures Valid() && Frees(old(View()), old(central.pages.All()), View(), central.pages.All(), PageOf(blk), blk)
    {
      hide Orderly, Good, CentralHeap.Valid, KeptOwn, Without, PageOf, OnlyAt, AllMapped, Headers.Valid, Headers.Snap,
           Headers.HeldOf,
           BlockPushed, Frees, HeldSnap;
      var p := PageOf(blk);
      ghost var v, s := View(), central.pages.All();
      ghost var c, i := Listed(p);
      Walk(c, 0);
      PushBlock(c, p, blk);
      KeptOnly(v.b.owned, s, central.pages.All(), v.lists[c], p);
      if central.pages.hdr[p].used == 0 {
        FreeLast(p, blk, v, s, c, i);
      } else {
        FreesStay(v, s, View(), central.pages.All(), c, p, blk);
      }
    }

    /** No block of the page is out any more: heap_on_page_empty decides. */
    method FreeLast(p: nat, ghost blk: nat, ghost v: HeapView, ghost s: Snaps, ghost c: nat, ghost i: nat)
      requires InUse(central.pages.hdr, p) && central.pages.hdr[p].cls == c && c < |lists| && c < heads.Length
               && i < |lists[c]| && lists[c][i] == p
      requires Sound(Behind(c, p)) && Reheaded(v, View())
      requires OnlyAt(s, central.pages.All(), p) && BlockPushed(v, s, central.pages.All(), c, p, blk)
      requires central.pages.All()[p].Mapped? && central.pages.All()[p].page.used == 0
               && KeptOwn(v.b.owned, s, central.pages.All(), v.lists[c], {p})
      modifies this`lists, central, central.pages
      ensures Valid() && Frees(v, s, View(), central.pages.All(), p, blk)
    {
      hide ThreadHeap.Sound, KeptOwn, Without, OnlyAt, Headers.Valid, Headers.Snap, BlockPushed, Frees;
      ghost var t := central.pages.All();
      assert v.heads == heads[..] && v.lists == lists && v.b.owned == central.g.owned;
      OnPageEmpty(p, i);
      if heads[c] == p {
        FreesStay(v, s, View(), t, c, p, blk);
      } else {
        KeptTwice(v.b.owned, s, t, central.pages.All(), v.lists[c], p);
        FreesGone(v, s, View(), t, central.pages.All(), c, p, blk, i);
      }
    }

    /** One page of an exiting thread's heap: collected, then released or abandoned. */
    method RetirePage(p: nat)
      requires central.Valid() && p in central.g.owned
      modifies central, central.pages
      ensures central.Valid() && central.g.owned == old(central.g.owned) - {p}
      ensures BusySame(old(central.pages.All()), central.pages.All(), p)
      ensures RetiredPage(p, old(central.pages.All())[p], central.g, central.pages.All()[p])
      ensures central.g.aband == old(central.g.aband) || central.g.aband == [p] + old(central.g.aband)
    {
      hide OnlyAt, HeldSnap, BusySame, RetiredPage, Forsakes, Collected, Headers.Snap, CentralHeap.Valid;
      OwnedFacts(p);
      ghost var s := central.pages.All();
      central.CollectLocked(p);
      ghost var t := central.pages.All();
      if central.pages.hdr[p].used == 0 {
        ReleasePage(p);
      } else {
        AbandonPage(p);
      }
      BusyChain(s, t, central.pages.All(), p);
      RetiredEither(p, s[p], t[p], central.pages.All()[p], central.g);
    }

    lemma OwnedFacts(p: nat)
      requires central.Valid() && p in central.g.owned
      ensures InUse(central.pages.hdr, p) && p !in central.g.aband && InUse(central.g.hdr, p)
    {
      InUsePages(central.g);
    }

    method AbandonPage(p: nat)
      requires central.Valid() && p in central.g.owned
      modifies central, central.pages`hdr, central.pages`next, central.pages`prev
      ensures central.Valid() && central.g.owned == old(central.g.owned) - {p}
              && central.g.aband == [p] + old(central.g.aband)
      ensures BusySame(old(central.pages.All()), central.pages.All(), p)
      ensures Forsakes(p, old(central.pages.All())[p], central.pages.All()[p])
    {
      hide Ok;
      central.Abandon(p);
    }

    /** What matters of a heap whose slots are being emptied. */
    ghost function Rest(): HeapView
      reads this, central, central.pages
    {
      HeapView(central.g, central.pages.prev, [], lists)
    }

    /** The heap is being taken apart: b0 and s0 are from before, the pages in done have left, the rest is still
        listed. */
    ghost predicate Dismantling(b0: Books, s0: Snaps, done: set<nat>)
      reads this, central, central.pages
    {
      && central.Valid() && Chains(Rest(), id, table.size)
      && Retired(b0.owned, s0, central.g, central.pages.All(), done)
      && OwnPages(b0, id, done) && Recorded(b0, s0)
    }

    /** The first page left of class c goes. */
    method RetireFirst(c: nat, p: nat, ghost b0: Books, ghost s0: Snaps, ghost done: set<nat>)
      requires Dismantling(b0, s0, done) && c < |lists| && lists[c] != [] && p == lists[c][0]
      modifies this`lists, central, central.pages
      ensures Dismantling(b0, s0, done + {p}) && lists == old(lists)[c := old(lists)[c][1..]]
    {
      hide Chains, Retired, Shows, BusySame, RetiredPage, CentralHeap.Valid, SamePage, AllBusy, Recorded, OwnPages,
           Headers.Snap;
      ghost var v, s := Rest(), central.pages.All();
      ViewShows();
      FirstLeft(c, p, b0, s0, done);
      RetirePage(p);
      lists := lists[c := lists[c][1..]];
      ViewShows();
      SameByBusy(v, Rest(), s, central.pages.All(), p);
      ChainStep(v, Rest(), id, table.size, c, p);
      RetiredStep(b0.owned, s0, v.b, s, central.g, central.pages.All(), done, p);
      OwnPagesMore(b0, id, done, p);
    }

    lemma FirstLeft(c: nat, p: nat, b0: Books, s0: Snaps, done: set<nat>)
      requires Dismantling(b0, s0, done) && c < |lists| && lists[c] != [] && p == lists[c][0]
      ensures c < |table.size| && p != 0 && p in central.g.owned && p in central.pages.next
              && central.pages.next[p] == At(lists[c], 1)
      ensures OwnedBy(b0, id, p) && AllBusy(central.g, central.pages.All())
    {
      assert ChainAt(Rest(), id, table.size, c);
      assert Mine(central.g, id, c, table.size[c], p);
      assert Link(central.g.next, lists[c], 0) && central.pages.PageAt(p);
      InUsePages(central.g);
      assert central.pages.All()[p] == central.pages.Snap(p);
    }

    lemma EmptyNotListed(c: nat, b0: Books, s0: Snaps, done: set<nat>)
      requires Dismantling(b0, s0, done) && c < |lists|
      ensures EMPTY !in lists[c]
    {
      NoEmptyPage(central.g);
      assert ChainAt(Rest(), id, table.size, c);
      assert EMPTY in lists[c] ==> Mine(central.g, id, c, table.size[c], EMPTY);
    }

    /** The inner loop of heap_destroy: the link to the next page is read before the page can leave the address
        space. */
    method WorkOff(c: nat, first: nat, ghost b0: Books, ghost s0: Snaps, ghost done: set<nat>)
      returns (ghost done': set<nat>)
      requires Dismantling(b0, s0, done) && c < |lists| && first == if lists[c] == [] then EMPTY else lists[c][0]
      modifies this`lists, central, central.pages
      ensures Dismantling(b0, s0, done') && lists == old(lists)[c := []]
    {
      hide Dismantling;
      done' := done;
      EmptyNotListed(c, b0, s0, done);
      ghost var l, i := lists[c], 0;
      assert l[0..] == l && lists[c := l] == lists;
      var p := first;
      while p != 0 && p != EMPTY
        invariant i <= |l| && Dismantling(b0, s0, done') && lists == old(lists)[c := l[i..]]
        invariant p == if l == [] then EMPTY else At(l, i)
        decreases |l| - i
      {
        Suffix(old(lists), c, l, i);
        FirstLeft(c, p, b0, s0, done');
        var nx := central.pages.next[p];
        RetireFirst(c, p, b0, s0, done');
        done' := done' + {p};
        p := nx;
        i := i + 1;
      }
      if i < |l| { FirstLeft(c, l[i], b0, s0, done'); }
    }

    method DestroyClass(c: nat, ghost b0: Books, ghost s0: Snaps, ghost done: set<nat>) returns (ghost done': set<nat>)
      requires Dismantling(b0, s0, done) && c < heads.Length && Slots(heads[..], lists, c)
      modifies this`lists, heads, central, central.pages
      ensures Dismantling(b0, s0, done') && Slots(heads[..], lists, c + 1)
    {
      hide Dismantling, Slots;
      SlotsNext(heads[..], lists, c);
      done' := WorkOff(c, heads[c], b0, s0, done);
      heads[c] := EMPTY;
      assert heads[..] == old(heads[..])[c := EMPTY];
    }

    /** heap_destroy: every page of this heap is given back or abandoned with its blocks; no other page is touched. */
    method Destroy()
      requires Valid()
      modifies this`lists, heads, central, central.pages
      ensures central.Valid() && (forall c: nat :: c < heads.Length ==> heads[c] == EMPTY)
              && (forall q: nat :: !OwnedBy(central.g, id, q))
      ensures Retired(old(central.g.owned), old(central.pages.All()), central.g, central.pages.All(),
                      set q | q in old(central.g.owned) && OwnedBy(old(central.g), id, q))
      ensures SparesOthers(old(View()), View(), id)
    {
      hide ThreadHeap.Sound, CentralHeap.Valid, Headers.Snap, SparesOthers, Shows, Retired, OwnedInUse, Orderly, Good;
      ghost var v, s := View(), central.pages.All();
      Opened();
      ViewShows();
      OwnedUsed();
      TakeApart();
      ViewShows();
      RetiredSpares(v, s, View(), central.pages.All(), id);
    }

    /** The loop over the classes. */
    method TakeApart()
      requires Valid()
      modifies this`lists, heads, central, central.pages
      ensures central.Valid() && (forall c: nat :: c < heads.Length ==> heads[c] == EMPTY)
              && (forall q: nat :: !OwnedBy(central.g, id, q))
      ensures Retired(old(central.g.owned), old(central.pages.All()), central.g, central.pages.All(),
                      set q | q in old(central.g.owned) && OwnedBy(old(central.g), id, q))
    {
      hide Dismantling;
      ghost var b0, s0 := central.g, central.pages.All();
      StartDestroy();
      ghost var done: set<nat> := {};
      var c := 0;
      while c < heads.Length
        invariant 0 <= c <= heads.Length && Dismantling(b0, s0, done) && Slots(heads[..], lists, c)
      {
        done := DestroyClass(c, b0, s0, done);
        c := c + 1;
      }
      EndDestroy(b0, s0, done);
    }

    lemma StartDestroy()
      requires Valid()
      ensures Dismantling(central.g, central.pages.All(), {}) && Slots(heads[..], lists, 0)
    {
      hide Ok;
      InUsePages(central.g);
      OrderlyChains(View(), id, table.size);
      RestChains(View(), Rest(), id, table.size);
      SlotsStart(View(), id, table.size);
    }

    lemma EndDestroy(b0: Books, s0: Snaps, done: set<nat>)
      requires Dismantling(b0, s0, done) && Slots(heads[..], lists, heads.Length)
      ensures central.Valid() && (forall c: nat :: c < heads.Length ==> heads[c] == EMPTY)
              && (forall q: nat :: !OwnedBy(central.g, id, q))
      ensures Retired(b0.owned, s0, central.g, central.pages.All(), set q | q in b0.owned && OwnedBy(b0, id, q))
    {
      hide Retired, Chains, OwnPages, Recorded, Shows;
      forall d: nat | d < |lists| ensures lists[d] == [] && heads[d] == EMPTY { assert heads[d] == heads[..][d]; }
      ViewShows();
      AllRetired(Rest(), id, table.size, b0, s0, central.pages.All(), done);
      assert done == set q | q in b0.owned && OwnedBy(b0, id, q);
    }

    // -------------------------------------------------------------- beside other heaps

    /** A heap of another thread on the same central heap. */
    ghost predicate Neighbour(other: ThreadHeap)
      reads this, other
    {
      other != this && other.heads != heads && other.central == central && other.id != id
    }

    /** What this heap did leaves a neighbour in order, although both work on the same headers and the same central
        books. */
    twostate lemma OtherStays(other: ThreadHeap)
      requires old(other.Valid()) && Neighbour(other) && unchanged(other) && unchanged(other.heads)
      requires central.Valid() && SparesOthers(old(View()), View(), id)
      ensures other.Valid()
    {
      hide CentralHeap.Valid, Orderly, SparesOthers, Good;
      OtherStaysOrderly(old(View()), View(), id, old(other.View()), other.View(), other.id, other.table.size);
    }

    method MallocBeside(other: ThreadHeap, n: nat, answer: nat) returns (blk: nat)
      requires Valid() && other.Valid() && Neighbour(other) && n <= SMALL_SIZE_MAX && answer !in central.g.pool
      modifies this`lists, heads, central, central.pages
      ensures Valid() && other.Valid()
      ensures Allocates(old(View()), old(central.pages.All()), View(), central.pages.All(), id, table.size,
                        SizeClass(table, SMALL_SIZE_MAX, n), answer, blk)
    {
      hide ThreadHeap.Sound, CentralHeap.Valid, SparesOthers, Allocates, Orderly, Good;
      blk := Malloc(n, answer);
      Opened();
      OtherStays(other);
    }

    method FreeBeside(other: ThreadHeap, blk: nat)
      requires Valid() && blk < WORD && OwnedBy(central.g, id, PageOf(blk)) && blk in central.pages.HeldOf(PageOf(blk))
      requires other.Valid() && Neighbour(other)
      modifies this`lists, central, central.pages
      ensures Valid() && other.Valid()
      ensures Frees(old(View()), old(central.pages.All()), View(), central.pages.All(), PageOf(blk), blk)
    {
      hide ThreadHeap.Sound, CentralHeap.Valid, SparesOthers, Frees, Orderly, Good;
      Free(blk);
      Opened();
      OtherStays(other);
    }

    method DestroyBeside(other: ThreadHeap)
      requires Valid() && other.Valid() && Neighbour(other)
      modifies this`lists, heads, central, central.pages
      ensures other.Valid() && forall q: nat :: !OwnedBy(central.g, id, q)
    {
      hide ThreadHeap.Sound, CentralHeap.Valid, SparesOthers, Retired, Orderly, Good;
      Destroy();
      OtherStays(other);
    }

    /** A page on a list of an orderly heap is this heap's. */
    lemma Member(c: nat, p: nat, x: nat)
      requires Sound(x) && c < |lists| && p in lists[c]
      ensures c < |table.size| && c < heads.Length && Mine(central.g, id, c, table.size[c], p)
              && p in central.pages.hdr && central.pages.hdr[p].inUse
    {
      hide Ok, ClassOk;
      assert ClassAt(View(), id, table.size, c, x);
      ClassMember(View(), id, table.size, c, x, p);
    }
  }
}
