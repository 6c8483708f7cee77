/**
 A thread's heap as a value: for every size class the list of the pages this heap owns, the active one first. What it
 means for a heap to be in order, and that each operation on one class keeps it so.
 */
module HeapSpec {
  import opened Layout
  import opened Memory
  import opened Blocks
  import opened Lists
  import opened Machine
  import PageSteps
  import opened PageHeaders
  import opened Books
  import opened CentralSpec

  /** The shared page without blocks that stands in every slot of a fresh heap. It is not part of any segment. */
  const EMPTY := 1

  /** Page p belongs to class c of heap id. */
  ghost predicate Mine(b: Books, id: nat, c: nat, size: nat, p: nat) {
    p in b.owned && p in b.hdr && b.hdr[p].inUse && b.hdr[p].owner == id && b.hdr[p].cls == c
        && b.hdr[p].blockSize == size
  }

  /** Every page but the active one, and x, has blocks out. */
  ghost predicate Working(hdr: map<nat, Page>, l: seq<nat>, x: nat) {
    forall i: nat {:trigger l[i]} :: 0 < i < |l| && l[i] != x && l[i] in hdr ==> hdr[l[i]].used > 0
  }

  ghost predicate ClassOk(b: Books, prev: Links, id: nat, c: nat, size: nat, head: nat, l: seq<nat>, x: nat) {
    && (if l == [] then head == EMPTY else DList(b.next, prev, head, l))
    && (forall p :: p in l ==> Mine(b, id, c, size, p)) && Working(b.hdr, l, x)
  }

  /** What one class needs of the headers is untouched. */
  lemma ClassFrame(b: Books, prev: Links, b': Books, prev': Links, id: nat, c: nat, size: nat, head: nat, l: seq<nat>,
                   x: nat)
    requires ClassOk(b, prev, id, c, size, head, l, x)
    requires forall p :: p in l ==> && p in b'.owned && p in b'.hdr && b'.hdr[p] == b.hdr[p]
                                    && Get(b'.next, p) == Get(b.next, p) && Get(prev', p) == Get(prev, p)
    ensures ClassOk(b', prev', id, c, size, head, l, x)
  {
    if l != [] { DFrame(b.next, prev, b'.next, prev', head, l); }
    forall p | p in l ensures Mine(b', id, c, size, p) { assert Mine(b, id, c, size, p); }
    forall i: nat | 0 < i < |l| && l[i] != x && l[i] in b'.hdr ensures b'.hdr[l[i]].used > 0 { assert l[i] in l; }
  }

  /** A block-level change to one page of the class: the links and its owner stay. */
  lemma ClassPage(b: Books, b': Books, prev: Links, id: nat, c: nat, size: nat, head: nat, l: seq<nat>, x: nat,
                  x': nat, p: nat)
    requires ClassOk(b, prev, id, c, size, head, l, x) && p in b.hdr && p in b'.hdr && b'.next == b.next
             && b'.owned == b.owned
    requires b'.hdr == b.hdr[p := b'.hdr[p]] && SameOwnership(b.hdr[p], b'.hdr[p])
    requires x' == p || (x' == x && (b'.hdr[p].used > 0 || p == x || head == p))
    requires x' == x || x == 0 || x !in l
    ensures ClassOk(b', prev, id, c, size, head, l, x')
  {
    forall q | q in l ensures Mine(b', id, c, size, q) { assert Mine(b, id, c, size, q); }
    if l != [] { Neighbours(b.next, prev, head, l, 0); ListDistinct(b.next, head, l); }
    forall i: nat | 0 < i < |l| && l[i] != x' && l[i] in b'.hdr ensures b'.hdr[l[i]].used > 0 {
      assert l[i] in l;
      Neighbours(b.next, prev, head, l, i);
    }
  }

  /** heap_rotate_to_front on the links: cut node i out, push it in front. */
  ghost function RotNext(next: Links, prev: Links, head: nat, p: nat): Links {
    PushNext(CutNext(next, prev, p), head, p)
  }

  ghost function RotPrev(next: Links, prev: Links, head: nat, p: nat): Links {
    PushPrev(CutPrev(next, prev, p), head, p)
  }

  lemma RotateOk(next: Links, prev: Links, head: nat, l: seq<nat>, i: nat)
    requires DList(next, prev, head, l) && 0 < i < |l|
    ensures DList(RotNext(next, prev, head, l[i]), RotPrev(next, prev, head, l[i]), l[i], [l[i]] + Without(l, i))
    ensures forall q: nat :: q !in l ==> Get(RotNext(next, prev, head, l[i]), q) == Get(next, q)
    ensures forall q: nat :: q !in l ==> Get(RotPrev(next, prev, head, l[i]), q) == Get(prev, q)
  {
    var p := l[i];
    CutOk(next, prev, head, l, i);
    Neighbours(next, prev, head, l, i);
    Neighbours(next, prev, head, l, 0);
    PushOk(CutNext(next, prev, p), CutPrev(next, prev, p), head, Without(l, i), p);
    assert i + 1 < |l| ==> Get(next, p) == l[i + 1];
  }

  lemma HeadOf(b: Books, prev: Links, id: nat, c: nat, size: nat, head: nat, l: seq<nat>, x: nat, i: nat)
    requires ClassOk(b, prev, id, c, size, head, l, x) && i < |l|
    ensures DList(b.next, prev, head, l) && (head == l[i] <==> i == 0) && head == l[0] != 0 && forall p :: p in l ==>
            p in b.hdr
  {
    Neighbours(b.next, prev, head, l, i);
    Neighbours(b.next, prev, head, l, 0);
    forall p | p in l ensures p in b.hdr { assert Mine(b, id, c, size, p); }
  }

  lemma NoNull(b: Books, prev: Links, id: nat, c: nat, size: nat, head: nat, l: seq<nat>, x: nat)
    requires ClassOk(b, prev, id, c, size, head, l, x)
    ensures 0 !in l
  {
    forall i: nat | i < |l| ensures l[i] != 0 { Neighbours(b.next, prev, head, l, i); }
  }

  // ---------------------------------------------------------------- a whole heap

  /** A thread heap at one moment: its slots, the lists they start, and the page headers. */
  datatype HeapView = HeapView(b: Books, prev: Links, heads: seq<nat>, lists: seq<seq<nat>>)

  ghost predicate OwnedBy(b: Books, id: nat, q: nat) { q in b.owned && q in b.hdr && b.hdr[q].owner == id }

  ghost predicate ClassAt(v: HeapView, id: nat, sizes: seq<nat>, c: nat, x: nat) {
    && c < |v.heads| && c < |v.lists| && c < |sizes|
    && ClassOk(v.b, v.prev, id, c, sizes[c], v.heads[c], v.lists[c], x)
  }

  /** Every page the heap owns is on the list of its class. */
  ghost predicate Home(v: HeapView, id: nat, q: nat) {
    OwnedBy(v.b, id, q) ==> v.b.hdr[q].cls < |v.lists| && q in v.lists[v.b.hdr[q].cls]
  }

  /** The heap is in order, except that x may have no block out although it is not active. */
  ghost predicate Orderly(v: HeapView, id: nat, sizes: seq<nat>, x: nat) {
    && |v.heads| == |v.lists| == |sizes|
    && (forall c: nat {:trigger ClassAt(v, id, sizes, c, x)} :: c < |sizes| ==> ClassAt(v, id, sizes, c, x))
    && (forall q: nat {:trigger Home(v, id, q)} :: Home(v, id, q))
  }

  lemma OrderlyShape(v: HeapView, id: nat, sizes: seq<nat>, x: nat)
    requires Orderly(v, id, sizes, x)
    ensures |v.heads| == |v.lists| == |sizes|
  {
  }

  ghost predicate SamePage(v: HeapView, v': HeapView, q: nat) {
    && q in v'.b.owned && q in v.b.hdr && q in v'.b.hdr && v'.b.hdr[q] == v.b.hdr[q]
    && Get(v'.b.next, q) == Get(v.b.next, q) && Get(v'.prev, q) == Get(v.prev, q)
  }

  /** Class c was rebuilt: only the pages in `touched` changed, and those of them that were this heap's were of class
      c. */
  ghost predicate OnlyClass(v: HeapView, v': HeapView, id: nat, c: nat, touched: set<nat>) {
    && c < |v.lists| == |v.heads| == |v'.lists| == |v'.heads|
    && v'.lists == v.lists[c := v'.lists[c]] && v'.heads == v.heads[c := v'.heads[c]]
    && (forall q: nat {:trigger SamePage(v, v', q)} :: q in v.b.owned && q in v.b.hdr && q !in touched ==>
       SamePage(v, v', q))
    && (forall q: nat :: q in v'.b.owned && q in v'.b.hdr ==> (q in v.b.owned && q in v.b.hdr) || q in touched)
    && (forall q: nat :: q in touched && OwnedBy(v.b, id, q) ==> v.b.hdr[q].cls == c)
  }

  lemma OtherClass(v: HeapView, v': HeapView, id: nat, sizes: seq<nat>, c: nat, d: nat, x: nat, y: nat,
                   touched: set<nat>)
    requires Orderly(v, id, sizes, x) && OnlyClass(v, v', id, c, touched) && d < |sizes| && d != c
    requires x == y || x == 0 || x in v.lists[c]
    ensures ClassAt(v', id, sizes, d, y)
  {
    hide DList;
    assert ClassAt(v, id, sizes, d, x) && ClassAt(v, id, sizes, c, x);
    var l := v.lists[d];
    forall p | p in l ensures SamePage(v, v', p) { assert Mine(v.b, id, d, sizes[d], p); }
    ClassFrame(v.b, v.prev, v'.b, v'.prev, id, d, sizes[d], v.heads[d], l, x);
    NoNull(v.b, v.prev, id, d, sizes[d], v.heads[d], l, x);
    assert x in v.lists[c] ==> Mine(v.b, id, c, sizes[c], x);
    assert x in l ==> Mine(v.b, id, d, sizes[d], x);
  }

  /** If class c is in order again, so is the heap. */
  lemma Rebuilt(v: HeapView, v': HeapView, id: nat, sizes: seq<nat>, c: nat, x: nat, y: nat, touched: set<nat>)
    requires Orderly(v, id, sizes, x) && OnlyClass(v, v', id, c, touched) && ClassAt(v', id, sizes, c, y)
    requires x == y || x == 0 || x in v.lists[c]
    requires forall q: nat :: q in v'.b.owned && (q in v.lists[c] || (q in touched && OwnedBy(v'.b, id, q))) ==>
             q in v'.lists[c]
    ensures Orderly(v', id, sizes, y)
  {
    hide ClassOk;
    forall d: nat | d < |sizes| ensures ClassAt(v', id, sizes, d, y) {
      if d != c { OtherClass(v, v', id, sizes, c, d, x, y, touched); }
    }
    forall q: nat ensures Home(v', id, q) {
      assert Home(v, id, q);
      if OwnedBy(v'.b, id, q) {
        assert q !in touched ==> SamePage(v, v', q);
        if q in v'.lists[c] { ClassMember(v', id, sizes, c, y, q); }
      }
    }
  }

  lemma ClassMember(v: HeapView, id: nat, sizes: seq<nat>, c: nat, x: nat, q: nat)
    requires ClassAt(v, id, sizes, c, x) && q in v.lists[c]
    ensures Mine(v.b, id, c, sizes[c], q)
  {
    hide DList;
  }

  /** A heap retains at most one page without blocks out per class, and that is the active one. */
  lemma OneIdlePage(v: HeapView, id: nat, sizes: seq<nat>, p: nat)
    requires Orderly(v, id, sizes, 0) && OwnedBy(v.b, id, p) && v.b.hdr[p].used == 0
    ensures v.b.hdr[p].cls < |v.heads| && p == v.heads[v.b.hdr[p].cls]
  {
    assert Home(v, id, p);
    var c := v.b.hdr[p].cls;
    assert ClassAt(v, id, sizes, c, 0);
    var i: nat :| i < |v.lists[c]| && v.lists[c][i] == p;
    HeadOf(v.b, v.prev, id, c, sizes[c], v.heads[c], v.lists[c], 0, i);
    NoNull(v.b, v.prev, id, c, sizes[c], v.heads[c], v.lists[c], 0);
  }

  // ---------------------------------------------------------------- what the operations do to it

  /** Blocks of one page of class c moved; its list and owner are as before. */
  lemma StepPage(v: HeapView, h: Page, id: nat, sizes: seq<nat>, c: nat, p: nat, y: nat)
    requires Orderly(v, id, sizes, 0) && c < |sizes| && p in v.lists[c] && p in v.b.hdr && SameOwnership(v.b.hdr[p], h)
    requires y == p || (y == 0 && (h.used > 0 || v.heads[c] == p))
    ensures Orderly(v.(b := v.b.(hdr := v.b.hdr[p := h])), id, sizes, y)
  {
    hide DList;
    var v' := v.(b := v.b.(hdr := v.b.hdr[p := h]));
    assert ClassAt(v, id, sizes, c, 0);
    ClassMember(v, id, sizes, c, 0, p);
    ClassPage(v.b, v'.b, v.prev, id, c, sizes[c], v.heads[c], v.lists[c], 0, y, p);
    assert OnlyClass(v, v', id, c, {p});
    Rebuilt(v, v', id, sizes, c, 0, y, {p});
  }

  /** The page served from goes to the front; the page that was there has blocks out. */
  lemma StepRotate(v: HeapView, id: nat, sizes: seq<nat>, c: nat, p: nat, i: nat)
    requires Orderly(v, id, sizes, p) && c < |sizes| && 0 < i < |v.lists[c]| && v.lists[c][i] == p
    requires v.heads[c] in v.b.hdr && v.b.hdr[v.heads[c]].used > 0
    ensures Orderly(Rotated(v, c, p, i), id, sizes, 0)
  {
    hide DList, RotNext, RotPrev;
    var v', l, head := Rotated(v, c, p, i), v.lists[c], v.heads[c];
    assert ClassAt(v, id, sizes, c, p);
    HeadOf(v.b, v.prev, id, c, sizes[c], head, l, p, i);
    ListDistinct(v.b.next, head, l);
    WithoutHas(l, i);
    RotateOk(v.b.next, v.prev, head, l, i);
    forall q | q in v'.lists[c] ensures Mine(v'.b, id, c, sizes[c], q) { ClassMember(v, id, sizes, c, p, q); }
    RotateWorking(v.b.hdr, l, p, i);
    assert ClassAt(v', id, sizes, c, 0);
    forall q | q in l ensures OwnedBy(v.b, id, q) && v.b.hdr[q].cls == c { ClassMember(v, id, sizes, c, p, q); }
    forall q: nat | q in v.b.owned && q !in Elems(l) && q in v.b.hdr ensures SamePage(v, v', q) {}
    Rebuilt(v, v', id, sizes, c, p, 0, Elems(l));
  }

  lemma SameFront(v: HeapView, id: nat, sizes: seq<nat>, c: nat, i: nat)
    requires Orderly(v, id, sizes, 0) && c < |sizes| && i < |v.lists[c]| && v.lists[c][i] == v.heads[c]
    ensures i == 0 && v.lists[c := [v.heads[c]] + Without(v.lists[c], i)] == v.lists
  {
    assert ClassAt(v, id, sizes, c, 0);
    HeadOf(v.b, v.prev, id, c, sizes[c], v.heads[c], v.lists[c], 0, i);
    assert [v.heads[c]] + Without(v.lists[c], 0) == v.lists[c];
  }

  lemma RotateReady(v: HeapView, id: nat, sizes: seq<nat>, c: nat, p: nat, i: nat)
    requires Orderly(v, id, sizes, p) && c < |sizes| && i < |v.lists[c]| && v.lists[c][i] == p && v.heads[c] != p
    ensures i > 0 && DList(v.b.next, v.prev, v.heads[c], v.lists[c])
    ensures forall q :: q in v.lists[c] ==> q in v.b.hdr && q in v.b.owned
    ensures forall q: nat :: q !in v.lists[c] ==> Get(RotNext(v.b.next, v.prev, v.heads[c], p), q) == Get(v.b.next, q)
    ensures forall q: nat :: q !in v.lists[c] ==> Get(RotPrev(v.b.next, v.prev, v.heads[c], p), q) == Get(v.prev, q)
  {
    hide DList, RotNext, RotPrev;
    var l, head := v.lists[c], v.heads[c];
    assert ClassAt(v, id, sizes, c, p);
    HeadOf(v.b, v.prev, id, c, sizes[c], head, l, p, i);
    RotateOk(v.b.next, v.prev, head, l, i);
    forall q | q in l ensures q in v.b.hdr && q in v.b.owned { ClassMember(v, id, sizes, c, p, q); }
  }

  ghost function Rotated(v: HeapView, c: nat, p: nat, i: nat): HeapView
    requires c < |v.lists| && c < |v.heads| && i < |v.lists[c]|
  {
    v.(b := v.b.(next := RotNext(v.b.next, v.prev, v.heads[c], p)), prev := RotPrev(v.b.next, v.prev, v.heads[c], p),
       heads := v.heads[c := p], lists := v.lists[c := [p] + Without(v.lists[c], i)])
  }

  lemma RotateWorking(hdr: map<nat, Page>, l: seq<nat>, p: nat, i: nat)
    requires 0 < i < |l| && l[i] == p && Distinct(l) && Working(hdr, l, p) && l[0] in hdr && hdr[l[0]].used > 0
    ensures Working(hdr, [p] + Without(l, i), 0)
  {
    var r := [p] + Without(l, i);
    forall j: nat | 0 < j < |r| && r[j] != 0 && r[j] in hdr ensures hdr[r[j]].used > 0 {
      var k := if j - 1 < i then j - 1 else j;
      assert r[j] == l[k];
    }
  }

  /** The list head as a pointer: null when the slot holds the empty page. */
  function Start(head: nat): nat { if head == EMPTY then 0 else head }

  /** A fresh page becomes the active one. */
  ghost function Fronted(v: HeapView, c: nat, np: nat): HeapView
    requires c < |v.lists| && c < |v.heads|
  {
    v.(b := v.b.(next := PushNext(v.b.next, Start(v.heads[c]), np)), prev := PushPrev(v.prev, Start(v.heads[c]), np),
       heads := v.heads[c := np], lists := v.lists[c := [np] + v.lists[c]])
  }

  /** Heap v after it was given page np: nothing else of it changed. */
  ghost predicate Gained(v: HeapView, v1: HeapView, id: nat, sizes: seq<nat>, c: nat, np: nat) {
    && v1.heads == v.heads && v1.lists == v.lists && np !in v.b.owned && v1.b.owned == v.b.owned + {np} && np != 0
    && c < |sizes| && Mine(v1.b, id, c, sizes[c], np)
    && (forall q: nat {:trigger SamePage(v, v1, q)} :: q in v.b.owned && q in v.b.hdr ==> SamePage(v, v1, q))
    && (forall q: nat :: q in v.b.owned && q in v1.b.hdr ==> q in v.b.hdr)
  }

  lemma StepGain(v: HeapView, v1: HeapView, id: nat, sizes: seq<nat>, c: nat, np: nat)
    requires Orderly(v, id, sizes, 0) && Gained(v, v1, id, sizes, c, np) && EMPTY !in v.b.hdr
    requires forall q :: q in v.lists[c] && q in v.b.hdr ==> v.b.hdr[q].used > 0
    ensures Orderly(Fronted(v1, c, np), id, sizes, 0)
  {
    hide DList, PushNext, PushPrev;
    var v', l, head := Fronted(v1, c, np), v.lists[c], v.heads[c];
    assert ClassAt(v, id, sizes, c, 0);
    forall q | q in l ensures Mine(v.b, id, c, sizes[c], q) && SamePage(v, v1, q) {
      ClassMember(v, id, sizes, c, 0, q);
    }
    ClassFrame(v.b, v.prev, v1.b, v1.prev, id, c, sizes[c], head, l, 0);
    StartList(v1.b.next, v1.prev, head, l);
    PushOk(v1.b.next, v1.prev, Start(head), l, np);
    PushTouches(v1.b.next, v1.prev, head, l, np);
    forall q | q in v'.lists[c] ensures Mine(v'.b, id, c, sizes[c], q) {}
    forall i: nat | 0 < i < |[np] + l| && ([np] + l)[i] in v'.b.hdr ensures v'.b.hdr[([np] + l)[i]].used > 0 {
      assert ([np] + l)[i] == l[i - 1] && l[i - 1] in l;
    }
    assert ClassAt(v', id, sizes, c, 0);
    var touched := Elems(l) + {np};
    forall q: nat | q in v.b.owned && q in v.b.hdr && q !in touched ensures SamePage(v, v', q) {
      assert SamePage(v, v1, q);
    }
    Rebuilt(v, v', id, sizes, c, 0, 0, touched);
  }

  /** The empty page lies in no segment. */
  lemma NoEmptyPage(b: Books)
    requires Ok(b, 0)
    ensures EMPTY !in b.hdr
  {
    assert PageHome(b, EMPTY, 0);
    assert SegmentOfPage(EMPTY) == 0;
    assert 0 in b.pool ==> SegAt(b, 0);
  }

  /** What linking a fresh page in front needs. */
  lemma FrontReady(v: HeapView, v1: HeapView, id: nat, sizes: seq<nat>, c: nat, np: nat)
    requires Orderly(v, id, sizes, 0) && Gained(v, v1, id, sizes, c, np) && EMPTY !in v.b.hdr
    ensures c < |v1.heads| && c < |v1.lists| && np in v1.b.hdr && np in v1.b.owned
    ensures var first := Start(v1.heads[c]);
            first != 0 ==> first in v1.b.hdr && first in v1.b.owned && first != np && first in v1.lists[c]
  {
    assert ClassAt(v, id, sizes, c, 0);
    var l := v.lists[c];
    if l != [] {
      HeadOf(v.b, v.prev, id, c, sizes[c], v.heads[c], l, 0, 0);
      ClassMember(v, id, sizes, c, 0, l[0]);
      assert SamePage(v, v1, l[0]);
    }
  }

  lemma StartList(next: Links, prev: Links, head: nat, l: seq<nat>)
    requires if l == [] then head == EMPTY else DList(next, prev, head, l) && EMPTY !in l
    ensures DList(next, prev, Start(head), l)
  {
    if l != [] { Neighbours(next, prev, head, l, 0); }
  }

  lemma PushTouches(next: Links, prev: Links, head: nat, l: seq<nat>, np: nat)
    requires if l == [] then head == EMPTY else DList(next, prev, head, l) && EMPTY !in l
    ensures forall q: nat :: q !in l && q != np ==>
              Get(PushNext(next, Start(head), np), q) == Get(next, q)
                  && Get(PushPrev(prev, Start(head), np), q) == Get(prev, q)
  {
    if l != [] { Neighbours(next, prev, head, l, 0); }
  }

  /** Page p of class c, not the active one, was unlinked and given back. */
  ghost predicate Lost(v: HeapView, v': HeapView, c: nat, p: nat, i: nat) {
    && c < |v.lists| && i < |v.lists[c]| && v.lists[c][i] == p
    && v'.heads == v.heads && v'.lists == v.lists[c := Without(v.lists[c], i)] && v'.b.owned == v.b.owned - {p}
    && (forall q: nat {:trigger KeptCut(v, v', p, q)} :: q in v.b.owned && q in v.b.hdr && q != p ==>
       KeptCut(v, v', p, q))
    && (forall q: nat :: q in v.b.owned && q in v'.b.hdr ==> q in v.b.hdr)
  }

  ghost predicate KeptCut(v: HeapView, v': HeapView, p: nat, q: nat) {
    && q in v.b.hdr && q in v'.b.hdr && v'.b.hdr[q] == v.b.hdr[q]
    && Get(v'.b.next, q) == Get(CutNext(v.b.next, v.prev, p), q)
    && Get(v'.prev, q) == Get(CutPrev(v.b.next, v.prev, p), q)
  }

  lemma StepLose(v: HeapView, v': HeapView, id: nat, sizes: seq<nat>, c: nat, p: nat, i: nat)
    requires Orderly(v, id, sizes, p) && c < |sizes| && Lost(v, v', c, p, i) && i > 0
    ensures Orderly(v', id, sizes, 0)
  {
    hide DList, CutNext, CutPrev;
    var l, head := v.lists[c], v.heads[c];
    var r := Without(l, i);
    assert ClassAt(v, id, sizes, c, p);
    HeadOf(v.b, v.prev, id, c, sizes[c], head, l, p, i);
    ListDistinct(v.b.next, head, l);
    WithoutHas(l, i);
    CutOk(v.b.next, v.prev, head, l, i);
    CutTouches(v.b.next, v.prev, head, l, i);
    forall q | q in r ensures Mine(v'.b, id, c, sizes[c], q) && KeptCut(v, v', p, q) {
      ClassMember(v, id, sizes, c, p, q);
      assert KeptCut(v, v', p, q);
    }
    DFrame(CutNext(v.b.next, v.prev, p), CutPrev(v.b.next, v.prev, p), v'.b.next, v'.prev, head, r);
    LoseWorking(v.b.hdr, v'.b.hdr, l, p, i);
    assert ClassAt(v', id, sizes, c, 0);
    forall q | q in l ensures OwnedBy(v.b, id, q) && v.b.hdr[q].cls == c { ClassMember(v, id, sizes, c, p, q); }
    forall q: nat | q in v.b.owned && q in v.b.hdr && q !in Elems(l) ensures SamePage(v, v', q) {
      assert KeptCut(v, v', p, q);
    }
    Rebuilt(v, v', id, sizes, c, p, 0, Elems(l));
  }

  lemma CutReady(v: HeapView, id: nat, sizes: seq<nat>, c: nat, p: nat, i: nat)
    requires Orderly(v, id, sizes, p) && c < |sizes| && i < |v.lists[c]| && v.lists[c][i] == p && v.heads[c] != p
    ensures i > 0 && DList(v.b.next, v.prev, v.heads[c], v.lists[c]) && p in v.b.owned
    ensures forall q :: q in v.lists[c] ==> q in v.b.hdr && q in v.b.owned
    ensures forall q: nat :: q !in v.lists[c] ==> Get(CutNext(v.b.next, v.prev, p), q) == Get(v.b.next, q)
  {
    hide DList, CutNext, CutPrev;
    var l, head := v.lists[c], v.heads[c];
    assert ClassAt(v, id, sizes, c, p);
    HeadOf(v.b, v.prev, id, c, sizes[c], head, l, p, i);
    CutTouches(v.b.next, v.prev, head, l, i);
    forall q | q in l ensures q in v.b.hdr && q in v.b.owned { ClassMember(v, id, sizes, c, p, q); }
  }

  lemma CutTouches(next: Links, prev: Links, head: nat, l: seq<nat>, i: nat)
    requires DList(next, prev, head, l) && i < |l|
    ensures forall q: nat :: q !in l ==>
            Get(CutNext(next, prev, l[i]), q) == Get(next, q) && Get(CutPrev(next, prev, l[i]), q) == Get(prev, q)
  {
    Neighbours(next, prev, head, l, i);
  }

  lemma LoseWorking(hdr: map<nat, Page>, hdr': map<nat, Page>, l: seq<nat>, p: nat, i: nat)
    requires 0 < i < |l| && l[i] == p && Distinct(l) && Working(hdr, l, p)
    requires forall q :: q in Without(l, i) ==> q in hdr && q in hdr' && hdr'[q] == hdr[q]
    ensures Working(hdr', Without(l, i), 0)
  {
    var r := Without(l, i);
    forall j: nat | 0 < j < |r| && r[j] != 0 && r[j] in hdr' ensures hdr'[r[j]].used > 0 {
      var k := if j < i then j else j + 1;
      assert r[j] == l[k] && r[j] in r;
    }
  }

  /** The pages after the links were replaced: nothing else about them changed. */
  ghost predicate Relinked(s: Snaps, t: Snaps, next: Links, prev: Links) {
    forall q: nat {:trigger t[q]} ::
      s[q].Mapped? ==> t[q].Mapped? && t[q] == s[q].(next := Get(next, q), prev := Get(prev, q))
  }

  /** Every page in use but p is as it was. */
  ghost predicate BusySame(s: Snaps, t: Snaps, p: nat) {
    forall q: nat {:trigger t[q]} :: Busy(s[q]) && q != p ==> t[q] == s[q]
  }

  /** Unlinking p and giving it back loses p and nothing else. */
  lemma LostBy(v: HeapView, v': HeapView, s: Snaps, s': Snaps, t: Snaps, c: nat, p: nat, i: nat)
    requires Shows(v, s) && Shows(v', t) && c < |v.lists| && i < |v.lists[c]| && v.lists[c][i] == p
    requires v'.heads == v.heads && v'.lists == v.lists[c := Without(v.lists[c], i)] && v'.b.owned == v.b.owned - {p}
    requires forall q: nat :: q in v.b.owned ==> InUse(v.b.hdr, q)
    requires Relinked(s, s', CutNext(v.b.next, v.prev, p), CutPrev(v.b.next, v.prev, p)) && BusySame(s', t, p)
    ensures Lost(v, v', c, p, i)
  {
    hide Without, CutNext, CutPrev;
    forall q: nat | q in v.b.owned && q in v.b.hdr && q != p ensures KeptCut(v, v', p, q) {
      assert s[q].Mapped? && s[q].page == v.b.hdr[q];
      assert s'[q].page == s[q].page;
      assert t[q] == s'[q];
    }
  }

  /** Owned pages are in use, and those off the list l have these links already. */
  ghost predicate LinksOff(owned: set<nat>, s: Snaps, l: seq<nat>, next: Links, prev: Links) {
    forall q: nat {:trigger s[q]} :: q in owned ==>
      Busy(s[q]) && (q !in l ==> s[q].next == Get(next, q) && s[q].prev == Get(prev, q))
  }

  lemma CutKept(v: HeapView, s: Snaps, id: nat, sizes: seq<nat>, c: nat, p: nat, i: nat)
    requires Orderly(v, id, sizes, p) && Shows(v, s) && c < |sizes| && i < |v.lists[c]| && v.lists[c][i] == p
    requires forall q: nat :: q in v.b.owned ==> InUse(v.b.hdr, q)
    ensures LinksOff(v.b.owned, s, v.lists[c], CutNext(v.b.next, v.prev, p), CutPrev(v.b.next, v.prev, p))
  {
    hide DList, CutNext, CutPrev;
    assert ClassAt(v, id, sizes, c, p);
    HeadOf(v.b, v.prev, id, c, sizes[c], v.heads[c], v.lists[c], p, i);
    CutTouches(v.b.next, v.prev, v.heads[c], v.lists[c], i);
  }

  lemma KeptLost(owned: set<nat>, s: Snaps, s': Snaps, t: Snaps, next: Links, prev: Links, l: seq<nat>, p: nat)
    requires Relinked(s, s', next, prev) && BusySame(s', t, p) && LinksOff(owned, s, l, next, prev)
    ensures KeptOwn(owned, s, t, l, {p})
  {
    forall q: nat | q in owned && q != p ensures Still(s[q], t[q], q in l) {
      assert Busy(s[q]);
      assert s'[q] == s[q].(next := Get(next, q), prev := Get(prev, q));
      assert t[q] == s'[q];
    }
  }

  // ---------------------------------------------------------------- while another operation holds the central lock

  /** The view and the snapshots are of the same moment. */
  ghost predicate Shows(v: HeapView, s: Snaps) {
    forall q: nat {:trigger s[q]} ::
      && (s[q].Mapped? <==> q in v.b.hdr)
      && (s[q].Mapped? ==> q in v.b.hdr && s[q].page == v.b.hdr[q] && s[q].next == Get(v.b.next, q)
                           && s[q].prev == Get(v.prev, q))
  }

  lemma ShowsSame(v: HeapView, v': HeapView, s: Snaps)
    requires Shows(v, s) && v'.b == v.b && v'.prev == v.prev
    ensures Shows(v', s)
  {
  }

  /** A central operation leaves the pages that are owned alone. */
  lemma OwnedKept(v: HeapView, v1: HeapView, s: Snaps, s1: Snaps)
    requires Shows(v, s) && Shows(v1, s1) && Reclaimed(v.b, v1.b, s, s1)
    requires v.b.owned <= v1.b.owned && forall q :: q in v.b.owned ==> InUse(v.b.hdr, q)
    ensures forall q: nat {:trigger SamePage(v, v1, q)} :: q in v.b.owned && q in v.b.hdr ==> SamePage(v, v1, q)
    ensures AllSame(v.b.owned, s, s1) && AllMapped(v.b.owned, s1)
  {
    hide SamePage, Reclaimed, Shows;
    forall q: nat | q in v.b.owned ensures SamePage(v, v1, q) && s1[q] == s[q] && s1[q].Mapped? {
      PageKept(v, v1, s, s1, q);
    }
  }

  lemma PageKept(v: HeapView, v1: HeapView, s: Snaps, s1: Snaps, q: nat)
    requires Shows(v, s) && Shows(v1, s1) && Reclaimed(v.b, v1.b, s, s1) && q in v.b.owned && q in v1.b.owned
             && InUse(v.b.hdr, q)
    ensures SamePage(v, v1, q) && s1[q] == s[q] && s1[q].Mapped?
  {
    hide Reclaimed;
    assert s[q].Mapped? && s[q].page == v.b.hdr[q];
    ReclaimKeeps(v.b, v1.b, s, s1, q);
    assert s1[q].Mapped? && s1[q].page == v1.b.hdr[q];
  }

  lemma ReclaimKeeps(b: Books, b1: Books, s: Snaps, s1: Snaps, q: nat)
    requires Reclaimed(b, b1, s, s1) && q in b.owned && Busy(s[q])
    ensures s1[q] == s[q]
  {
    hide Filter, SurvivorsOf, Collected, OnlyNext;
  }

  lemma GainedBy(v: HeapView, v1: HeapView, s1: Snaps, id: nat, sizes: seq<nat>, c: nat, np: nat)
    requires Shows(v1, s1) && c < |sizes| && sizes[c] > 0 && s1[np] == NewSnap(sizes[c], c, id) && np != 0
    requires v1.heads == v.heads && v1.lists == v.lists && np !in v.b.owned && v1.b.owned == v.b.owned + {np}
    requires forall q: nat {:trigger SamePage(v, v1, q)} :: q in v.b.owned && q in v.b.hdr ==> SamePage(v, v1, q)
    requires forall q :: q in v.b.owned ==> q in v.b.hdr
    ensures Gained(v, v1, id, sizes, c, np)
  {
    hide SamePage;
    assert s1[np].page == v1.b.hdr[np];
  }

  lemma GainedNew(v: HeapView, v1: HeapView, id: nat, sizes: seq<nat>, c: nat, np: nat)
    requires Gained(v, v1, id, sizes, c, np)
    ensures np !in v.b.owned && v1.lists == v.lists && v1.heads == v.heads && v1.b.owned == v.b.owned + {np}
  {
  }

  lemma StepKeep(v: HeapView, v1: HeapView, id: nat, sizes: seq<nat>, c: nat)
    requires Orderly(v, id, sizes, 0) && c < |sizes| && v1.heads == v.heads && v1.lists == v.lists
             && v1.b.owned == v.b.owned
    requires forall q: nat {:trigger SamePage(v, v1, q)} :: q in v.b.owned && q in v.b.hdr ==> SamePage(v, v1, q)
    requires forall q: nat :: q in v.b.owned && q in v1.b.hdr ==> q in v.b.hdr
    ensures Orderly(v1, id, sizes, 0)
  {
    hide DList;
    assert ClassAt(v, id, sizes, c, 0);
    forall q | q in v.lists[c] ensures SamePage(v, v1, q) { ClassMember(v, id, sizes, c, 0, q); }
    ClassFrame(v.b, v.prev, v1.b, v1.prev, id, c, sizes[c], v.heads[c], v.lists[c], 0);
    Rebuilt(v, v1, id, sizes, c, 0, 0, {});
  }

  // ---------------------------------------------------------------- which page serves an allocation

  /** The position of the first page of l that can serve, or its length. */
  ghost function FirstUsable(l: seq<nat>, s: Snaps): nat {
    if l == [] then 0 else if Spent(s[l[0]]) then 1 + FirstUsable(l[1..], s) else 0
  }

  lemma {:induction false} FirstUsableIs(l: seq<nat>, s: Snaps, i: nat)
    requires i <= |l| && (forall k :: 0 <= k < i ==> Spent(s[l[k]])) && (i < |l| ==> !Spent(s[l[i]]))
    ensures FirstUsable(l, s) == i
  {
    if l != [] && i > 0 {
      assert Spent(s[l[0]]);
      forall k | 0 <= k < i - 1 ensures Spent(s[l[1..][k]]) { assert l[1..][k] == l[k + 1]; }
      FirstUsableIs(l[1..], s, i - 1);
    }
  }

  /** The first i pages of l cannot serve, and have blocks out. */
  ghost predicate SpentUpTo(l: seq<nat>, s: Snaps, b: Books, i: nat) {
    i <= |l| && forall k: nat {:trigger l[k]} :: k < i ==> Spent(s[l[k]]) && l[k] in b.hdr && b.hdr[l[k]].used > 0
  }

  lemma InList(l: seq<nat>, i: nat)
    requires i <= |l| && At(l, i) != 0
    ensures i < |l|
  {
  }

  lemma NotInList(l: seq<nat>, i: nat)
    requires i <= |l| && At(l, i) == 0 && 0 !in l
    ensures i == |l|
  {
  }

  lemma SpentStart(l: seq<nat>, s: Snaps, b: Books)
    ensures SpentUpTo(l, s, b, 0)
  {
  }

  lemma SpentNext(l: seq<nat>, s: Snaps, b: Books, i: nat)
    requires SpentUpTo(l, s, b, i) && i < |l|
    ensures i > 0 ==> l[0] in b.hdr && b.hdr[l[0]].used > 0
    ensures !Spent(s[l[i]]) ==> FirstUsable(l, s) == i
    ensures Spent(s[l[i]]) && l[i] in b.hdr && b.hdr[l[i]].used > 0 ==> SpentUpTo(l, s, b, i + 1)
  {
    if !Spent(s[l[i]]) { FirstUsableIs(l, s, i); }
  }

  /** The active page has a free block. */
  ghost predicate ActiveFree(l: seq<nat>, s: Snaps) { l != [] && HasFree(s[l[0]]) }

  lemma SpentActive(l: seq<nat>, s: Snaps, b: Books, i: nat)
    requires SpentUpTo(l, s, b, i) && i <= |l|
    ensures ActiveFree(l, s) ==> i == 0 && l != []
  {
  }

  lemma SpentAll(l: seq<nat>, s: Snaps, b: Books)
    requires SpentUpTo(l, s, b, |l|)
    ensures FirstUsable(l, s) == |l| && forall q :: q in l ==> q in b.hdr && b.hdr[q].used > 0
  {
    FirstUsableIs(l, s, |l|);
  }

  /** Blocks and counters of the page are as they were; only its place in its list may differ. */
  ghost predicate SameBlocks(a: PageSnap, b: PageSnap) {
    a.Mapped? && b.Mapped? && b.page == a.page && b.free == a.free && b.parked == a.parked
  }

  ghost predicate Still(a: PageSnap, b: PageSnap, listed: bool) {
    if listed then SameBlocks(a, b) else b == a
  }

  /** Pages off the list l are exactly as they were, and those on it kept their blocks, except the pages in skip. */
  ghost predicate Undisturbed(s: Snaps, t: Snaps, l: seq<nat>, skip: set<nat>) {
    forall q: nat {:trigger t[q]} :: s[q].Mapped? && q !in skip ==> Still(s[q], t[q], q in l)
  }

  lemma ServeFrame(s: Snaps, t: Snaps, u: Snaps, l: seq<nat>, p: nat)
    requires Undisturbed(s, t, l, {}) && OnlyAt(t, u, p)
    ensures Undisturbed(s, u, l, {p})
  {
    forall q: nat | s[q].Mapped? && q != p ensures Still(s[q], u[q], q in l) {
      assert u[q] == t[q];
      assert Still(s[q], t[q], q in l);
    }
  }

  lemma CapacityPositive(size: nat)
    requires GoodSize(size)
    ensures PAGE_SIZE / size > 0
  {
    assert PAGE_SIZE == PAGE_SIZE / size * size + PAGE_SIZE % size;
  }

  /** No page is available, no abandoned page has drained, and the kernel refuses. */
  ghost predicate NothingLeft(b: Books, s: Snaps, answer: nat) {
    b.avail == [] && !AnyDrained(b.aband, s) && answer == 0
  }

  /** Pages that were owned keep their blocks, and those off the list l their links too. */
  ghost predicate KeptOwn(owned: set<nat>, s: Snaps, t: Snaps, l: seq<nat>, skip: set<nat>) {
    forall q: nat {:trigger t[q]} :: q in owned && q !in skip ==> Still(s[q], t[q], q in l)
  }

  ghost predicate AllMapped(owned: set<nat>, s: Snaps) { forall q: nat {:trigger s[q]} :: q in owned ==> s[q].Mapped? }

  /** All the pages in owned are exactly as they were. */
  ghost predicate AllSame(owned: set<nat>, s: Snaps, t: Snaps) {
    forall q: nat {:trigger t[q]} :: q in owned ==> t[q] == s[q]
  }

  lemma KeptUndisturbed(owned: set<nat>, s: Snaps, t: Snaps, l: seq<nat>, skip: set<nat>)
    requires Undisturbed(s, t, l, skip) && AllMapped(owned, s)
    ensures KeptOwn(owned, s, t, l, skip)
  {
    forall q: nat | q in owned && q !in skip ensures Still(s[q], t[q], q in l) { assert s[q].Mapped?; }
  }

  lemma KeptUnchanged(owned: set<nat>, s: Snaps, t: Snaps, l: seq<nat>)
    requires AllSame(owned, s, t) && AllMapped(owned, t)
    ensures KeptOwn(owned, s, t, l, {})
  {
  }

  lemma KeptLess(owned: set<nat>, s: Snaps, t: Snaps, l: seq<nat>, p: nat)
    requires KeptOwn(owned, s, t, l, {})
    ensures KeptOwn(owned, s, t, l, {p})
  {
  }

  lemma FreshFrame(owned: set<nat>, s: Snaps, t: Snaps, u: Snaps, l: seq<nat>, np: nat)
    requires AllMapped(owned, s) && Undisturbed(s, t, [np] + l, {}) && OnlyAt(t, u, np) && np !in owned
    ensures KeptOwn(owned, s, u, l, {})
  {
    hide SameBlocks;
    forall q: nat | q in owned ensures Still(s[q], u[q], q in l) {
      assert s[q].Mapped?;
      assert Still(s[q], t[q], q in [np] + l);
      assert u[q] == t[q];
    }
  }

  lemma KeptAfter(owned: set<nat>, s: Snaps, t: Snaps, u: Snaps, l: seq<nat>)
    requires AllSame(owned, s, t) && KeptOwn(owned, t, u, l, {})
    ensures KeptOwn(owned, s, u, l, {})
  {
    hide Still;
    forall q: nat | q in owned ensures Still(s[q], u[q], q in l) {
      assert t[q] == s[q];
      assert Still(t[q], u[q], q in l);
    }
  }

  lemma OnlyAtTwice(s: Snaps, t: Snaps, u: Snaps, p: nat)
    requires OnlyAt(s, t, p) && OnlyAt(t, u, p)
    ensures OnlyAt(s, u, p)
  {
    forall q: nat | q != p ensures u[q] == s[q] { assert t[q] == s[q]; }
  }

  /** How a page serves one allocation: it is made available and its first free block, which no client held, is handed
      out. Its place in its list may change on the way. */
  ghost predicate Serves(p: nat, before: PageSnap, after: PageSnap, blk: nat) {
    var ready := Prepared(p, before);
    && ready.Mapped? && ready.free != [] && blk == ready.free[0] && blk != 0 && SameBlocks(Popped(ready), after)
    && blk !in HeldSnap(p, before) && HeldSnap(p, after) == HeldSnap(p, before) + {blk}
  }

  /** Made available, possibly moved in its list, then popped. */
  lemma ServeChain(p: nat, a: PageSnap, b: PageSnap, c: PageSnap, d: PageSnap, blk: nat)
    requires Readies(p, a, b) && SameBlocks(b, c) && Pops(p, c, d, blk)
    ensures Serves(p, a, d, blk) && (c == b ==> d == Popped(Prepared(p, a)))
  {
    hide Prepared;
  }

  lemma PoppedBlock(p: nat, s: PageSnap, t: PageSnap, blk: nat)
    requires Pops(p, s, t, blk)
    ensures blk != 0
  {
  }

  lemma ReadyMapped(p: nat, s: PageSnap, t: PageSnap)
    requires Readies(p, s, t)
    ensures SameBlocks(t, t) && t.Mapped? && t.free != []
  {
  }

  /** A page just acquired, linked in front and then served from. */
  lemma NewServes(s: Snaps, t: Snaps, l: seq<nat>, np: nat, after: PageSnap, size: nat, c: nat, id: nat, blk: nat)
    requires s[np] == NewSnap(size, c, id) && s[np].Mapped? && Undisturbed(s, t, l, {}) && np in l
             && Serves(np, t[np], after, blk)
    ensures Serves(np, NewSnap(size, c, id), after, blk) && HeldSnap(np, after) == {blk} && blk != 0
  {
    hide Serves, Undisturbed, NewSnap;
    assert Still(s[np], t[np], true) by { UndisturbedAt(s, t, l, np); }
    ServesAnywhere(np, s[np], t[np], after, blk);
    NewHeld(np, size, c, id, after, blk);
  }

  lemma UndisturbedAt(s: Snaps, t: Snaps, l: seq<nat>, q: nat)
    requires Undisturbed(s, t, l, {}) && s[q].Mapped?
    ensures Still(s[q], t[q], q in l)
  {
    assert t[q] == t[q];
  }

  lemma NewHeld(np: nat, size: nat, c: nat, id: nat, after: PageSnap, blk: nat)
    requires Serves(np, NewSnap(size, c, id), after, blk)
    ensures HeldSnap(np, after) == {blk} && blk != 0
  {
    hide Prepared, Popped;
    assert HeldSnap(np, NewSnap(size, c, id)) == {};
  }

  lemma PopsServes(p: nat, a: PageSnap, b: PageSnap, blk: nat)
    requires Pops(p, a, b, blk)
    ensures Serves(p, a, b, blk) && b == Popped(a)
  {
  }

  /** Only page headers changed. */
  ghost predicate Reheaded(v: HeapView, v': HeapView) { v' == v.(b := v.b.(hdr := v'.b.hdr)) }

  /** The i-th page of class c was moved to the front. */
  ghost predicate Refronted(v: HeapView, v': HeapView, c: nat, i: nat)
    requires c < |v.lists| && c < |v.heads| && i < |v.lists[c]|
  {
    && v' == v.(b := v.b.(next := v'.b.next), prev := v'.prev,
                heads := v.heads[c := v.lists[c][i]], lists := v.lists[c := [v.lists[c][i]] + Without(v.lists[c], i)])
    && (i == 0 ==> v'.b.next == v.b.next && v'.prev == v.prev)
  }

  /** The i-th page of a class, which has a free block, was moved to the front (v1, t) and popped. */
  lemma ListedServes(v: HeapView, s: Snaps, v1: HeapView, t: Snaps, v': HeapView, s': Snaps, c: nat, i: nat, p: nat,
                     blk: nat)
    requires c < |v.lists| && c < |v.heads| && i < |v.lists[c]| && p == v.lists[c][i] && AllMapped(v.b.owned, s)
    requires s[p].Mapped? && s[p].free != [] && Refronted(v, v1, c, i) && Reheaded(v1, v') && (i == 0 ==> t == s)
    requires Undisturbed(s, t, v.lists[c], {}) && OnlyAt(t, s', p) && Pops(p, t[p], s'[p], blk)
    ensures ServesListed(v, s, v', s', c, i, blk) && blk != 0
  {
    hide AllMapped, OnlyAt, Undisturbed, Pops, KeptOwn, Serves, Without, Prepared, Popped;
    var l := v.lists[c];
    assert p in l;
    PoppedBlock(p, t[p], s'[p], blk);
    ServeFrame(s, t, s', l, p);
    KeptUndisturbed(v.b.owned, s, s', l, {p});
    UndisturbedAt(s, t, l, p);
    ActiveReady(p, s[p]);
    ServeMoved(p, s[p], t[p], s'[p], blk);
  }

  lemma ServeMoved(p: nat, a: PageSnap, b: PageSnap, c: PageSnap, blk: nat)
    requires a.Mapped? && a.free != [] && SameBlocks(a, b) && Pops(p, b, c, blk)
    ensures Serves(p, a, c, blk) && (b == a ==> c == Popped(a))
  {
  }

  /** Making the page available first changes nothing about how it serves. */
  lemma ServesAfter(v: HeapView, s: Snaps, v1: HeapView, t: Snaps, v': HeapView, s': Snaps, c: nat, i: nat, blk: nat)
    requires c < |v.lists| && c < |v.heads| && i < |v.lists[c]| && Reheaded(v, v1) && AllMapped(v.b.owned, s)
    requires OnlyAt(s, t, v.lists[c][i]) && Readies(v.lists[c][i], s[v.lists[c][i]], t[v.lists[c][i]])
    requires ServesListed(v1, t, v', s', c, i, blk)
    ensures ServesListed(v, s, v', s', c, i, blk)
  {
    hide AllMapped, OnlyAt, Readies, KeptOwn, Serves, Without, Prepared, Popped;
    var l, p := v.lists[c], v.lists[c][i];
    KeptTwice(v.b.owned, s, t, s', l, p);
    ServesReady(p, s[p], t[p], s'[p], blk);
    if i == 0 { OnlyAtTwice(s, t, s', p); }
  }

  lemma ServesReady(p: nat, a: PageSnap, b: PageSnap, c: PageSnap, blk: nat)
    requires Readies(p, a, b) && Serves(p, b, c, blk)
    ensures Serves(p, a, c, blk) && Prepared(p, b) == Prepared(p, a)
  {
    hide Fresh, PageSteps.Extended, HeldSnap;
  }

  lemma ReadyOwned(v: HeapView, s: Snaps, v1: HeapView, t: Snaps, p: nat)
    requires Reheaded(v, v1) && AllMapped(v.b.owned, s) && OnlyAt(s, t, p) && Readies(p, s[p], t[p])
    ensures AllMapped(v1.b.owned, t) && v1.lists == v.lists && v1.heads == v.heads
  {
    forall q: nat | q in v.b.owned ensures t[q].Mapped? { assert q != p ==> t[q] == s[q]; assert s[q].Mapped?; }
  }

  /** Where the page is linked does not matter for how it serves. */
  lemma ServesAnywhere(p: nat, a: PageSnap, b: PageSnap, c: PageSnap, blk: nat)
    requires SameBlocks(a, b) && Serves(p, b, c, blk)
    ensures Serves(p, a, c, blk)
  {
    hide Fresh, PageSteps.Extended;
  }

  /** The header and the lists of a page just acquired. */
  ghost function NewSnap(size: nat, c: nat, id: nat): PageSnap {
    if size == 0 then Gone else Mapped(NewPage(size, c, id), 0, 0, [], [])
  }

  /** Class c serves from the i-th page of its list, which comes to the front; all other pages keep their blocks and the
      books change only in that page's header and in the links of this list. The active page serves where it is. */
  ghost predicate ServesListed(v: HeapView, s: Snaps, v': HeapView, s': Snaps, c: nat, i: nat, blk: nat) {
    c < |v.lists| && c < |v.heads| && i < |v.lists[c]| &&
    var l := v.lists[c];
    var p := l[i];
    && v'.lists == v.lists[c := [p] + Without(l, i)] && v'.heads == v.heads[c := p]
    && v'.b == v.b.(hdr := v'.b.hdr, next := v'.b.next)
    && KeptOwn(v.b.owned, s, s', l, {p}) && Serves(p, s[p], s'[p], blk)
    && (i == 0 ==> v'.b.next == v.b.next && v'.prev == v.prev && OnlyAt(s, s', p) && s'[p] == Popped(Prepared(p, s[p])))
  }

  /** Class c serves from a page it did not have, now the active one and stamped with this heap; pages owned before keep
      their blocks, and no other page becomes owned. */
  ghost predicate ServesNew(v: HeapView, s: Snaps, v': HeapView, s': Snaps, id: nat, sizes: seq<nat>, c: nat,
                            blk: nat) {
    c < |v.lists| && c < |v.heads| && c < |sizes| && c < |v'.lists| && v'.lists[c] != [] &&
    var l := v.lists[c];
    var p := v'.lists[c][0];
    && v'.lists == v.lists[c := [p] + l] && v'.heads == v.heads[c := p] && p !in v.b.owned
    && v'.b.owned == v.b.owned + {p}
    && KeptOwn(v.b.owned, s, s', l, {}) && Serves(p, NewSnap(sizes[c], c, id), s'[p], blk)
    && HeldSnap(p, s'[p]) == {blk}
  }

  /** What an allocation from class c does: the first page of its list that can serve does; a fresh page is used only if
      none can; null exactly if that would need a segment the kernel refuses. */
  ghost predicate Allocates(v: HeapView, s: Snaps, v': HeapView, s': Snaps, id: nat, sizes: seq<nat>, c: nat,
                            answer: nat, blk: nat) {
    c < |v.lists| &&
    var l := v.lists[c];
    var i := FirstUsable(l, s);
    && (blk == 0 <==> i == |l| && NothingLeft(v.b, s, answer))
    && if blk == 0 then v'.lists == v.lists && v'.heads == v.heads && v'.b.owned == v.b.owned
    && KeptOwn(v.b.owned, s, s', l, {})
       else if i < |l| then ServesListed(v, s, v', s', c, i, blk)
       else ServesNew(v, s, v', s', id, sizes, c, blk)
  }

  lemma AllocatesListed(v: HeapView, s: Snaps, v': HeapView, s': Snaps, id: nat, sizes: seq<nat>, c: nat, i: nat,
                        answer: nat, blk: nat)
    requires c < |v.lists| && i < |v.lists[c]| && FirstUsable(v.lists[c], s) == i && blk != 0
             && ServesListed(v, s, v', s', c, i, blk)
    ensures Allocates(v, s, v', s', id, sizes, c, answer, blk)
  {
    hide ServesListed, FirstUsable;
  }

  lemma NewServed(v: HeapView, s: Snaps, v': HeapView, s': Snaps, id: nat, sizes: seq<nat>, c: nat, np: nat, blk: nat)
    requires c < |v.lists| && c < |v.heads| && c < |sizes| && np !in v.b.owned && v'.b.owned == v.b.owned + {np}
    requires v'.lists == v.lists[c := [np] + v.lists[c]] && v'.heads == v.heads[c := np]
             && KeptOwn(v.b.owned, s, s', v.lists[c], {})
    requires Serves(np, NewSnap(sizes[c], c, id), s'[np], blk) && HeldSnap(np, s'[np]) == {blk}
    ensures ServesNew(v, s, v', s', id, sizes, c, blk)
  {
    hide KeptOwn, Serves, HeldSnap, NewSnap;
  }

  // ---------------------------------------------------------------- the result is determined

  /** Once some page of the list can serve, nothing is left to choose: any two ways of meeting the specification, such
      as the inline path of heap_malloc and heap_malloc_slow, hand out the same block and leave the same lists, slots
      and pages. When it is the active page, all of the heap, the central books and every page are the same. */
  lemma AllocationDetermined(v: HeapView, s: Snaps, v1: HeapView, s1: Snaps, blk1: nat, v2: HeapView, s2: Snaps,
                             blk2: nat,
                             id: nat, sizes: seq<nat>, c: nat, answer: nat)
    requires Allocates(v, s, v1, s1, id, sizes, c, answer, blk1) && Orderly(v1, id, sizes, 0) && Shows(v1, s1)
    requires Allocates(v, s, v2, s2, id, sizes, c, answer, blk2) && Orderly(v2, id, sizes, 0) && Shows(v2, s2)
    requires FirstUsable(v.lists[c], s) < |v.lists[c]|
    ensures blk1 == blk2 && v1.lists == v2.lists && v1.heads == v2.heads
    ensures forall q: nat {:trigger s1[q]} {:trigger s2[q]} :: q in v.b.owned ==> s1[q] == s2[q]
    ensures FirstUsable(v.lists[c], s) == 0 ==> v1 == v2 && s1 == s2
  {
    hide Orderly, KeptOwn, Serves, Shows, FirstUsable, OnlyAt, Prepared, Popped, HeldSnap, Without, Still;
    var l, i := v.lists[c], FirstUsable(v.lists[c], s);
    ServesDetermined(l[i], s[l[i]], s1[l[i]], blk1, s2[l[i]], blk2);
    forall q: nat | q in v.b.owned ensures s1[q] == s2[q] {
      SameBlocksOf(v, s, v1, s1, blk1, v2, s2, blk2, c, i, q);
      if q in l { ListedSame(v1, s1, v2, s2, id, sizes, c, l, i, q); }
    }
    if i == 0 { OnlyAtSame(s, s1, s2, l[0]); SameBooks(v, v1, s1, v2, s2); }
  }

  lemma ServesDetermined(p: nat, a: PageSnap, b: PageSnap, blk: nat, c: PageSnap, blk': nat)
    requires Serves(p, a, b, blk) && Serves(p, a, c, blk')
    ensures blk == blk' && SameBlocks(b, c)
  {
    hide Prepared, Popped, HeldSnap;
  }

  lemma SameBlocksOf(v: HeapView, s: Snaps, v1: HeapView, s1: Snaps, blk1: nat, v2: HeapView, s2: Snaps, blk2: nat,
                     c: nat, i: nat, q: nat)
    requires ServesListed(v, s, v1, s1, c, i, blk1) && ServesListed(v, s, v2, s2, c, i, blk2) && q in v.b.owned
    ensures if q in v.lists[c] then SameBlocks(s1[q], s2[q]) else s1[q] == s2[q]
  {
    hide Serves, OnlyAt, Without;
    var p := v.lists[c][i];
    assert p in v.lists[c];
    ServesDetermined(p, s[p], s1[p], blk1, s2[p], blk2);
    if q != p { assert Still(s[q], s1[q], q in v.lists[c]) && Still(s[q], s2[q], q in v.lists[c]); }
  }

  /** Two orderly heaps with the same class list have the same links on it. */
  lemma ListedSame(v1: HeapView, s1: Snaps, v2: HeapView, s2: Snaps, id: nat, sizes: seq<nat>, c: nat, l: seq<nat>,
                   i: nat, q: nat)
    requires Orderly(v1, id, sizes, 0) && Orderly(v2, id, sizes, 0) && Shows(v1, s1) && Shows(v2, s2) && c < |v1.lists|
             && c < |v2.lists|
    requires i < |l| && v1.lists[c] == v2.lists[c] == [l[i]] + Without(l, i) && q in l && SameBlocks(s1[q], s2[q])
    ensures s1[q] == s2[q]
  {
    hide Orderly, Shows, Without;
    var r := [l[i]] + Without(l, i);
    var k := MovedTo(l, i, q);
    LinksAt(v1, s1, id, sizes, c, r, k);
    LinksAt(v2, s2, id, sizes, c, r, k);
  }

  lemma MovedTo(l: seq<nat>, i: nat, q: nat) returns (k: nat)
    requires i < |l| && q in l
    ensures k < |[l[i]] + Without(l, i)| && ([l[i]] + Without(l, i))[k] == q
  {
    var j: nat :| j < |l| && l[j] == q;
    k := if j == i then 0 else if j < i then j + 1 else j;
  }

  /** The links a listed page shows are its neighbours on the list. */
  lemma LinksAt(v: HeapView, s: Snaps, id: nat, sizes: seq<nat>, c: nat, r: seq<nat>, k: nat)
    requires Orderly(v, id, sizes, 0) && Shows(v, s) && c < |v.lists| && v.lists[c] == r && k < |r| && s[r[k]].Mapped?
    ensures s[r[k]].next == At(r, k + 1) && s[r[k]].prev == if k == 0 then 0 else r[k - 1]
  {
    hide DList;
    assert ClassAt(v, id, sizes, c, 0);
    Neighbours(v.b.next, v.prev, v.heads[c], r, k);
  }

  lemma OnlyAtSame(s: Snaps, s1: Snaps, s2: Snaps, p: nat)
    requires OnlyAt(s, s1, p) && OnlyAt(s, s2, p) && s1[p] == s2[p]
    ensures s1 == s2
  {
    forall q: nat ensures s1[q] == s2[q] { assert q != p ==> s1[q] == s[q] && s2[q] == s[q]; }
  }

  lemma SameBooks(v: HeapView, v1: HeapView, s1: Snaps, v2: HeapView, s2: Snaps)
    requires Shows(v1, s1) && Shows(v2, s2) && s1 == s2 && v1.lists == v2.lists && v1.heads == v2.heads
    requires v1.b == v.b.(hdr := v1.b.hdr, next := v.b.next) && v2.b == v.b.(hdr := v2.b.hdr, next := v.b.next)
    requires v1.prev == v.prev && v2.prev == v.prev
    ensures v1 == v2
  {
    forall q: nat ensures (q in v1.b.hdr <==> q in v2.b.hdr) && (q in v1.b.hdr ==> v1.b.hdr[q] == v2.b.hdr[q]) {
      assert s1[q] == s2[q];
    }
    assert v1.b.hdr == v2.b.hdr;
  }

  lemma SameList(lists: seq<seq<nat>>, c: nat)
    requires c < |lists| && lists[c] != []
    ensures lists[c := [lists[c][0]] + Without(lists[c], 0)] == lists
  {
    assert [lists[c][0]] + Without(lists[c], 0) == lists[c];
  }

  /** Serving from the active page, which has a free block. */
  lemma AllocatesActive(v: HeapView, s: Snaps, v': HeapView, s': Snaps, id: nat, sizes: seq<nat>, c: nat, answer: nat,
                        blk: nat)
    requires c < |v.lists| && c < |v.heads| && v.lists[c] != [] && v.heads[c] == v.lists[c][0]
    requires s[v.lists[c][0]].Mapped? && s[v.lists[c][0]].free != [] && AllMapped(v.b.owned, s)
    requires Reheaded(v, v')
    requires OnlyAt(s, s', v.lists[c][0]) && Pops(v.lists[c][0], s[v.lists[c][0]], s'[v.lists[c][0]], blk)
    ensures Allocates(v, s, v', s', id, sizes, c, answer, blk)
  {
    hide HeldSnap, AllMapped, OnlyAt, KeptOwn, Serves, Popped, Pops;
    var l := v.lists[c];
    FirstUsableIs(l, s, 0);
    SameList(v.lists, c);
    KeptOnly(v.b.owned, s, s', l, l[0]);
    PopsServes(l[0], s[l[0]], s'[l[0]], blk);
    ServesBlock(l[0], s[l[0]], s'[l[0]], blk);
    ActiveReady(l[0], s[l[0]]);
  }

  lemma ActiveReady(p: nat, s: PageSnap)
    requires s.Mapped? && s.free != []
    ensures Prepared(p, s) == s
  {
  }

  lemma ServesBlock(p: nat, a: PageSnap, b: PageSnap, blk: nat)
    requires Serves(p, a, b, blk)
    ensures blk != 0
  {
  }

  /** What a local free does: the block goes in front of its page's free list and no other block is affected. A page
      that this leaves without blocks out is given back unless it is the active one, and then no client held another
      block of it. */
  ghost predicate Frees(v: HeapView, s: Snaps, v': HeapView, s': Snaps, p: nat, blk: nat) {
    s[p].Mapped? && s[p].page.cls < |v.lists| && s[p].page.cls < |v.heads| &&
    var c := s[p].page.cls;
    && KeptOwn(v.b.owned, s, s', v.lists[c], {p})
    && if s[p].page.used == 1 && v.heads[c] != p then
         HeldSnap(p, s[p]) == {blk} && v'.b.owned == v.b.owned - {p} && Removed(v.lists, v'.lists, c, p)
             && v'.heads == v.heads
       else
         && Reheaded(v, v') && OnlyAt(s, s', p) && s'[p] == Repushed(s[p], blk)
         && HeldSnap(p, s'[p]) == HeldSnap(p, s[p]) - {blk}
  }

  ghost predicate Removed(lists: seq<seq<nat>>, lists': seq<seq<nat>>, c: nat, p: nat)
    requires c < |lists|
  {
    exists i: nat {:trigger lists[c][i]} :: i < |lists[c]| && lists[c][i] == p
        && lists' == lists[c := Without(lists[c], i)]
  }

  lemma KeptOnly(owned: set<nat>, s: Snaps, t: Snaps, l: seq<nat>, p: nat)
    requires OnlyAt(s, t, p) && AllMapped(owned, s)
    ensures KeptOwn(owned, s, t, l, {p})
  {
    forall q: nat | q in owned && q != p ensures Still(s[q], t[q], q in l) { assert t[q] == s[q] && s[q].Mapped?; }
  }

  /** First the block is pushed on page p, then p is given back. */
  lemma KeptTwice(owned: set<nat>, s: Snaps, t: Snaps, u: Snaps, l: seq<nat>, p: nat)
    requires OnlyAt(s, t, p) && KeptOwn(owned, t, u, l, {p})
    ensures KeptOwn(owned, s, u, l, {p})
  {
    hide Still;
    forall q: nat | q in owned && q != p ensures Still(s[q], u[q], q in l) { assert t[q] == s[q] && u[q] == u[q]; }
  }

  /** The block was pushed on page p of class c. */
  ghost predicate BlockPushed(v: HeapView, s: Snaps, t: Snaps, c: nat, p: nat, blk: nat) {
    c < |v.lists| && c < |v.heads| && PushedOn(p, s[p], t[p], blk) && s[p].page.cls == c
  }

  lemma PushedMapped(p: nat, s: PageSnap, t: PageSnap, blk: nat)
    requires PushedOn(p, s, t, blk)
    ensures s.Mapped? && t.Mapped? && t.page.used >= 0 && t.page.used == s.page.used - 1 && t.page.cls == s.page.cls
            && t.page.inUse == s.page.inUse
  {
  }

  lemma FreesStay(v: HeapView, s: Snaps, v': HeapView, t: Snaps, c: nat, p: nat, blk: nat)
    requires BlockPushed(v, s, t, c, p, blk) && (t[p].page.used != 0 || v.heads[c] == p)
    requires KeptOwn(v.b.owned, s, t, v.lists[c], {p}) && Reheaded(v, v') && OnlyAt(s, t, p)
    ensures Frees(v, s, v', t, p, blk)
  {
    hide KeptOwn, HeldSnap;
  }

  lemma FreesGone(v: HeapView, s: Snaps, v': HeapView, t: Snaps, u: Snaps, c: nat, p: nat, blk: nat, i: nat)
    requires BlockPushed(v, s, t, c, p, blk) && t[p].page.used == 0 && v.heads[c] != p
    requires KeptOwn(v.b.owned, s, u, v.lists[c], {p}) && v'.b.owned == v.b.owned - {p}
    requires i < |v.lists[c]| && v.lists[c][i] == p && v'.lists == v.lists[c := Without(v.lists[c], i)]
             && v'.heads == v.heads
    ensures Frees(v, s, v', u, p, blk)
  {
    hide KeptOwn, HeldSnap, Without;
    var h := HeldSnap(p, s[p]);
    assert h == (h - {blk}) + {blk};
  }

  // ---------------------------------------------------------------- taking a heap apart

  /** What is left of class d: pages of this heap, each leading to the next. */
  ghost predicate ChainAt(v: HeapView, id: nat, sizes: seq<nat>, d: nat) {
    d < |v.lists| && d < |sizes| && IsList(v.b.next, At(v.lists[d], 0), v.lists[d]) && forall p :: p in v.lists[d] ==>
        Mine(v.b, id, d, sizes[d], p)
  }

  ghost predicate Chains(v: HeapView, id: nat, sizes: seq<nat>) {
    && |v.lists| == |sizes|
    && (forall d: nat {:trigger ChainAt(v, id, sizes, d)} :: d < |sizes| ==> ChainAt(v, id, sizes, d))
    && (forall q: nat {:trigger Home(v, id, q)} :: Home(v, id, q))
  }

  lemma OrderlyChains(v: HeapView, id: nat, sizes: seq<nat>)
    requires Orderly(v, id, sizes, 0)
    ensures Chains(v, id, sizes)
  {
    forall d: nat | d < |sizes| ensures ChainAt(v, id, sizes, d) { assert ClassAt(v, id, sizes, d, 0); }
  }

  lemma RestChains(v: HeapView, v': HeapView, id: nat, sizes: seq<nat>)
    requires Chains(v, id, sizes) && v' == v.(heads := [])
    ensures Chains(v', id, sizes)
  {
    forall d: nat | d < |sizes| ensures ChainAt(v', id, sizes, d) { assert ChainAt(v, id, sizes, d); }
    forall q: nat ensures Home(v', id, q) { assert Home(v, id, q); }
  }

  /** The first page left of class c goes; every other page is as it was. */
  lemma ChainStep(v: HeapView, v': HeapView, id: nat, sizes: seq<nat>, c: nat, p: nat)
    requires Chains(v, id, sizes) && c < |sizes| && v.lists[c] != [] && p == v.lists[c][0]
    requires v'.lists == v.lists[c := v.lists[c][1..]] && v'.b.owned == v.b.owned - {p}
    requires forall q: nat {:trigger SamePage(v, v', q)} :: q in v.b.owned && q in v.b.hdr && q != p ==>
             SamePage(v, v', q)
    requires forall q: nat :: q in v.b.owned ==> q in v.b.hdr
    ensures Chains(v', id, sizes)
  {
    assert ChainAt(v, id, sizes, c);
    ListDistinct(v.b.next, p, v.lists[c]);
    assert Link(v.b.next, v.lists[c], 0);
    ListPop(v.b.next, p, v.lists[c]);
    forall d: nat | d < |sizes| ensures ChainAt(v', id, sizes, d) {
      assert ChainAt(v, id, sizes, d);
      var r := v'.lists[d];
      forall q | q in r ensures q != p && Mine(v.b, id, d, sizes[d], q) && SamePage(v, v', q) {
        assert Mine(v.b, id, c, sizes[c], p);
        assert Mine(v.b, id, d, sizes[d], q);
        assert d == c ==> exists k :: 0 < k < |v.lists[c]| && v.lists[c][k] == q;
      }
      ListFrame(v.b.next, v'.b.next, At(r, 0), r);
    }
    forall q: nat ensures Home(v', id, q) {
      assert Home(v, id, q);
      if OwnedBy(v'.b, id, q) { assert SamePage(v, v', q); }
    }
  }

  /** A page abandoned with blocks out keeps all of them; those parked were collected. */
  ghost predicate LeftBehind(p: nat, s: PageSnap, t: PageSnap) {
    && s.Mapped? && t.Mapped? && t.page == Collected(s).page.(owner := ABANDONED) && t.free == s.parked + s.free
    && t.parked == []
    && HeldSnap(p, t) == HeldSnap(p, s)
  }

  /** The page's owner became the abandoned tag; its blocks are untouched. */
  ghost predicate Forsakes(p: nat, s: PageSnap, t: PageSnap) {
    && s.Mapped? && t.Mapped? && t.page == s.page.(owner := ABANDONED) && t.free == s.free && t.parked == s.parked
    && HeldSnap(p, t) == HeldSnap(p, s)
  }

  lemma BusyChain(s: Snaps, t: Snaps, u: Snaps, p: nat)
    requires OnlyAt(s, t, p) && BusySame(t, u, p)
    ensures BusySame(s, u, p)
  {
    forall q: nat | Busy(s[q]) && q != p ensures u[q] == s[q] { assert t[q] == s[q]; }
  }

  /** Page q left its heap: for the pool if it had drained, for the abandoned list if not. */
  ghost predicate RetiredPage(q: nat, s: PageSnap, b: Books, t: PageSnap) {
    if Drained(s) then q !in b.aband else q in b.aband && LeftBehind(q, s, t)
  }

  /** Collected and then released, or abandoned, as the count of used blocks says. */
  lemma RetiredEither(p: nat, s: PageSnap, t: PageSnap, u: PageSnap, b: Books)
    requires Busy(s) && t == Collected(s) && HeldSnap(p, t) == HeldSnap(p, s)
    requires if t.page.used == 0 then p !in b.aband else p in b.aband && Forsakes(p, t, u)
    ensures RetiredPage(p, s, b, u)
  {
    hide HeldSnap;
  }

  /** The pages in done left their heap. No other page changed. */
  ghost predicate Retired(owned: set<nat>, s: Snaps, b: Books, t: Snaps, done: set<nat>) {
    && done <= owned && b.owned == owned - done
    && (forall q: nat {:trigger t[q]} :: q in owned && q !in done ==> t[q] == s[q])
    && (forall q: nat {:trigger t[q]} :: q in done ==> RetiredPage(q, s[q], b, t[q]))
  }

  /** Owned and abandoned pages are in use. */
  ghost predicate AllBusy(b: Books, s: Snaps) {
    forall q: nat {:trigger s[q]} :: q in b.owned || q in b.aband ==> Busy(s[q])
  }

  /** The books and the pages before the heap was taken apart. */
  ghost predicate Recorded(b: Books, s: Snaps) {
    forall q: nat {:trigger s[q]} :: q in b.owned ==> q in b.hdr && s[q].Mapped? && s[q].page == b.hdr[q]
  }

  ghost predicate OwnPages(b: Books, id: nat, done: set<nat>) {
    forall q: nat {:trigger OwnedBy(b, id, q)} :: q in done ==> OwnedBy(b, id, q)
  }

  lemma OwnPagesMore(b: Books, id: nat, done: set<nat>, p: nat)
    requires OwnPages(b, id, done) && OwnedBy(b, id, p)
    ensures OwnPages(b, id, done + {p})
  {
  }

  lemma RetiredStep(owned: set<nat>, s: Snaps, b: Books, t: Snaps, b': Books, t': Snaps, done: set<nat>, p: nat)
    requires Retired(owned, s, b, t, done) && p in b.owned && b'.owned == b.owned - {p}
    requires BusySame(t, t', p) && AllBusy(b, t)
    requires RetiredPage(p, t[p], b', t'[p]) && (b'.aband == b.aband || b'.aband == [p] + b.aband)
    ensures Retired(owned, s, b', t', done + {p})
  {
    hide RetiredPage, Busy;
    assert t[p] == s[p];
    forall q: nat | q in owned && q !in done + {p} ensures t'[q] == s[q] { assert t[q] == s[q]; }
    forall q: nat | q in done + {p} ensures RetiredPage(q, s[q], b', t'[q]) {
      if q in done {
        assert RetiredPage(q, s[q], b, t[q]) && (q in b.aband ==> Busy(t[q]));
        RetiredStays(q, s[q], b, t[q], b', t'[q]);
      }
    }
  }

  lemma RetiredStays(q: nat, s: PageSnap, b: Books, t: PageSnap, b': Books, t': PageSnap)
    requires RetiredPage(q, s, b, t) && (q in b'.aband <==> q in b.aband) && (q in b.aband ==> t' == t)
    ensures RetiredPage(q, s, b', t')
  {
  }

  lemma SameByBusy(v: HeapView, v': HeapView, s: Snaps, t: Snaps, p: nat)
    requires Shows(v, s) && Shows(v', t) && BusySame(s, t, p) && v'.b.owned == v.b.owned - {p}
    requires forall q: nat :: q in v.b.owned ==> InUse(v.b.hdr, q)
    ensures forall q: nat {:trigger SamePage(v, v', q)} :: q in v.b.owned && q in v.b.hdr && q != p ==>
            SamePage(v, v', q)
  {
    forall q: nat | q in v.b.owned && q != p ensures SamePage(v, v', q) {
      assert Busy(s[q]);
      assert t[q] == s[q];
    }
  }

  /** Slots below c are empty; the others still start their lists. */
  ghost predicate Slots(heads: seq<nat>, lists: seq<seq<nat>>, c: nat) {
    |heads| == |lists| && forall d: nat {:trigger heads[d]} {:trigger lists[d]} :: d < |heads| ==>
      (d < c ==> lists[d] == []) && heads[d] == if lists[d] == [] then EMPTY else lists[d][0]
  }

  lemma Suffix(lists: seq<seq<nat>>, c: nat, l: seq<nat>, i: nat)
    requires c < |lists| && i < |l|
    ensures l[i..] != [] && l[i..][0] == l[i] && At(l[i..], 1) == At(l, i + 1)
    ensures var now := lists[c := l[i..]]; now[c := now[c][1..]] == lists[c := l[i + 1..]]
  {
    var now := lists[c := l[i..]];
    assert now[c][1..] == l[i + 1..];
  }

  lemma SlotsNext(heads: seq<nat>, lists: seq<seq<nat>>, c: nat)
    requires Slots(heads, lists, c) && c < |heads|
    ensures c < |lists| && heads[c] == (if lists[c] == [] then EMPTY else lists[c][0])
            && Slots(heads[c := EMPTY], lists[c := []], c + 1)
  {
  }

  lemma SlotsStart(v: HeapView, id: nat, sizes: seq<nat>)
    requires Orderly(v, id, sizes, 0)
    ensures Slots(v.heads, v.lists, 0)
  {
    forall d: nat | d < |v.heads| ensures v.heads[d] == if v.lists[d] == [] then EMPTY else v.lists[d][0] {
      assert ClassAt(v, id, sizes, d, 0);
      if v.lists[d] != [] { HeadOf(v.b, v.prev, id, d, sizes[d], v.heads[d], v.lists[d], 0, 0); }
    }
  }

  /** When every list has been worked off, exactly the pages of this heap have left. */
  lemma AllRetired(v: HeapView, id: nat, sizes: seq<nat>, b0: Books, s0: Snaps, t: Snaps, done: set<nat>)
    requires Chains(v, id, sizes) && Shows(v, t) && Retired(b0.owned, s0, v.b, t, done)
             && (forall d: nat :: d < |v.lists| ==> v.lists[d] == [])
    requires OwnPages(b0, id, done) && Recorded(b0, s0)
    ensures forall q: nat :: q in done <==> OwnedBy(b0, id, q)
    ensures forall q: nat :: !OwnedBy(v.b, id, q)
  {
    forall q: nat ensures !OwnedBy(v.b, id, q) && (OwnedBy(b0, id, q) ==> q in done) {
      assert Home(v, id, q);
      assert t[q] == t[q] && s0[q] == s0[q];
    }
  }

  // ---------------------------------------------------------------- other heaps on the same central heap

  /** A page of a heap other than id. */
  ghost predicate Foreign(b: Books, id: nat, q: nat) { q in b.owned && q in b.hdr && b.hdr[q].owner != id }

  /** What heap id does to everybody else's pages: nothing. Each keeps its header and its links, and none appears or
      leaves. */
  ghost predicate SparesOthers(v: HeapView, v': HeapView, id: nat) {
    && (forall q: nat {:trigger SamePage(v, v', q)} :: Foreign(v.b, id, q) ==> SamePage(v, v', q))
    && (forall q: nat {:trigger Foreign(v'.b, id, q)} :: Foreign(v'.b, id, q) ==> Foreign(v.b, id, q))
  }

  /** So any other heap on the same central heap stays in order. */
  lemma OtherStaysOrderly(v: HeapView, v': HeapView, id: nat, w: HeapView, w': HeapView, other: nat, sizes: seq<nat>)
    requires SparesOthers(v, v', id) && Orderly(w, other, sizes, 0) && other != id
    requires w.b == v.b && w.prev == v.prev && w' == w.(b := v'.b, prev := v'.prev)
    ensures Orderly(w', other, sizes, 0)
  {
    hide DList;
    forall q: nat | OwnedBy(w.b, other, q) ensures SamePage(w, w', q) { assert SamePage(v, v', q); }
    forall c: nat | c < |sizes| ensures ClassAt(w', other, sizes, c, 0) {
      assert ClassAt(w, other, sizes, c, 0);
      forall p | p in w.lists[c] ensures SamePage(w, w', p) { ClassMember(w, other, sizes, c, 0, p); }
      ClassFrame(w.b, w.prev, w'.b, w'.prev, other, c, sizes[c], w.heads[c], w.lists[c], 0);
    }
    forall q: nat ensures Home(w', other, q) {
      assert Home(w, other, q);
      if OwnedBy(w'.b, other, q) {
        assert Foreign(v'.b, id, q);
        assert SamePage(v, v', q);
      }
    }
  }

  /** Pages that are owned are in use. */
  ghost predicate OwnedInUse(b: Books) { forall q: nat {:trigger q in b.owned} :: q in b.owned ==> InUse(b.hdr, q) }

  /** A change confined to the heap's own pages: those on the list l, and those in skip. */
  lemma KeptSpares(v: HeapView, s: Snaps, v': HeapView, s': Snaps, id: nat, l: seq<nat>, skip: set<nat>)
    requires Shows(v, s) && Shows(v', s') && OwnedInUse(v.b) && KeptOwn(v.b.owned, s, s', l, skip)
    requires forall q :: q in l ==> OwnedBy(v.b, id, q)
    requires forall q :: q in skip ==> !Foreign(v.b, id, q) && !Foreign(v'.b, id, q)
    requires v.b.owned - skip <= v'.b.owned <= v.b.owned + skip
    ensures SparesOthers(v, v', id)
  {
    forall q: nat | Foreign(v.b, id, q) ensures SamePage(v, v', q) {
      assert s[q].Mapped? && s[q].page == v.b.hdr[q];
      assert Still(s[q], s'[q], q in l);
    }
    forall q: nat | Foreign(v'.b, id, q) ensures Foreign(v.b, id, q) {
      assert s[q].Mapped? && s[q].page == v.b.hdr[q];
      assert Still(s[q], s'[q], q in l);
      assert s'[q].page == v'.b.hdr[q];
    }
  }

  lemma ListedOwn(v: HeapView, id: nat, sizes: seq<nat>, c: nat)
    requires Orderly(v, id, sizes, 0) && c < |v.lists|
    ensures forall q :: q in v.lists[c] ==> OwnedBy(v.b, id, q)
  {
    assert ClassAt(v, id, sizes, c, 0);
    forall q | q in v.lists[c] ensures OwnedBy(v.b, id, q) { ClassMember(v, id, sizes, c, 0, q); }
  }

  lemma PreparedOwner(p: nat, s: PageSnap)
    ensures Prepared(p, s).Mapped? == s.Mapped? && (s.Mapped? ==> Popped(Prepared(p, s)).page.owner == s.page.owner)
  {
    hide Fresh;
  }

  lemma ServedOwner(p: nat, a: PageSnap, b: PageSnap, blk: nat)
    requires Serves(p, a, b, blk)
    ensures a.Mapped? && b.Mapped? && b.page.owner == a.page.owner
  {
    hide Prepared, Popped, HeldSnap;
    PreparedOwner(p, a);
  }

  lemma ListedSpares(v: HeapView, s: Snaps, v': HeapView, s': Snaps, id: nat, sizes: seq<nat>, c: nat, i: nat, blk: nat)
    requires ServesListed(v, s, v', s', c, i, blk) && Orderly(v, id, sizes, 0)
    requires Shows(v, s) && Shows(v', s') && OwnedInUse(v.b)
    ensures SparesOthers(v, v', id)
  {
    hide Orderly, Shows, KeptOwn, Serves, OnlyAt, Without, SparesOthers, OwnedInUse, Prepared, Popped;
    var p := v.lists[c][i];
    assert p in v.lists[c];
    ListedOwn(v, id, sizes, c);
    ServedOwner(p, s[p], s'[p], blk);
    ShownPage(v, s, p);
    ShownPage(v', s', p);
    assert OwnedBy(v.b, id, p) && !Foreign(v.b, id, p) && !Foreign(v'.b, id, p);
    KeptSpares(v, s, v', s', id, v.lists[c], {p});
  }

  lemma NewSpares(v: HeapView, s: Snaps, v': HeapView, s': Snaps, id: nat, sizes: seq<nat>, c: nat, blk: nat)
    requires ServesNew(v, s, v', s', id, sizes, c, blk) && Orderly(v, id, sizes, 0)
    requires Shows(v, s) && Shows(v', s') && OwnedInUse(v.b)
    ensures SparesOthers(v, v', id)
  {
    hide Orderly, Shows, KeptOwn, Serves, SparesOthers, OwnedInUse, HeldSnap;
    var p := v'.lists[c][0];
    ListedOwn(v, id, sizes, c);
    ServedOwner(p, NewSnap(sizes[c], c, id), s'[p], blk);
    ShownPage(v', s', p);
    assert !Foreign(v.b, id, p) && !Foreign(v'.b, id, p);
    KeptLess(v.b.owned, s, s', v.lists[c], p);
    KeptSpares(v, s, v', s', id, v.lists[c], {p});
  }

  /** An allocation leaves every other heap's pages alone. */
  lemma AllocatesSpares(v: HeapView, s: Snaps, v': HeapView, s': Snaps, id: nat, sizes: seq<nat>, c: nat, answer: nat,
                        blk: nat)
    requires Allocates(v, s, v', s', id, sizes, c, answer, blk) && Orderly(v, id, sizes, 0)
    requires Shows(v, s) && Shows(v', s') && OwnedInUse(v.b)
    ensures SparesOthers(v, v', id)
  {
    hide Orderly, Shows, KeptOwn, NothingLeft, SparesOthers, OwnedInUse, ServesListed, ServesNew, FirstUsable;
    var l, i := v.lists[c], FirstUsable(v.lists[c], s);
    if blk == 0 {
      ListedOwn(v, id, sizes, c);
      KeptSpares(v, s, v', s', id, l, {});
    } else if i < |l| {
      ListedSpares(v, s, v', s', id, sizes, c, i, blk);
    } else {
      NewSpares(v, s, v', s', id, sizes, c, blk);
    }
  }

  lemma ShownPage(v: HeapView, s: Snaps, q: nat)
    requires Shows(v, s)
    ensures (s[q].Mapped? <==> q in v.b.hdr) && (s[q].Mapped? ==> s[q].page == v.b.hdr[q])
  {
  }

  lemma FreesOwned(v: HeapView, s: Snaps, v': HeapView, s': Snaps, p: nat, blk: nat)
    requires Frees(v, s, v', s', p, blk)
    ensures v.b.owned - {p} <= v'.b.owned <= v.b.owned + {p}
    ensures s[p].Mapped? && (p in v'.b.owned && s'[p].Mapped? ==> s'[p].page.owner == s[p].page.owner)
    ensures s[p].page.cls < |v.lists| && KeptOwn(v.b.owned, s, s', v.lists[s[p].page.cls], {p})
  {
    hide KeptOwn, OnlyAt, HeldSnap, Removed;
  }

  /** So does a local free, */
  lemma FreesSpares(v: HeapView, s: Snaps, v': HeapView, s': Snaps, id: nat, sizes: seq<nat>, p: nat, blk: nat)
    requires Frees(v, s, v', s', p, blk) && Orderly(v, id, sizes, 0) && OwnedBy(v.b, id, p)
    requires Shows(v, s) && Shows(v', s') && OwnedInUse(v.b)
    ensures SparesOthers(v, v', id)
  {
    hide Orderly, Shows, KeptOwn, SparesOthers, OwnedInUse, Frees;
    FreesOwned(v, s, v', s', p, blk);
    ListedOwn(v, id, sizes, s[p].page.cls);
    ShownPage(v, s, p);
    ShownPage(v', s', p);
    assert OwnedBy(v.b, id, p) && !Foreign(v.b, id, p) && !Foreign(v'.b, id, p);
    KeptSpares(v, s, v', s', id, v.lists[s[p].page.cls], {p});
  }

  /** and so does taking the whole heap apart. */
  lemma RetiredSpares(v: HeapView, s: Snaps, v': HeapView, s': Snaps, id: nat)
    requires Retired(v.b.owned, s, v'.b, s', set q | q in v.b.owned && OwnedBy(v.b, id, q))
    requires Shows(v, s) && Shows(v', s') && OwnedInUse(v.b)
    ensures SparesOthers(v, v', id)
  {
    hide Shows, SparesOthers, RetiredPage;
    var done := set q | q in v.b.owned && OwnedBy(v.b, id, q);
    forall q: nat | q in v.b.owned && q !in done ensures Still(s[q], s'[q], q in []) { assert s'[q] == s[q]; }
    assert KeptOwn(v.b.owned, s, s', [], done);
    KeptSpares(v, s, v', s', id, [], done);
  }
}
