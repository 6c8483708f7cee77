/**
 Intrusive lists of headers: next and prev fields as maps, null as 0. A doubly-linked list is
 read off as the sequence of its nodes.
 */
module Lists {
  import opened Memory
  import opened Blocks

  type Links = Mem

  ghost predicate BackLink(prev: Links, s: seq<nat>, i: nat)
    requires i < |s|
  {
    Get(prev, s[i]) == if i == 0 then 0 else s[i - 1]
  }

  /** Following next from head visits s, and each node's prev is its predecessor. */
  ghost predicate DList(next: Links, prev: Links, head: nat, s: seq<nat>) {
    IsList(next, head, s) && forall i: nat :: i < |s| ==> BackLink(prev, s, i)
  }

  function Without(s: seq<nat>, i: nat): seq<nat>
    requires i < |s|
  {
    s[..i] + s[i + 1..]
  }

  lemma ListDistinct(next: Links, head: nat, s: seq<nat>)
    requires IsList(next, head, s)
    ensures Distinct(s)
  {
    ListAcyclic(next, head, s);
  }

  lemma DFrame(next: Links, prev: Links, next': Links, prev': Links, head: nat, s: seq<nat>)
    requires DList(next, prev, head, s)
    requires forall x :: x in s ==> Get(next', x) == Get(next, x) && Get(prev', x) == Get(prev, x)
    ensures DList(next', prev', head, s)
  {
    ListFrame(next, next', head, s);
    forall i: nat | i < |s| ensures BackLink(prev', s, i) {
      assert BackLink(prev, s, i);
    }
  }

  /** Links after x is put in front of the list headed by `head`. */
  function PushNext(next: Links, head: nat, x: nat): Links { next[x := head] }

  function PushPrev(prev: Links, head: nat, x: nat): Links {
    var p := prev[x := 0];
    if head != 0 then p[head := x] else p
  }

  lemma PushOk(next: Links, prev: Links, head: nat, s: seq<nat>, x: nat)
    requires DList(next, prev, head, s) && x != 0 && x !in s
    ensures DList(PushNext(next, head, x), PushPrev(prev, head, x), x, [x] + s)
  {
    var next', prev', r := PushNext(next, head, x), PushPrev(prev, head, x), [x] + s;
    ListFrame(next, next', head, s);
    ListPush(next', x, head, s);
    ListDistinct(next, head, s);
    assert s != [] ==> head == s[0] && Link(next, s, 0);
    forall i: nat | i < |r| ensures BackLink(prev', r, i) {
      if i > 0 { assert BackLink(prev, s, i - 1); }
    }
  }

  /** Links after x is taken out. */
  function CutNext(next: Links, prev: Links, x: nat): Links {
    if Get(prev, x) != 0 then next[Get(prev, x) := Get(next, x)] else next
  }

  function CutPrev(next: Links, prev: Links, x: nat): Links {
    if Get(next, x) != 0 then prev[Get(next, x) := Get(prev, x)] else prev
  }

  lemma Neighbours(next: Links, prev: Links, head: nat, s: seq<nat>, i: nat)
    requires DList(next, prev, head, s) && i < |s|
    ensures s[i] != 0 && Get(next, s[i]) == At(s, i + 1) && Get(prev, s[i]) == (if i == 0 then 0 else s[i - 1])
    ensures (i == 0 <==> Get(prev, s[i]) == 0) && (i == 0 <==> head == s[i]) && (i + 1 == |s| <==> Get(next, s[i]) == 0)
  {
    assert Link(next, s, i) && BackLink(prev, s, i);
    assert i > 0 ==> Link(next, s, i - 1);
    assert i + 1 < |s| ==> Link(next, s, i + 1);
    ListDistinct(next, head, s);
  }

  lemma CutOk(next: Links, prev: Links, head: nat, s: seq<nat>, i: nat)
    requires DList(next, prev, head, s) && i < |s|
    ensures DList(CutNext(next, prev, s[i]), CutPrev(next, prev, s[i]), if i == 0 then Get(next, s[i]) else head,
            Without(s, i))
    ensures s[i] !in Without(s, i)
  {
    var x, r := s[i], Without(s, i);
    var next', prev' := CutNext(next, prev, x), CutPrev(next, prev, x);
    Neighbours(next, prev, head, s, i);
    ListDistinct(next, head, s);
    forall j: nat | j < |r| ensures Link(next', r, j) && BackLink(prev', r, j) {
      var k := if j < i then j else j + 1;
      assert r[j] == s[k];
      assert Link(next, s, k) && BackLink(prev, s, k);
    }
  }

  /** Singly-linked removal: the predecessor is pointed past the removed node. */
  lemma SkipOk(next: Links, head: nat, s: seq<nat>, i: nat)
    requires IsList(next, head, s) && 0 < i < |s|
    ensures IsList(next[s[i - 1] := Get(next, s[i])], head, Without(s, i))
  {
    var r, next' := Without(s, i), next[s[i - 1] := Get(next, s[i])];
    ListDistinct(next, head, s);
    assert Link(next, s, i);
    forall j: nat | j < |r| ensures Link(next', r, j) {
      var k := if j < i then j else j + 1;
      assert r[j] == s[k];
      assert Link(next, s, k);
    }
  }

  /** Singly-linked removal of node j, whose own link disappears. */
  function DropLinks(next: Links, s: seq<nat>, j: nat): Links
    requires j < |s|
  {
    (if j == 0 then next else next[s[j - 1] := Get(next, s[j])]) - {s[j]}
  }

  lemma DropOk(next: Links, head: nat, s: seq<nat>, j: nat)
    requires IsList(next, head, s) && j < |s|
    ensures IsList(DropLinks(next, s, j), if j == 0 then Get(next, s[j]) else head, Without(s, j))
  {
    ListDistinct(next, head, s);
    WithoutHas(s, j);
    assert Link(next, s, j);
    if j == 0 {
      ListPop(next, head, s);
      assert Without(s, 0) == s[1..];
      ListFrame(next, DropLinks(next, s, 0), Get(next, s[0]), s[1..]);
    } else {
      SkipOk(next, head, s, j);
      ListFrame(next[s[j - 1] := Get(next, s[j])], DropLinks(next, s, j), head, Without(s, j));
    }
  }

  lemma WithoutHas(s: seq<nat>, i: nat)
    requires i < |s| && Distinct(s)
    ensures Distinct(Without(s, i)) && forall x :: x in Without(s, i) <==> x in s && x != s[i]
  {
    var r := Without(s, i);
    forall x | x in s && x != s[i] ensures x in r {
      var j :| 0 <= j < |s| && s[j] == x;
      assert r[if j < i then j else j - 1] == x;
    }
    forall x | x in r ensures x in s && x != s[i] {
      var j :| 0 <= j < |r| && r[j] == x;
      assert s[if j < i then j else j + 1] == x;
    }
  }

  function Elems(s: seq<nat>): set<nat> { set x | x in s }

  lemma {:induction false} ElemsSize(s: seq<nat>)
    requires Distinct(s)
    ensures |Elems(s)| == |s|
  {
    if s != [] {
      var r := s[1..];
      ElemsSize(r);
      assert Elems(s) == Elems(r) + {s[0]};
    } else {
      assert Elems(s) == {};
    }
  }
}
