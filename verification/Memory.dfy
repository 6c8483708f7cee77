/**
 Byte-addressed memory with intrusive free lists. A freed block stores the
 address of the next one in its first eight bytes: the cell at the block's address
 stands for that pointer and the other seven cells are overwritten with it.
 A cell that was never written since its region was mapped reads as zero.
 */
module Memory {

  type Mem = map<nat, nat>

  const LINK_BYTES := 8

  function Get(m: Mem, a: nat): nat {
    if a in m then m[a] else 0
  }

  /** memset(a, 0, n) */
  function Fill(m: Mem, a: nat, n: nat): (r: Mem)
    ensures forall x: nat :: Get(r, x) == if a <= x < a + n then 0 else Get(m, x)
    decreases n
  {
    if n == 0 then m
    else
      var f := Fill(m, a, n - 1);
      var r := f[a + n - 1 := 0];
      assert forall x: nat :: Get(r, x) == if x == a + n - 1 then 0 else Get(f, x);
      r
  }

  /** The client stores one byte. */
  function Poke(m: Mem, a: nat, val: nat): (r: Mem)
    ensures forall x: nat :: Get(r, x) == if x == a then val else Get(m, x)
  {
    m[a := val]
  }

  /** b->next = v */
  function Store(m: Mem, b: nat, v: nat): (r: Mem)
    ensures Get(r, b) == v
    ensures forall x: nat :: !(b <= x < b + LINK_BYTES) ==> Get(r, x) == Get(m, x)
  {
    Fill(m, b + 1, LINK_BYTES - 1)[b := v]
  }

  /** The kernel hands out [lo, hi) filled with zeros. */
  function Clear(m: Mem, lo: nat, hi: nat): (r: Mem)
    ensures forall a: nat :: Get(r, a) == if lo <= a < hi then 0 else Get(m, a)
  {
    map a | a in m && !(lo <= a < hi) :: m[a]
  }

  function At(s: seq<nat>, i: nat): nat {
    if i < |s| then s[i] else 0
  }

  ghost predicate Link(m: Mem, s: seq<nat>, i: nat)
    requires i < |s|
  {
    s[i] != 0 && Get(m, s[i]) == At(s, i + 1)
  }

  /** Following next pointers from `head` visits exactly `s` and then null. */
  ghost predicate IsList(m: Mem, head: nat, s: seq<nat>) {
    head == At(s, 0) && forall i: nat :: i < |s| ==> Link(m, s, i)
  }

  lemma ListFrame(m: Mem, m': Mem, head: nat, s: seq<nat>)
    requires IsList(m, head, s)
    requires forall x :: x in s ==> Get(m', x) == Get(m, x)
    ensures IsList(m', head, s)
  {
    forall i: nat | i < |s| ensures Link(m', s, i) {
      assert Link(m, s, i);
    }
  }

  lemma ListPush(m: Mem, b: nat, head: nat, s: seq<nat>)
    requires IsList(m, head, s) && b != 0 && Get(m, b) == head
    ensures IsList(m, b, [b] + s)
  {
    var r := [b] + s;
    forall i: nat | i < |r| ensures Link(m, r, i) {
      if i > 0 { assert Link(m, s, i - 1); }
    }
  }

  lemma ListPop(m: Mem, head: nat, s: seq<nat>)
    requires IsList(m, head, s) && head != 0
    ensures s != [] && s[0] == head && IsList(m, Get(m, head), s[1..])
  {
    assert Link(m, s, 0);
    var r := s[1..];
    forall i: nat | i < |r| ensures Link(m, r, i) {
      assert Link(m, s, i + 1);
    }
  }

  /** The splice at the end of a collection: the last node of the first list is pointed at the second. */
  lemma ListJoin(m: Mem, m': Mem, h1: nat, s1: seq<nat>, h2: nat, s2: seq<nat>)
    requires IsList(m, h1, s1) && IsList(m, h2, s2) && s1 != []
    requires forall i: nat :: i < |s1| - 1 ==> Get(m', s1[i]) == Get(m, s1[i])
    requires Get(m', s1[|s1| - 1]) == h2
    requires forall x :: x in s2 ==> Get(m', x) == Get(m, x)
    ensures IsList(m', h1, s1 + s2)
  {
    var r := s1 + s2;
    forall i: nat | i < |r| ensures Link(m', r, i) {
      if i < |s1| {
        assert Link(m, s1, i);
      } else {
        assert Link(m, s2, i - |s1|);
      }
    }
  }

  /** The nodes visited are determined by the memory, so a list has only one reading. */
  lemma {:induction false} ListUnique(m: Mem, head: nat, s: seq<nat>, r: seq<nat>)
    requires IsList(m, head, s) && IsList(m, head, r)
    ensures s == r
    decreases |s|
  {
    assert s != [] ==> Link(m, s, 0);
    assert r != [] ==> Link(m, r, 0);
    if s != [] && r != [] {
      ListPop(m, head, s);
      ListPop(m, head, r);
      ListUnique(m, Get(m, head), s[1..], r[1..]);
    }
  }

  lemma {:induction false} ListDrop(m: Mem, head: nat, s: seq<nat>, k: nat)
    requires IsList(m, head, s) && k <= |s|
    ensures IsList(m, At(s, k), s[k..])
  {
    var r := s[k..];
    forall i: nat | i < |r| ensures Link(m, r, i) {
      assert Link(m, s, i + k);
    }
  }

  /** A list that reaches null visits no node twice. */
  lemma ListAcyclic(m: Mem, head: nat, s: seq<nat>)
    requires IsList(m, head, s)
    ensures forall i: nat, j: nat :: i < j < |s| ==> s[i] != s[j]
  {
    forall i: nat, j: nat | i < j < |s| ensures s[i] != s[j] {
      ListDrop(m, head, s, i);
      ListDrop(m, head, s, j);
      if s[i] == s[j] {
        ListUnique(m, s[i], s[i..], s[j..]);
      }
    }
  }
}
