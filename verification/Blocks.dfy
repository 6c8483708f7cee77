/**
 How a page is cut into blocks: block i starts at area + i * size. `Carve` is the
 list-building half of page_extend.
 */
module Blocks {
  import opened Layout
  import opened Memory
  import opened Bits

  /** Block sizes the size-class table produces. */
  predicate GoodSize(size: nat) {
    ALLOC_ALIGN <= size <= SMALL_SIZE_MAX && size % ALLOC_ALIGN == 0
  }

  /** The first n blocks of the given size from `start`. */
  function BlockSeq(start: nat, size: nat, n: nat): seq<nat> {
    seq(n, i requires 0 <= i < n => start + i * size)
  }

  ghost predicate Distinct(s: seq<nat>) {
    forall i, j :: 0 <= i < j < |s| ==> s[i] != s[j]
  }

  lemma {:induction false} DistinctOnce(s: seq<nat>, x: nat)
    requires Distinct(s)
    ensures multiset(s)[x] <= 1
    ensures x in s <==> multiset(s)[x] == 1
  {
    if s != [] {
      var r := s[1..];
      assert s == [s[0]] + r;
      DistinctOnce(r, x);
    }
  }

  lemma DistributeRight(i: nat, j: nat, size: nat)
    ensures (i + j) * size == i * size + j * size
  {
  }

  /** Consecutive blocks do not overlap. */
  lemma BlocksApart(start: nat, size: nat, n: nat, i: nat, j: nat)
    requires i < j < n
    ensures BlockSeq(start, size, n)[i] + size <= BlockSeq(start, size, n)[j]
  {
    DistributeRight(i, j - i, size);
    LeastMultiple(j - i, size);
  }

  lemma BlocksDistinct(start: nat, size: nat, n: nat)
    requires size > 0
    ensures Distinct(BlockSeq(start, size, n))
  {
    forall i, j | 0 <= i < j < n ensures BlockSeq(start, size, n)[i] != BlockSeq(start, size, n)[j] {
      BlocksApart(start, size, n, i, j);
    }
  }

  lemma FitsMultiple(i: nat, n: nat, size: nat, total: nat)
    requires size > 0 && n <= total / size && i < n
    ensures i * size + size <= total
  {
    DistributeRight(i, 1, size);
    assert (i + 1) * size <= n * size by { MulLe(i + 1, n, size); }
    MulLe(n, total / size, size);
  }

  lemma MulLe(a: nat, b: nat, c: nat)
    requires a <= b
    ensures a * c <= b * c
  {
  }

  lemma MulAligned(i: nat, size: nat)
    requires size % ALLOC_ALIGN == 0
    ensures (i * size) % ALLOC_ALIGN == 0
  {
    var q := size / ALLOC_ALIGN;
    assert size == q * ALLOC_ALIGN;
    MulAssoc(i, q, ALLOC_ALIGN);
  }

  lemma PlaceInPage(pid: nat, off: nat, size: nat)
    requires 0 < size && off + size <= PAGE_SIZE && off % ALLOC_ALIGN == 0
    ensures (Area(pid) + off) % ALLOC_ALIGN == 0 && (Area(pid) + off) / PAGE_SIZE == pid
  {
  }

  /** Every block lies inside its page's data area, 16-byte aligned. */
  lemma BlockPlace(pid: nat, size: nat, n: nat, x: nat)
    requires GoodSize(size) && n <= PAGE_SIZE / size
    requires x in BlockSeq(Area(pid), size, n)
    ensures Area(pid) <= x && x + size <= Area(pid) + PAGE_SIZE
    ensures x % ALLOC_ALIGN == 0
    ensures x / PAGE_SIZE == pid
  {
    var i: nat :| i < n && x == BlockSeq(Area(pid), size, n)[i];
    var off := i * size;
    assert off + size <= PAGE_SIZE by { FitsMultiple(i, n, size, PAGE_SIZE); }
    assert off % ALLOC_ALIGN == 0 by { MulAligned(i, size); }
    PlaceInPage(pid, off, size);
  }

  lemma BlocksSplit(start: nat, size: nat, n: nat, k: nat)
    ensures BlockSeq(start, size, n + k) == BlockSeq(start, size, n) + BlockSeq(start + n * size, size, k)
  {
    var s := BlockSeq(start, size, n + k);
    var r := BlockSeq(start, size, n) + BlockSeq(start + n * size, size, k);
    forall i | 0 <= i < n + k ensures s[i] == r[i] {
      if i >= n { DistributeRight(n, i - n, size); }
    }
  }

  /** Blocks carved by one call of page_extend: about 8 KiB worth, at least one, at most what is left. */
  function Batch(size: nat, remaining: nat): (r: nat)
    requires size > 0
    ensures r <= remaining && (remaining > 0 ==> r > 0)
  {
    var b := 8192 / size;
    var b1 := if b == 0 then 1 else b;
    if b1 > remaining then remaining else b1
  }

  /** n blocks are 8 KiB worth of blocks out of those remaining: as many whole ones as fit in 8 KiB, but at least one
      and no more than remain. This fixes n. */
  predicate EightKiB(n: nat, size: nat, remaining: nat) {
    && n <= remaining && (remaining > 0 ==> n >= 1)
    && (n > 1 ==> n * size <= 8192) && (n < remaining ==> (n + 1) * size > 8192)
  }

  lemma BatchMeaning(size: nat, remaining: nat)
    requires size > 0
    ensures EightKiB(Batch(size, remaining), size, remaining)
  {
    var b, n := 8192 / size, Batch(size, remaining);
    assert 8192 == b * size + 8192 % size;
    DistributeRight(b, 1, size);
    if n > 1 { MulLe(n, b, size); }
    if n < remaining { assert n == if b == 0 then 1 else b; }
  }

  lemma EightKiBUnique(n: nat, m: nat, size: nat, remaining: nat)
    requires size > 0 && EightKiB(n, size, remaining) && EightKiB(m, size, remaining)
    ensures n == m
  {
    if n < m { MulLe(n + 1, m, size); }
    if m < n { MulLe(m + 1, n, size); }
  }

  /** Link the blocks, last one first, in front of `head`. */
  function Carve(m: Mem, blocks: seq<nat>, head: nat): (r: Mem)
    decreases |blocks|
  {
    if blocks == [] then m
    else
      var blk := blocks[|blocks| - 1];
      Carve(Store(m, blk, head), blocks[..|blocks| - 1], blk)
  }

  /** Carving touches only the first bytes of the carved blocks and leaves them listed in order before `head`. */
  lemma {:induction false} CarveMeaning(m: Mem, blocks: seq<nat>, head: nat, s: seq<nat>, lo: nat, hi: nat)
    requires IsList(m, head, s) && Distinct(blocks + s)
    requires forall x :: x in s ==> x % ALLOC_ALIGN == 0
    requires forall x :: x in blocks ==> 0 < lo <= x && x + LINK_BYTES <= hi && x % ALLOC_ALIGN == 0
    ensures forall a: nat :: a < lo || hi <= a ==> Get(Carve(m, blocks, head), a) == Get(m, a)
    ensures IsList(Carve(m, blocks, head), At(blocks + [head], 0), blocks + s)
    decreases |blocks|
  {
    if blocks == [] {
      assert blocks + s == s;
    } else {
      var k := |blocks| - 1;
      var blk := blocks[k];
      var m' := Store(m, blk, head);
      var front := blocks[..k];
      assert blk in blocks;
      forall x | x in s ensures Get(m', x) == Get(m, x) {
        var i :| 0 <= i < |s| && s[i] == x;
        assert (blocks + s)[|blocks| + i] == x && (blocks + s)[k] == blk;
      }
      ListFrame(m, m', head, s);
      ListPush(m', blk, head, s);
      assert front + ([blk] + s) == blocks + s;
      forall x | x in front ensures x in blocks {}
      CarveMeaning(m', front, blk, [blk] + s, lo, hi);
      assert At(front + [blk], 0) == At(blocks + [head], 0);
    }
  }
}
