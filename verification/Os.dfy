/**
 The OS memory layer for one caller: over-map and trim, against a model of the kernel in which
 the mapped bytes of the address space are a set. The kernel's answer to a mapping request is an argument.
 */
module Os {
  import opened Bits
  import opened Layout

  predicate Inside(p: nat, size: nat, x: nat) { p <= x < p + size }

  function Range(p: nat, size: nat): set<nat> {
    set x | p <= x < p + size && Inside(p, size, x)
  }

  lemma {:induction false} RangeSize(p: nat, size: nat)
    ensures |Range(p, size)| == size
    decreases size
  {
    if size > 0 {
      RangeSize(p, size - 1);
      assert Range(p, size) == Range(p, size - 1) + {p + size - 1};
    } else {
      assert Range(p, 0) == {};
    }
  }

  /** Both the size and the alignment are non-zero multiples of the OS page size and the alignment is a power of two. */
  predicate GoodRequest(size: nat, alignment: nat, ps: nat)
    requires ps > 0
  {
    size > 0 && alignment > 0 && size % ps == 0 && alignment % ps == 0 && IsPow2(alignment)
  }

  /** What the kernel is asked for: one alignment extra unless page alignment is enough. */
  function Request(size: nat, alignment: nat, ps: nat): nat {
    if alignment <= ps then size else size + alignment
  }

  /** The peak after the byte count reached `high` for a moment. */
  predicate Raised(before: nat, after: nat, high: nat) {
    before <= after && high <= after && (after == before || after == high)
  }

  class OsLayer {
    const ps: nat
    ghost var mapped: set<nat>
    var bytesMapped: nat
    var peakMapped: nat

    ghost predicate Valid()
      reads this
    {
      ps > 0 && IsPow2(ps) && bytesMapped == |mapped| && bytesMapped <= peakMapped
    }

    constructor (pageSize: nat)
      requires IsPow2(pageSize)
      ensures Valid() && ps == pageSize && mapped == {}
    {
      ps, mapped, bytesMapped, peakMapped := pageSize, {}, 0, 0;
    }

    /** mmap refuses (0) or answers with a page-aligned range that was not mapped. */
    ghost predicate KernelMayAnswer(answer: nat, size: nat)
      reads this
    {
      answer == 0 || (ps > 0 && answer % ps == 0 && answer + size <= WORD && Range(answer, size) !! mapped)
    }

    method AccountMap(n: nat)
      modifies this`bytesMapped, this`peakMapped
      ensures bytesMapped == old(bytesMapped) + n
      ensures peakMapped == if old(peakMapped) < bytesMapped then bytesMapped else old(peakMapped)
    {
      bytesMapped := bytesMapped + n;
      if bytesMapped > peakMapped { peakMapped := bytesMapped; }
    }

    /** os_alloc_aligned */
    method AllocAligned(size: nat, alignment: nat, answer: nat) returns (p: nat)
      requires Valid() && size < WORD && alignment < WORD && KernelMayAnswer(answer, Request(size, alignment, ps))
      modifies this
      ensures Valid()
      ensures p == 0 <==>
              !GoodRequest(size, alignment, ps) || (alignment > ps && size + alignment >= WORD) || answer == 0
      ensures p == 0 ==> mapped == old(mapped) && bytesMapped == old(bytesMapped) && peakMapped == old(peakMapped)
      ensures p != 0 ==> Raised(old(peakMapped), peakMapped, old(bytesMapped) + Request(size, alignment, ps))
      ensures p != 0 ==> p % alignment == 0 && answer <= p && p + size <= answer + Request(size, alignment, ps)
      ensures p != 0 ==> mapped == old(mapped) + Range(p, size) && Range(p, size) !! old(mapped)
                         && bytesMapped == old(bytesMapped) + size
    {
      hide And, RoundUpWord, IsPow2, Range;
      if size == 0 || alignment == 0 { return 0; }
      PowerTest(alignment);
      if And(alignment, alignment - 1) != 0 { return 0; }
      if size % ps != 0 || alignment % ps != 0 { return 0; }
      if alignment <= ps {
        p := answer;
        if p != 0 {
          mapped := mapped + Range(p, size);
          RangeSize(p, size);
          AccountMap(size);
          Divides(ps, alignment, p);
        }
        return;
      }
      p := OverMap(size, alignment, answer);
    }

    /** The general path: map one alignment too much, unmap what sticks out on both sides. */
    method OverMap(size: nat, alignment: nat, answer: nat) returns (p: nat)
      requires Valid() && 0 < size < WORD && alignment < WORD && IsPow2(alignment)
               && KernelMayAnswer(answer, size + alignment)
      modifies this
      ensures Valid()
      ensures p == 0 <==> size + alignment >= WORD || answer == 0
      ensures p == 0 ==> mapped == old(mapped) && bytesMapped == old(bytesMapped) && peakMapped == old(peakMapped)
      ensures p != 0 ==> Raised(old(peakMapped), peakMapped, old(bytesMapped) + size + alignment)
      ensures p != 0 ==> alignment > 0 && p % alignment == 0 && answer <= p && p + size <= answer + size + alignment
      ensures p != 0 ==> mapped == old(mapped) + Range(p, size) && Range(p, size) !! old(mapped)
                         && bytesMapped == old(bytesMapped) + size
    {
      hide And, RoundUpWord, IsPow2, Range;
      var over := (size + alignment) % WORD;
      Wrap(size, alignment);
      if over < size { return 0; }
      if answer == 0 { return 0; }
      AlignedInside(answer, size, alignment);
      var aligned := RoundUpWord(answer, alignment, WORD_BITS);
      MapAndTrim(answer, over, aligned, size);
      p := aligned;
    }

    /** mmap of the larger range, munmap of both slops, and their accounting. */
    method MapAndTrim(base: nat, over: nat, aligned: nat, size: nat)
      requires Valid() && base <= aligned && aligned + size <= base + over && Range(base, over) !! mapped
      modifies this
      ensures Valid() && mapped == old(mapped) + Range(aligned, size) && Range(aligned, size) !! old(mapped)
      ensures bytesMapped == old(bytesMapped) + size && Raised(old(peakMapped), peakMapped, old(bytesMapped) + over)
    {
      hide Range;
      var head := aligned - base;
      var tail := over - head - size;
      Trim(mapped, base, over, aligned, size);
      DisjointSize(mapped, Range(aligned, size));
      RangeSize(aligned, size);
      mapped := mapped + Range(base, over) - Range(base, head) - Range(aligned + size, tail);
      AccountMap(over);
      bytesMapped := bytesMapped - (head + tail);
    }

    /** os_free */
    method Free(p: nat, size: nat)
      requires Valid() && (p != 0 && size != 0 ==> Range(p, size) <= mapped)
      modifies this
      ensures Valid() && peakMapped == old(peakMapped)
      ensures if p == 0 || size == 0 then mapped == old(mapped) && bytesMapped == old(bytesMapped)
              else mapped == old(mapped) - Range(p, size) && bytesMapped == old(bytesMapped) - size
    {
      if p == 0 || size == 0 { return; }
      RangeSize(p, size);
      assert |mapped - Range(p, size)| == |mapped| - size;
      mapped := mapped - Range(p, size);
      bytesMapped := bytesMapped - size;
    }
  }

  /** Page alignment covers every smaller alignment that is a multiple of the page. */
  lemma Divides(ps: nat, alignment: nat, p: nat)
    requires ps > 0 && 0 < alignment <= ps && alignment % ps == 0 && p % ps == 0
    ensures p % alignment == 0
  {
    if alignment < ps { SmallMod(alignment, ps); }
  }

  /** The sum wraps exactly when it comes out smaller than its first term. */
  lemma Wrap(a: nat, b: nat)
    requires a < WORD && b < WORD
    ensures (a + b) % WORD < a <==> a + b >= WORD
    ensures a + b < WORD ==> (a + b) % WORD == a + b
  {
    if a + b < WORD { SmallMod(a + b, WORD); } else { DivModUnique(a + b, WORD, 1, a + b - WORD); }
  }

  /** The rounded-up address leaves room for `size` bytes inside the larger mapping. */
  lemma AlignedInside(base: nat, size: nat, alignment: nat)
    requires 0 < base && 0 < size && IsPow2(alignment) && base + size + alignment <= WORD
    ensures Pow2(WORD_BITS) == WORD && 0 < alignment <= WORD
    ensures var a := RoundUpWord(base, alignment, WORD_BITS);
            a % alignment == 0 && base <= a < base + alignment
  {
    hide RoundUpWord;
    Powers();
    var k: nat :| k <= alignment && alignment == Pow2(k);
    if k > WORD_BITS { Pow2Monotone(WORD_BITS, k); }
    RoundUpMeaning(base, k, WORD_BITS);
  }

  lemma DisjointSize(a: set<nat>, b: set<nat>)
    requires a !! b
    ensures |a + b| == |a| + |b|
  {
  }

  /** Trimming head and tail keeps exactly the aligned bytes. */
  lemma Trim(mapped: set<nat>, base: nat, over: nat, aligned: nat, size: nat)
    requires base <= aligned && aligned + size <= base + over && Range(base, over) !! mapped
    ensures var head, tail := aligned - base, over - (aligned - base) - size;
            mapped + Range(base, over) - Range(base, head) - Range(aligned + size, tail) == mapped + Range(aligned,
                size)
    ensures Range(aligned, size) !! mapped
  {
    forall x | x in Range(aligned, size) ensures x in Range(base, over) {}
    forall x | x in mapped ensures x !in Range(base, over) {}
  }
}
