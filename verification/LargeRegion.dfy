/**
 Sizes of a large allocation's region: where the user pointer goes and how much
 is mapped, in 64-bit arithmetic with the source's overflow tests.
 */
module LargeRegion {
  import opened Bits
  import opened Layout

  /** sizeof(LargeHeader) rounded up to ALLOC_ALIGN. */
  const LARGE_OFFSET := 32

  datatype Plan = Overflow | Plan(offset: nat, mmapSize: nat)

  /** Parameters alloc_large is called with: powers of two up to half a segment, and the OS page size. */
  predicate GoodAlign(align: nat) { align <= SEGMENT_SIZE / 2 && exists k: nat :: k <= 21 && align == Pow2(k) }

  predicate GoodOsPage(ps: nat) { exists k: nat :: 4 <= k <= 22 && ps == Pow2(k) }

  function Offset(align: nat): (r: nat)
    requires 0 < align <= WORD
  {
    Powers();
    if align > ALLOC_ALIGN then RoundUpWord(LARGE_OFFSET, align, WORD_BITS) else LARGE_OFFSET
  }

  function AllocLargePlan(size: nat, align: nat, ps: nat): (r: Plan)
    requires 0 < align <= WORD && 0 < ps <= WORD
  {
    MappingPlan(Offset(align), size, ps)
  }

  function MappingPlan(offset: nat, size: nat, ps: nat): (r: Plan)
    requires 0 < ps <= WORD
  {
    Powers();
    var total := (offset + size) % WORD;
    if total < size then Overflow
    else
      var mmapSize := RoundUpWord(total, ps, WORD_BITS);
      if mmapSize < total then Overflow else Plan(offset, mmapSize)
  }

  lemma PowersSmall(k: nat)
    requires k <= 22
    ensures 0 < Pow2(k) <= SEGMENT_SIZE
  {
    Powers();
    Pow2Monotone(k, 22);
  }

  lemma OffsetLarge(k: nat)
    requires 5 <= k <= 21
    ensures 32 <= Pow2(k) <= SEGMENT_SIZE / 2 && Offset(Pow2(k)) == Pow2(k) && Pow2(k) % ALLOC_ALIGN == 0
  {
    Powers();
    assert Pow2(5) == 32 && Pow2(4) == 16;
    Pow2Monotone(5, k);
    Pow2Monotone(k, 21);
    Pow2Divides(4, k);
    RoundUpMeaning(LARGE_OFFSET, k, WORD_BITS);
    OnlyMultiple(Offset(Pow2(k)), Pow2(k));
  }

  lemma OnlyMultiple(r: nat, a: nat)
    requires a >= 32 && r % a == 0 && 32 <= r < 32 + a
    ensures r == a
  {
    DivModUnique(r - a, a, r / a - 1, 0) by { assert r == r / a * a; Less(r / a, a, r); }
    if r > a { SmallMod(r - a, a); }
  }

  lemma Less(q: nat, a: nat, r: nat)
    requires r == q * a && r > 0
    ensures q >= 1 && (q - 1) * a == r - a && r >= a
  {
  }

  /** The offset is the least multiple of the alignment that clears the header; it stays in the first segment. */
  lemma OffsetMeaning(align: nat)
    requires GoodAlign(align)
    ensures 0 < align <= WORD
    ensures LARGE_OFFSET <= Offset(align) <= SEGMENT_SIZE / 2
    ensures Offset(align) % align == 0 && Offset(align) % ALLOC_ALIGN == 0 && Offset(align) < LARGE_OFFSET + align
  {
    var k: nat :| k <= 21 && align == Pow2(k);
    if k >= 5 {
      OffsetLarge(k);
    } else {
      assert Pow2(0) == 1 && Pow2(1) == 2 && Pow2(2) == 4 && Pow2(3) == 8 && Pow2(4) == 16;
    }
  }

  /** The plan succeeds exactly when header, payload and page rounding fit in a 64-bit word;
      the mapping then holds the header and the payload with less than a page to spare. */
  lemma PlanMeaning(size: nat, align: nat, ps: nat)
    requires GoodAlign(align) && GoodOsPage(ps) && 0 < size < WORD
    ensures 0 < align <= WORD && 0 < ps <= WORD
    ensures AllocLargePlan(size, align, ps).Plan? <==> Offset(align) + size + (ps - 1) < WORD
    ensures AllocLargePlan(size, align, ps).Plan? ==>
              var p := AllocLargePlan(size, align, ps);
              && p.offset == Offset(align)
              && p.offset + size <= p.mmapSize < p.offset + size + ps
              && p.mmapSize % ps == 0
  {
    OffsetMeaning(align);
    var j: nat :| 4 <= j <= 22 && ps == Pow2(j);
    MappingMeaning(Offset(align), size, j);
  }

  /** The user pointer of a planned region: past the header, 16-byte aligned, inside the first segment and the
      mapping. */
  lemma PlanShape(size: nat, align: nat, ps: nat)
    requires GoodAlign(align) && GoodOsPage(ps) && 0 < size < WORD
    ensures 0 < align <= WORD && 0 < ps <= WORD
    ensures AllocLargePlan(size, align, ps).Plan? ==>
              var p := AllocLargePlan(size, align, ps);
              LARGE_OFFSET <= p.offset < SEGMENT_SIZE && p.offset % ALLOC_ALIGN == 0 && p.offset < p.mmapSize
  {
    hide AllocLargePlan, Offset, GoodAlign, GoodOsPage;
    OffsetMeaning(align);
    PlanMeaning(size, align, ps);
  }

  lemma MappingMeaning(offset: nat, size: nat, j: nat)
    requires 0 < offset < WORD && 0 < size < WORD && 4 <= j <= 22
    ensures 0 < Pow2(j) <= WORD
    ensures var p := MappingPlan(offset, size, Pow2(j));
            if offset + size + (Pow2(j) - 1) < WORD
            then p.Plan? && p.offset == offset && p.mmapSize % Pow2(j) == 0 &&
                 offset + size <= p.mmapSize < offset + size + Pow2(j)
            else p.Overflow?
  {
    hide RoundUpWord, Pow2;
    Powers();
    PowersSmall(j);
    var sum := offset + size;
    if sum < WORD {
      SmallMod(sum, WORD);
      RoundUpMeaning(sum, j, WORD_BITS);
    } else {
      DivModUnique(sum, WORD, 1, sum - WORD);
    }
  }
}
