/**
 Geometry of the address space and recovery of metadata from a pointer:
 4 MiB segments aligned to their own size, 64 KiB pages, page 0 of a segment
 holding its header. Addresses are 64-bit words; 0 is the null pointer.
 */
module Layout {
  import opened Bits

  const WORD_BITS := 64
  const WORD: nat := 0x1_0000_0000_0000_0000
  const SEGMENT_SHIFT := 22
  const SEGMENT_SIZE := 0x40_0000
  const PAGE_SHIFT := 16
  const PAGE_SIZE := 0x1_0000
  const PAGES_PER_SEGMENT := 64
  const FIRST_USABLE_PAGE := 1
  const USABLE_PAGES := 63
  const ALLOC_ALIGN := 16
  const SMALL_SIZE_MAX := 0x4000

  /** p & ~SEGMENT_MASK */
  function RegionBase(p: nat): (r: nat) {
    And(p, WORD - SEGMENT_SIZE)
  }

  /** (p & SEGMENT_MASK) >> PAGE_SHIFT */
  function PageIndexOf(p: nat): (r: nat) {
    And(p, SEGMENT_SIZE - 1) / PAGE_SIZE
  }

  /** Pages are numbered through the whole address space; this is the page that
      segment_of and page_of name for a pointer. */
  function PageOf(p: nat): (r: nat) {
    RegionBase(p) / PAGE_SIZE + PageIndexOf(p)
  }

  function SegmentOfPage(pid: nat): (r: nat) { pid / PAGES_PER_SEGMENT }

  function Area(pid: nat): (r: nat) { pid * PAGE_SIZE }

  predicate Usable(pid: nat) { pid % PAGES_PER_SEGMENT != 0 }

  /** What is left of a table over pages when a segment is unmapped. */
  function WithoutSegment<T>(m: map<nat, T>, s: nat): map<nat, T> {
    map p | p in m && SegmentOfPage(p) != s :: m[p]
  }

  lemma Powers()
    ensures Pow2(WORD_BITS) == WORD && Pow2(SEGMENT_SHIFT) == SEGMENT_SIZE && Pow2(PAGE_SHIFT) == PAGE_SIZE
  {
    assert Pow2(4) == 16 && Pow2(6) == 64;
    PowersUp();
  }

  lemma PowersUp()
    requires Pow2(4) == 16 && Pow2(6) == 64
    ensures Pow2(64) == WORD && Pow2(22) == SEGMENT_SIZE && Pow2(16) == PAGE_SIZE
  {
    hide Pow2;
    Pow2Add(4, 4);
    Pow2Add(8, 8);
    Pow2Add(16, 16);
    Pow2Add(32, 32);
    Pow2Add(16, 6);
  }

  /** Masking and shifting a pointer gives the enclosing 4 MiB boundary and the enclosing page. */
  lemma RecoveryMeaning(p: nat)
    requires p < WORD
    ensures RegionBase(p) == p / SEGMENT_SIZE * SEGMENT_SIZE
    ensures PageIndexOf(p) == p % SEGMENT_SIZE / PAGE_SIZE
    ensures PageOf(p) == p / PAGE_SIZE
    ensures SegmentOfPage(PageOf(p)) * SEGMENT_SIZE == RegionBase(p)
  {
    Powers();
    HighMask(p, SEGMENT_SHIFT, WORD_BITS);
    LowMask(p, SEGMENT_SHIFT);
    PageWithin(p);
  }

  lemma PageWithin(p: nat)
    ensures p / SEGMENT_SIZE * SEGMENT_SIZE == p - p % SEGMENT_SIZE
    ensures p / SEGMENT_SIZE * SEGMENT_SIZE / PAGE_SIZE + p % SEGMENT_SIZE / PAGE_SIZE == p / PAGE_SIZE
    ensures p / PAGE_SIZE / PAGES_PER_SEGMENT == p / SEGMENT_SIZE
  {
  }
}
