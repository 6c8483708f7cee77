/**
 The public entry points: which path serves a request, with the overflow and alignment
 rules, and what realloc and calloc do to the bytes, under every interleaving.
 */
module Api {
  import opened Bits
  import opened Layout
  import opened Memory
  import opened Blocks
  import opened SizeClasses
  import opened LargeRegion
  import opened Machine
  import opened Invariant
  import opened PageSteps
  import opened BlockActions
  import opened MapActions
  import opened Safety
  import opened Theorems
  import opened Protocol

  /** How a request is served: refused before any allocation, by a block of a size class, or by its own region. */
  datatype Route = Refused | Class(cls: nat) | Region(plan: Plan)

  ghost predicate GoodTable(t: Table) { Good(t, SMALL_SIZE_MAX) }

  /** alloc_large up to the kernel call. */
  function LargeRoute(size: nat, align: nat, ps: nat): Route
    requires 0 < align <= WORD && 0 < ps <= WORD
  {
    var p := AllocLargePlan(size, align, ps);
    if p.Overflow? then Refused else Region(p)
  }

  /** hm_malloc */
  function Malloc(t: Table, size: nat, ps: nat): Route
    requires GoodTable(t) && GoodOsPage(ps) && size < WORD
  {
    OsPageSmall(ps);
    if size == 0 then Refused
    else if size <= SMALL_SIZE_MAX then Class(SizeClass(t, SMALL_SIZE_MAX, size))
    else LargeRoute(size, ALLOC_ALIGN, ps)
  }

  lemma OsPageSmall(ps: nat)
    requires GoodOsPage(ps)
    ensures 0 < ps <= SEGMENT_SIZE
  {
    var k: nat :| 4 <= k <= 22 && ps == Pow2(k);
    PowersSmall(k);
  }

  /** A route that can hold `size` bytes at an address that is a multiple of `align`. */
  ghost predicate Serves(t: Table, r: Route, size: nat, align: nat) {
    match r
    case Refused => true
    case Class(c) => c < |t.size| && t.size[c] >= size && GoodSize(t.size[c])
        && (align > ALLOC_ALIGN ==> t.size[c] % align == 0)
    case Region(p) =>
      && p.Plan? && p.offset + size <= p.mmapSize && (align > 0 ==> p.offset % align == 0)
      && LARGE_OFFSET <= p.offset <= SEGMENT_SIZE / 2
  }

  /** No smaller class and no smaller region would do: the class is the first that is large enough and a multiple of the
      alignment, the offset the first aligned one past the header, the mapping the fewest whole pages. */
  ghost predicate Tight(t: Table, r: Route, size: nat, align: nat, ps: nat) {
    match r
    case Refused => true
    case Class(c) =>
      c < |t.size| && forall d :: 0 <= d < c ==> t.size[d] < size || (align > 0 && t.size[d] % align != 0)
    case Region(p) =>
      p.Plan? && ps > 0 && p.offset < LARGE_OFFSET + align && p.mmapSize % ps == 0 && p.mmapSize < p.offset + size + ps
  }

  lemma AlignSixteen()
    ensures GoodAlign(ALLOC_ALIGN)
  {
    assert Pow2(4) == 16;
  }

  lemma LargeServes(t: Table, size: nat, align: nat, ps: nat)
    requires GoodAlign(align) && GoodOsPage(ps) && 0 < size < WORD
    ensures 0 < align <= WORD && 0 < ps <= WORD
    ensures Serves(t, LargeRoute(size, align, ps), size, align)
            && Tight(t, LargeRoute(size, align, ps), size, align, ps)
    ensures !LargeRoute(size, align, ps).Class?
    ensures LargeRoute(size, align, ps) == Refused <==> Offset(align) + size + (ps - 1) >= WORD
  {
    hide AllocLargePlan, Offset;
    OffsetMeaning(align);
    PlanMeaning(size, align, ps);
  }

  lemma ClassTight(t: Table, c: nat, size: nat)
    requires GoodTable(t) && Fits(t.size, c, size)
    ensures forall d :: 0 <= d < c ==> t.size[d] < size
  {
    forall d: nat | d < c ensures t.size[d] < size { if d < c - 1 { LadderIncreases(t.size, d, c - 1); } }
  }

  /** Every non-zero request is served with enough room and no more than needed, by a class exactly up to 16 KiB, unless
      it overflows the address arithmetic. */
  lemma MallocServes(t: Table, size: nat, ps: nat)
    requires GoodTable(t) && GoodOsPage(ps) && size < WORD
    ensures Serves(t, Malloc(t, size, ps), size, ALLOC_ALIGN) && Tight(t, Malloc(t, size, ps), size, ALLOC_ALIGN, ps)
    ensures Malloc(t, size, ps).Class? <==> 0 < size <= SMALL_SIZE_MAX
    ensures Malloc(t, size, ps) == Refused <==> size == 0 || LARGE_OFFSET + size + (ps - 1) >= WORD
  {
    hide AllocLargePlan;
    OsPageSmall(ps);
    AlignSixteen();
    if 0 < size <= SMALL_SIZE_MAX {
      SmallestFit(t, SMALL_SIZE_MAX, size);
      ClassIsGoodSize(t, SizeClass(t, SMALL_SIZE_MAX, size));
      ClassTight(t, SizeClass(t, SMALL_SIZE_MAX, size), size);
    } else if size > 0 {
      LargeServes(t, size, ALLOC_ALIGN, ps);
    }
  }

  /** hm_calloc */
  function Calloc(t: Table, nmemb: nat, size: nat, ps: nat): Route
    requires GoodTable(t) && GoodOsPage(ps) && nmemb < WORD && size < WORD
  {
    OsPageSmall(ps);
    if nmemb == 0 || size == 0 then Refused
    else if nmemb > (WORD - 1) / size then Refused
    else
      var total := nmemb * size % WORD;
      if total <= SMALL_SIZE_MAX then Class(SizeClass(t, SMALL_SIZE_MAX, total)) else LargeRoute(total, ALLOC_ALIGN, ps)
  }

  /** The division test refuses exactly the products that do not fit in 64 bits; every other product is what hm_malloc
      of that many bytes would be given. */
  lemma CallocIsMallocOfProduct(t: Table, nmemb: nat, size: nat, ps: nat)
    requires GoodTable(t) && GoodOsPage(ps) && nmemb < WORD && size < WORD
    ensures var n: nat := nmemb * size; Calloc(t, nmemb, size, ps) == if n >= WORD then Refused else Malloc(t, n, ps)
  {
    if nmemb > 0 && size > 0 {
      QuotientTest(nmemb, size);
      ProductPositive(nmemb, size);
      if nmemb * size < WORD { SmallMod(nmemb * size, WORD); }
    } else {
      assert nmemb * size == 0;
    }
  }

  lemma QuotientTest(nmemb: nat, size: nat)
    requires nmemb > 0 && size > 0
    ensures nmemb > (WORD - 1) / size <==> nmemb * size >= WORD
  {
    var q := (WORD - 1) / size;
    assert WORD - 1 == q * size + (WORD - 1) % size;
    if nmemb > q {
      MulLe(q + 1, nmemb, size);
      DistributeRight(q, 1, size);
    } else {
      MulLe(nmemb, q, size);
    }
  }

  /** hm_aligned_alloc */
  method AlignedAlloc(t: Table, alignment: nat, size: nat, ps: nat) returns (r: Route)
    requires GoodTable(t) && GoodOsPage(ps) && alignment < WORD && size < WORD
    ensures Serves(t, r, size, alignment)
    ensures Tight(t, r, size, if alignment < ALLOC_ALIGN then ALLOC_ALIGN else alignment, ps)
    ensures r.Class? ==> size <= SMALL_SIZE_MAX && alignment <= SMALL_SIZE_MAX
    ensures r.Region? ==> size > SMALL_SIZE_MAX || alignment > SMALL_SIZE_MAX
    ensures alignment <= ALLOC_ALIGN && r != Refused ==> r == Malloc(t, size, ps)
    ensures r == Refused <==>
              size == 0 || !IsPow2(alignment) || alignment > SEGMENT_SIZE / 2 || RegionOverflows(size, alignment, ps)
  {
    hide AllocLargePlan, Offset, IsPow2, SizeClass, Good, And, Pow2, GoodOsPage;
    if size == 0 { return Refused; }
    if alignment == 0 {
      ZeroNotPow2();
      return Refused;
    }
    PowerTest(alignment);
    if And(alignment, alignment - 1) != 0 { return Refused; }
    if alignment <= ALLOC_ALIGN {
      SmallAlignment(alignment);
      MallocServes(t, size, ps);
      return Malloc(t, size, ps);
    }
    r := OverAligned(t, alignment, size, ps);
  }

  /** The paths for alignments above 16: a class whose blocks are aligned, or a region with an aligned offset. */
  method OverAligned(t: Table, alignment: nat, size: nat, ps: nat) returns (r: Route)
    requires GoodTable(t) && GoodOsPage(ps) && ALLOC_ALIGN < alignment < WORD && IsPow2(alignment) && 0 < size < WORD
    ensures Serves(t, r, size, alignment) && Tight(t, r, size, alignment, ps)
    ensures r.Class? ==> size <= SMALL_SIZE_MAX && alignment <= SMALL_SIZE_MAX
    ensures r.Region? ==> size > SMALL_SIZE_MAX || alignment > SMALL_SIZE_MAX
    ensures r == Refused <==> alignment > SEGMENT_SIZE / 2 || RegionOverflows(size, alignment, ps)
  {
    hide AllocLargePlan, Offset, IsPow2, SizeClass, Good, And, Pow2, GoodOsPage, GoodAlign;
    OsPageSmall(ps);
    var need := if size > alignment then size else alignment;
    if need <= SMALL_SIZE_MAX {
      PowerIsGoodAlign(alignment);
      OffsetMeaning(alignment);
      var c := SearchClass(t, alignment, need);
      SmallerMisfit(t, c, alignment, size, need);
      return Class(c);
    }
    if alignment > SEGMENT_SIZE / 2 { return Refused; }
    PowerIsGoodAlign(alignment);
    LargeServes(t, size, alignment, ps);
    r := LargeRoute(size, alignment, ps);
  }

  /** The region for the request does not fit the 64-bit address arithmetic. */
  predicate RegionOverflows(size: nat, alignment: nat, ps: nat) {
    0 < alignment <= SEGMENT_SIZE / 2 && Offset(alignment) + size + ps > WORD
  }

  lemma ZeroNotPow2()
    ensures !IsPow2(0)
  {
  }

  lemma SmallAlignment(a: nat)
    requires IsPow2(a) && a <= ALLOC_ALIGN
    ensures a > 0 && LARGE_OFFSET % a == 0 && Offset(a) == LARGE_OFFSET
  {
    var k: nat :| k <= a && a == Pow2(k);
    assert Pow2(5) == 32;
    if k >= 5 { Pow2Monotone(5, k); }
    assert Pow2(0) == 1 && Pow2(1) == 2 && Pow2(2) == 4 && Pow2(3) == 8 && Pow2(4) == 16;
  }

  lemma PowerIsGoodAlign(a: nat)
    requires IsPow2(a) && a <= SEGMENT_SIZE / 2
    ensures GoodAlign(a)
  {
    var k: nat :| k <= a && a == Pow2(k);
    Powers();
    if k > 21 { Pow2Monotone(22, k); }
  }

  /** The search for a class whose size is a multiple of the alignment always succeeds: the largest class is one. */
  method SearchClass(t: Table, alignment: nat, need: nat) returns (c: nat)
    requires GoodTable(t) && IsPow2(alignment) && ALLOC_ALIGN < alignment <= need <= SMALL_SIZE_MAX
    ensures c < |t.size| && t.size[c] >= need && t.size[c] % alignment == 0 && GoodSize(t.size[c])
    ensures forall d :: 0 <= d < c ==> t.size[d] < need || t.size[d] % alignment != 0
  {
    hide IsPow2;
    c := SizeClass(t, SMALL_SIZE_MAX, need);
    SmallestFit(t, SMALL_SIZE_MAX, need);
    LimitDivides(alignment);
    ClassTight(t, c, need);
    while c < |t.size| && t.size[c] % alignment != 0
      invariant c < |t.size| && t.size[c] >= need
      invariant forall d :: 0 <= d < c ==> t.size[d] < need || t.size[d] % alignment != 0
      decreases |t.size| - c
    {
      LadderIncreases(t.size, c, c + 1);
      c := c + 1;
    }
    ClassIsGoodSize(t, c);
  }

  /** A class below the alignment is no multiple of it, so the larger of size and alignment may be asked for. */
  lemma SmallerMisfit(t: Table, c: nat, alignment: nat, size: nat, need: nat)
    requires GoodTable(t) && alignment > 0 && c < |t.size| && need == if size > alignment then size else alignment
    requires forall d :: 0 <= d < c ==> t.size[d] < need || t.size[d] % alignment != 0
    ensures forall d :: 0 <= d < c ==> t.size[d] < size || t.size[d] % alignment != 0
  {
    forall d: nat | d < c && t.size[d] < need && t.size[d] >= size ensures t.size[d] % alignment != 0 {
      ClassIsGoodSize(t, d);
      SmallMod(t.size[d], alignment);
    }
  }

  lemma LimitDivides(a: nat)
    requires IsPow2(a) && a <= SMALL_SIZE_MAX
    ensures a > 0 && SMALL_SIZE_MAX % a == 0 && PAGE_SIZE % a == 0
  {
    var k: nat :| k <= a && a == Pow2(k);
    Powers();
    Pow2Add(2, 14);
    assert Pow2(14) == SMALL_SIZE_MAX && Pow2(2) == 4;
    if k > 14 { Pow2Monotone(15, k); }
    Pow2Divides(k, 14);
    Pow2Divides(k, 16);
  }

  // ---------------------------------------------------------------- addresses

  lemma MultipleOf(x: nat, y: nat, a: nat)
    requires a > 0 && x % a == 0 && y % a == 0
    ensures (x + y) % a == 0
  {
    var p, q := x / a, y / a;
    assert x == p * a && y == q * a;
    DistributeRight(p, q, a);
    MulMod(p + q, a);
  }

  lemma MultipleTimes(i: nat, x: nat, a: nat)
    requires a > 0 && x % a == 0
    ensures (i * x) % a == 0
  {
    var p := x / a;
    assert x == p * a;
    MulAssoc(i, p, a);
    MulMod(i * p, a);
  }

  /** Every block of a page whose block size is a multiple of the alignment is aligned. */
  lemma BlockAligned(pid: nat, size: nat, i: nat, a: nat)
    requires IsPow2(a) && a <= SMALL_SIZE_MAX && size % a == 0
    ensures a > 0 && BlockAddress(pid, size, i) % a == 0
  {
    LimitDivides(a);
    MultipleTimes(pid, PAGE_SIZE, a);
    MultipleTimes(i, size, a);
    MultipleOf(pid * PAGE_SIZE, i * size, a);
  }

  /** The user pointer of a planned region is aligned. */
  lemma RegionAligned(base: nat, offset: nat, a: nat)
    requires IsPow2(a) && a <= SEGMENT_SIZE / 2 && base % SEGMENT_SIZE == 0 && a > 0 && offset % a == 0
    ensures (base + offset) % a == 0
  {
    var k: nat :| k <= a && a == Pow2(k);
    Powers();
    if k > 22 { Pow2Monotone(22, k); }
    Pow2Divides(k, 22);
    MultipleTimes(base / SEGMENT_SIZE, SEGMENT_SIZE, a);
    assert base == base / SEGMENT_SIZE * SEGMENT_SIZE;
    MultipleOf(base, offset, a);
  }

  /** A live small pointer in a page of block size `size` is a multiple of every power of two dividing that size. */
  lemma LiveBlockAligned(s: State, p: nat, a: nat)
    requires Reachable(s) && p in s.live && s.live[p].Small? && IsPow2(a) && a <= SMALL_SIZE_MAX && a > 0
             && s.live[p].usable % a == 0
    ensures p % a == 0
  {
    hide Rep, IsPow2;
    var v := ReachableRep(s);
    LiveHome(s, v, p);
    var pid := s.live[p].pid;
    PageFacts(s, v, pid);
    var i := HeldIndex(pid, s.pages[pid], v[pid], s.mem, p);
    BlockAligned(pid, s.live[p].usable, i, a);
  }

  lemma HeldIndex(pid: nat, pg: Page, pv: PageView, m: Mem, x: nat) returns (i: nat)
    requires pg.inUse && PageOk(pid, pg, pv, m) && x in Held(pv)
    ensures i < pg.reserved && x == BlockAddress(pid, pg.blockSize, i)
  {
    assert x in multiset(Carved(pid, pg));
    assert x in Carved(pid, pg);
    i :| 0 <= i < pg.reserved && Carved(pid, pg)[i] == x;
  }

  // ---------------------------------------------------------------- realloc

  datatype ReallocPlan = AsMalloc | AsFree | InPlace | Move(copy: nat)

  /** hm_usable_size of a non-null pointer: what the recovered header says. */
  function UsableSize(s: State, p: nat): nat {
    if RegionBase(p) in s.large then
      var r := s.large[RegionBase(p)];
      if r.offset <= r.size then r.size - r.offset else 0
    else Pg(s, PageOf(p)).blockSize
  }

  /** For every live pointer the recovered size is that of the memory backing it. */
  lemma UsableSizeIsTrue(s: State, p: nat)
    requires Reachable(s) && p in s.live
    ensures UsableSize(s, p) == s.live[p].usable > 0
  {
    hide Rep, RegionBase, PageOf, Reachable;
    LiveRecoverable(s, p);
    var v := ReachableRep(s);
    if s.live[p].Big? { BigPlace(s, v, p); }
  }

  /** Using all of what hm_usable_size reports for one pointer never reaches into another allocation. */
  lemma UsableRangesApart(s: State, p: nat, q: nat)
    requires Reachable(s) && p in s.live && q in s.live && p != q
    ensures p + UsableSize(s, p) <= q || q + UsableSize(s, q) <= p
  {
    hide Reachable, UsableSize;
    UsableSizeIsTrue(s, p);
    UsableSizeIsTrue(s, q);
    LiveDisjoint(s, p, q);
  }

  /** The branches of hm_realloc, given whether the pointer is null and its usable size. */
  function Realloc(isNull: bool, oldUsable: nat, size: nat): ReallocPlan {
    if isNull then AsMalloc
    else if size == 0 then AsFree
    else if size <= oldUsable && (oldUsable <= SMALL_SIZE_MAX || size > oldUsable / 2) then InPlace
    else Move(if size < oldUsable then size else oldUsable)
  }

  /** The thread's stores into the block write the wanted bytes, and nobody else touches it. */
  ghost predicate OnlyFills(acts: seq<Action>, np: nat, want: seq<nat>) {
    forall j :: 0 <= j < |acts| && Touches(acts[j], np) ==> FillsByte(acts[j], want)
  }

  predicate FillsByte(a: Action, want: seq<nat>) {
    a.AWrite? && (a.off < |want| ==> a.val == want[a.off])
  }

  predicate StoresAt(a: Action, np: nat, i: nat) { a.AWrite? && a.p == np && a.off == i }

  ghost predicate StoredIn(acts: seq<Action>, np: nat, i: nat) {
    exists j :: 0 <= j < |acts| && StoresAt(acts[j], np, i)
  }

  /** Byte i is right before the run or stored during it. */
  ghost predicate Covered(s: State, acts: seq<Action>, np: nat, want: seq<nat>, i: nat)
    requires i < |want|
  {
    Get(s.mem, np + i) == want[i] || StoredIn(acts, np, i)
  }

  lemma FillStep(s: State, a: Action, np: nat, want: seq<nat>, i: nat)
    requires Reachable(s) && Enabled(s, a) && Safe(s, a) && np in s.live && |want| <= s.live[np].usable && i < |want|
    requires Touches(a, np) ==> FillsByte(a, want)
    requires Get(s.mem, np + i) == want[i] || StoresAt(a, np, i)
    ensures Get(Next(s, a).mem, np + i) == want[i]
  {
    hide Reachable, LargeRegion.AllocLargePlan, RegionBase, PageOf;
    if !Touches(a, np) {
      StepKeepsBlock(s, a, np);
    }
  }

  lemma StaysLive(s: State, a: Action, np: nat, want: seq<nat>)
    requires Reachable(s) && Enabled(s, a) && Safe(s, a) && np in s.live && (Touches(a, np) ==> FillsByte(a, want))
    ensures np in Next(s, a).live && Next(s, a).live[np] == s.live[np]
  {
    hide Reachable, LargeRegion.AllocLargePlan, RegionBase, PageOf;
    if !Touches(a, np) {
      StepKeepsBlock(s, a, np);
    }
  }

  /** A copy or fill loop is correct under every interleaving: when it is done, each covered byte holds what was
      wanted. */
  lemma {:induction false} FilledAfter(s: State, acts: seq<Action>, np: nat, want: seq<nat>, i: nat)
    requires Reachable(s) && Runs(s, acts) && np in s.live && |want| <= s.live[np].usable && i < |want|
    requires OnlyFills(acts, np, want) && Covered(s, acts, np, want, i)
    ensures Get(Exec(s, acts).mem, np + i) == want[i] && np in Exec(s, acts).live
            && Exec(s, acts).live[np] == s.live[np]
    decreases |acts|
  {
    hide Reachable, Enabled, Safe, Next, StoresAt;
    if acts != [] {
      var a, s1, rest := acts[0], Next(s, acts[0]), acts[1..];
      NoWildAccess(s, a);
      StaysLive(s, a, np, want);
      if Get(s.mem, np + i) == want[i] || StoresAt(a, np, i) {
        FillStep(s, a, np, want, i);
      } else {
        var j :| 0 <= j < |acts| && StoresAt(acts[j], np, i);
        assert StoresAt(rest[j - 1], np, i);
      }
      forall j | 0 <= j < |rest| && Touches(rest[j], np) ensures FillsByte(rest[j], want) {
        assert Touches(acts[j + 1], np);
      }
      FilledAfter(s1, rest, np, want, i);
    }
  }

  ghost predicate Spares(acts: seq<Action>, p: nat) { forall a :: a in acts ==> !Touches(a, p) }

  /** The first n bytes of a block. */
  function Bytes(m: Mem, p: nat, n: nat): seq<nat> { seq<nat>(n, i requires 0 <= i < n => Get(m, p + i)) }

  function Zeros(n: nat): seq<nat> { seq<nat>(n, i requires 0 <= i < n => 0) }

  /** The store is one of a copy of the first n bytes at p: it writes what it finds there at that moment. */
  predicate CopiesByte(s: State, a: Action, p: nat, n: nat) { a.AWrite? && a.off < n && a.val == Get(s.mem, p + a.off) }

  /** memcpy of n bytes from p to np, one byte at a time, interleaved with anything: during the run np is touched only
      by stores of the byte then found at the same place of p. */
  ghost predicate Copies(s: State, acts: seq<Action>, p: nat, np: nat, n: nat)
    requires Runs(s, acts)
    decreases |acts|
  {
    acts == [] || ((Touches(acts[0], np) ==> CopiesByte(s, acts[0], p, n))
        && Copies(Next(s, acts[0]), acts[1..], p, np, n))
  }

  /** Every byte of the copy is stored at some point. */
  ghost predicate CopiesAll(acts: seq<Action>, np: nat, n: nat) {
    forall i: nat :: i < n ==> StoredIn(acts, np, i)
  }

  /** As long as the source is left alone, a copy writes the bytes it had when the copy began. */
  lemma {:induction false} CopyFills(s: State, acts: seq<Action>, p: nat, np: nat, n: nat)
    requires Reachable(s) && Runs(s, acts) && p in s.live && n <= s.live[p].usable && Spares(acts, p)
             && Copies(s, acts, p, np, n)
    ensures OnlyFills(acts, np, Bytes(s.mem, p, n))
    decreases |acts|
  {
    hide Reachable, Enabled, Safe, Next;
    if acts != [] {
      var a, s1, rest := acts[0], Next(s, acts[0]), acts[1..];
      NoWildAccess(s, a);
      StepKeepsBlock(s, a, p);
      assert Bytes(s1.mem, p, n) == Bytes(s.mem, p, n);
      CopyFills(s1, rest, p, np, n);
      forall j | 0 <= j < |acts| && Touches(acts[j], np) ensures FillsByte(acts[j], Bytes(s.mem, p, n)) {
        if j > 0 { assert acts[j] == rest[j - 1]; }
      }
    }
  }

  /** A covered block is another block: its bytes are stored to, the source's are not. */
  lemma CopyTarget(acts: seq<Action>, p: nat, np: nat, n: nat)
    requires n > 0 && CopiesAll(acts, np, n) && Spares(acts, p)
    ensures p != np
  {
    assert StoredIn(acts, np, 0);
    var j :| 0 <= j < |acts| && StoresAt(acts[j], np, 0);
    assert acts[j] in acts;
  }

  /** hm_realloc that moves. First run: the new block is allocated. Second run: the copy, which reads the old block as
      it goes. Third run: hm_free of the old block, and whatever follows. All are interleaved with anything, except that
      nobody else touches the old block in the first two or the new one in the last. Then the usable size read was the
      true one, the copy read the old contents undisturbed, and when hm_realloc returns the new block is live and starts
      with min(old usable, new size) bytes of what the old one held when it was called. */
  lemma ReallocPreserves(s0: State, getNew: seq<Action>, copy: seq<Action>, release: seq<Action>, t: Tid, p: nat,
                         np: nat, size: nat)
    requires Reachable(s0) && p in s0.live && Runs(s0, getNew) && Spares(getNew, p)
    requires var s1 := Exec(s0, getNew);
             var plan := Realloc(false, s0.live[p].usable, size);
             && np in s1.live && size <= s1.live[np].usable && plan.Move?
             && Runs(s1, copy) && Spares(copy, p) && Copies(s1, copy, p, np, plan.copy)
             && CopiesAll(copy, np, plan.copy)
             && var s2 := Exec(s1, copy);
                Runs(s2, [AFree(t, p)] + release) && Spares(release, np)
    ensures var s1 := Exec(s0, getNew);
            var s2 := Exec(s1, copy);
            var s3 := Exec(s2, [AFree(t, p)] + release);
            var old_ := s0.live[p].usable;
            var n := if size < old_ then size else old_;
            && UsableSize(s0, p) == old_
            && p in s2.live && Bytes(s2.mem, p, old_) == Bytes(s0.mem, p, old_)
            && np in s3.live && s3.live[np] == s1.live[np] && Bytes(s3.mem, np, n) == Bytes(s0.mem, p, n)
  {
    hide Reachable, Exec, Runs, OnlyFills, UsableSize, Copies, CopiesAll;
    UsableSizeIsTrue(s0, p);
    ContentsKept(s0, getNew, p);
    var s1 := Exec(s0, getNew);
    ContentsKept(s1, copy, p);
    var s2 := Exec(s1, copy);
    var n := Realloc(false, s0.live[p].usable, size).copy;
    assert Bytes(s1.mem, p, n) == Bytes(s0.mem, p, n);
    Copied(s1, copy, p, np, n);
    CopyTarget(copy, p, np, n);
    var last := [AFree(t, p)] + release;
    forall a | a in last ensures !Touches(a, np) { assert a == last[0] || a in release; }
    ContentsKept(s2, last, np);
  }

  /** The copy on its own: the target holds the source's bytes and is still the same allocation. */
  lemma Copied(s: State, acts: seq<Action>, p: nat, np: nat, n: nat)
    requires Reachable(s) && Runs(s, acts) && p in s.live && n <= s.live[p].usable && np in s.live
             && 0 < n <= s.live[np].usable
    requires Spares(acts, p) && Copies(s, acts, p, np, n) && CopiesAll(acts, np, n)
    ensures np in Exec(s, acts).live && Exec(s, acts).live[np] == s.live[np]
    ensures Bytes(Exec(s, acts).mem, np, n) == Bytes(s.mem, p, n)
  {
    hide Reachable, Exec, Runs, OnlyFills, Copies, StoredIn;
    var want := Bytes(s.mem, p, n);
    CopyFills(s, acts, p, np, n);
    forall i: nat | i < n ensures Get(Exec(s, acts).mem, np + i) == want[i]
      ensures np in Exec(s, acts).live && Exec(s, acts).live[np] == s.live[np]
    {
      FilledAfter(s, acts, np, want, i);
    }
    FilledAfter(s, acts, np, want, 0);
  }

  /** hm_realloc that fails or stays in place leaves every byte of the old block as it was; staying in place has
      room. */
  lemma ReallocKeeps(s: State, acts: seq<Action>, p: nat, size: nat)
    requires Reachable(s) && p in s.live && Runs(s, acts) && Spares(acts, p)
    ensures p in Exec(s, acts).live && Exec(s, acts).live[p] == s.live[p]
    ensures Realloc(false, s.live[p].usable, size) == InPlace ==> 0 < size <= UsableSize(Exec(s, acts), p)
    ensures Bytes(Exec(s, acts).mem, p, s.live[p].usable) == Bytes(s.mem, p, s.live[p].usable)
  {
    hide Reachable, Exec, UsableSize;
    ContentsKept(s, acts, p);
    UsableSizeIsTrue(Exec(s, acts), p);
  }

  /** hm_calloc, large path: the region is handed to the client zero-filled, with no explicit clearing. */
  lemma LargeIsZero(s: State, t: Tid)
    requires Reachable(s) && CanPublish(s, t)
    ensures Safe(s, APublish(t)) && var s' := Next(s, APublish(t)); var r := s.large[PcOf(s, t).base];
            var p := PcOf(s, t).base + r.offset;
            p in s'.live && forall x: nat :: p <= x < p + s'.live[p].usable ==> Get(s'.mem, x) == 0
  {
    hide Rep, Reachable, RegionBase, PageOf, AllocLargePlan;
    var v := ReachableRep(s);
    KeepPublish(s, v, t);
    ThreadFacts(s, v, t);
  }

  /** hm_calloc, small path: after the clearing loop every requested byte is zero, whatever the recycled block held. */
  lemma SmallIsZeroed(s: State, acts: seq<Action>, np: nat, n: nat)
    requires Reachable(s) && np in s.live && n <= s.live[np].usable && Runs(s, acts)
    requires OnlyFills(acts, np, Zeros(n)) && forall i: nat :: i < n ==> Covered(s, acts, np, Zeros(n), i)
    ensures Bytes(Exec(s, acts).mem, np, n) == Zeros(n)
  {
    hide Reachable, Exec, Covered, OnlyFills;
    forall i: nat | i < n ensures Bytes(Exec(s, acts).mem, np, n)[i] == Zeros(n)[i] {
      FilledAfter(s, acts, np, Zeros(n), i);
    }
  }
}
