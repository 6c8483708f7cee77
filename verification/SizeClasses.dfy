/**
 The size-class table: four equal steps per power-of-two octave above 64, and the reverse
 lookup, for any power-of-two limit from 64 up. The source instantiates the limit at 16 KiB.
 */
module SizeClasses {
  import opened Bits
  import opened Layout
  import Blocks

  const LARGE_CLASS := 0xffff_ffff

  /** class index -> block size, and (n - 1) / 16 -> class index */
  datatype Table = Table(size: seq<nat>, lookup: seq<nat>)

  /** Neighbouring classes differ by 16 up to 64 and by at most a quarter of the smaller one above. */
  predicate StepOk(a: nat, b: nat) {
    a < b && if b <= 64 then b - a == ALLOC_ALIGN else 64 <= a && 4 * (b - a) <= a
  }

  ghost predicate Ladder(size: seq<nat>) {
    && |size| >= 4 && size[0] == ALLOC_ALIGN
    && (forall i :: 0 <= i < |size| ==> size[i] % ALLOC_ALIGN == 0)
    && (forall i :: 0 < i < |size| ==> StepOk(size[i - 1], size[i]))
  }

  /** c is the smallest class that holds n bytes. */
  predicate Fits(size: seq<nat>, c: nat, n: nat) {
    c < |size| && size[c] >= n && (c > 0 ==> size[c - 1] < n)
  }

  ghost predicate LookupOk(t: Table, i: nat)
    requires i < |t.lookup|
  {
    Fits(t.size, t.lookup[i], (i + 1) * ALLOC_ALIGN)
  }

  ghost predicate Good(t: Table, limit: nat) {
    && Ladder(t.size) && t.size[|t.size| - 1] == limit && limit >= 64 && limit % ALLOC_ALIGN == 0
    && |t.lookup| == limit / ALLOC_ALIGN
    && (forall i: nat :: i < |t.lookup| ==> LookupOk(t, i))
  }

  lemma {:induction false} LadderIncreases(size: seq<nat>, i: nat, j: nat)
    requires Ladder(size) && i < j < |size|
    ensures size[i] < size[j]
    decreases j
  {
    assert StepOk(size[j - 1], size[j]);
    if i < j - 1 { LadderIncreases(size, i, j - 1); }
  }

  /** The i-th of the four steps that lead from 2^k to 2^(k + 1). */
  predicate IsStep(size: seq<nat>, k: nat, i: nat)
    requires k >= 6 && 1 <= i <= 4
  {
    var c := 4 * (k - 5) + i - 1;
    c < |size| && size[c] == Pow2(k) + i * (Pow2(k) / 4)
  }

  /** All class sizes up to 2^bits: 16, 32, 48, 64, then four equal steps per octave. */
  ghost predicate ClosedForm(size: seq<nat>, bits: nat)
    requires bits >= 6
  {
    && |size| == 4 * (bits - 5) && (forall c :: 0 <= c < 4 ==> size[c] == 16 * (c + 1))
    && forall k: nat, i: nat {:trigger IsStep(size, k, i)} :: 6 <= k < bits && 1 <= i <= 4 ==> IsStep(size, k, i)
  }

  lemma OctaveAdded(before: seq<nat>, size: seq<nat>, k: nat)
    requires k >= 6 && ClosedForm(before, k) && |size| == |before| + 4 && size[..|before|] == before
    requires forall i: nat {:trigger IsStep(size, k, i)} :: 1 <= i <= 4 ==> IsStep(size, k, i)
    ensures ClosedForm(size, k + 1)
  {
    forall c | 0 <= c < 4 ensures size[c] == 16 * (c + 1) { assert size[c] == size[..|before|][c]; }
    forall j: nat, i: nat | 6 <= j < k + 1 && 1 <= i <= 4 ensures IsStep(size, j, i) {
      if j < k {
        assert IsStep(before, j, i);
        assert size[4 * (j - 5) + i - 1] == size[..|before|][4 * (j - 5) + i - 1];
      }
    }
  }

  /** The closed form and the smallest-fit lookup leave one table. */
  lemma TableUnique(t: Table, u: Table, bits: nat)
    requires bits >= 6 && Good(t, Pow2(bits)) && Good(u, Pow2(bits))
    requires ClosedForm(t.size, bits) && ClosedForm(u.size, bits)
    ensures t == u
  {
    forall c: nat | c < |t.size| ensures t.size[c] == u.size[c] {
      if c >= 4 {
        var k, i := c / 4 + 5, c % 4 + 1;
        assert IsStep(t.size, k, i) && IsStep(u.size, k, i);
      }
    }
    assert t.size == u.size;
    forall i: nat | i < |t.lookup| ensures t.lookup[i] == u.lookup[i] {
      assert LookupOk(t, i) && LookupOk(u, i);
      FitUnique(t.size, t.lookup[i], u.lookup[i], (i + 1) * ALLOC_ALIGN);
    }
  }

  /** build_size_classes for the limit 2^bits. */
  method BuildSizeClasses(bits: nat) returns (t: Table)
    requires bits >= 6
    ensures Good(t, Pow2(bits)) && ClosedForm(t.size, bits)
  {
    hide ClosedForm;
    var limit := Pow2(bits);
    var size := DenseOctave();
    Pow2Monotone(6, bits);
    assert Pow2(6) == 64;
    var k: nat := 6;
    while Pow2(k) < limit
      invariant 6 <= k <= bits && Ladder(size) && size[|size| - 1] == Pow2(k) && ClosedForm(size, k)
      invariant limit == Pow2(bits)
      decreases bits - k
    {
      if k >= bits { Pow2Monotone(bits, k); }
      Pow2Monotone(k + 1, bits);
      size := AddOctave(size, k, limit);
      k := k + 1;
    }
    if k < bits { Pow2Less(k, bits); }
    var lookup := BuildLookup(size, limit);
    t := Table(size, lookup);
    LimitAligned(bits);
  }

  /** 16, 32, 48, 64 */
  method DenseOctave() returns (size: seq<nat>)
    ensures Ladder(size) && |size| == 4 && size[3] == 64 && ClosedForm(size, 6)
  {
    size := [];
    var s := ALLOC_ALIGN;
    while s <= 64
      invariant ALLOC_ALIGN <= s <= 80 && s == (|size| + 1) * ALLOC_ALIGN
      invariant forall i :: 0 <= i < |size| ==> size[i] == (i + 1) * ALLOC_ALIGN
      decreases 80 - s
    {
      size := size + [s];
      s := s + ALLOC_ALIGN;
    }
  }

  lemma LimitAligned(bits: nat)
    requires bits >= 6
    ensures Pow2(bits) >= 64 && Pow2(bits) % 64 == 0 && Pow2(bits) % ALLOC_ALIGN == 0
  {
    Pow2Monotone(6, bits);
    assert Pow2(6) == 64;
    Pow2Divides(6, bits);
  }

  lemma Append(size: seq<nat>, s: nat)
    requires Ladder(size) && StepOk(size[|size| - 1], s) && s % ALLOC_ALIGN == 0
    ensures Ladder(size + [s])
  {
  }

  /** Four equal steps of 2^(k-2) lead from 2^k to 2^(k+1). */
  lemma OctaveStep(k: nat, i: nat)
    requires k >= 6 && 1 <= i <= 4
    ensures var step := Pow2(k) / 4;
            var a, s := Pow2(k) + (i - 1) * step, Pow2(k) + i * step;
            StepOk(a, s) && s % ALLOC_ALIGN == 0 && s <= Pow2(k + 1) && (i == 4 ==> s == Pow2(k + 1))
                && (i == 1 ==> a == Pow2(k))
  {
    LimitAligned(k);
    OctaveArithmetic(Pow2(k) / 64, i);
  }

  lemma OctaveArithmetic(q: nat, i: nat)
    requires q >= 1 && 1 <= i <= 4
    ensures var base, step := q * 64, q * 16;
            var a, s := base + (i - 1) * step, base + i * step;
            step == base / 4 && StepOk(a, s) && s % ALLOC_ALIGN == 0 && s <= 2 * base && (i == 4 ==> s == 2 * base)
                && (i == 1 ==> a == base)
  {
    var step := q * 16;
    assert i == 1 || i == 2 || i == 3 || i == 4;
    assert i * step == (16 * i) * q && (i - 1) * step == (16 * i - 16) * q by { Scale(i, q); }
    Quarter(q, i);
  }

  lemma Scale(i: nat, q: nat)
    requires 1 <= i <= 4
    ensures i * (q * 16) == (16 * i) * q && (i - 1) * (q * 16) == (16 * i - 16) * q
  {
    if i == 1 {} else if i == 2 {} else if i == 3 {} else {}
  }

  lemma Quarter(q: nat, i: nat)
    requires q >= 1 && 1 <= i <= 4
    ensures StepOk(64 * q + (16 * i - 16) * q, 64 * q + (16 * i) * q) && (64 * q + (16 * i) * q) % ALLOC_ALIGN == 0
    ensures (16 * i) * q <= 64 * q && (i == 4 ==> (16 * i) * q == 64 * q)
  {
    if i == 1 {} else if i == 2 {} else if i == 3 {} else {}
  }

  /** The four steps above 2^k, the last of which is 2^(k+1). */
  method AddOctave(before: seq<nat>, k: nat, limit: nat) returns (size: seq<nat>)
    requires k >= 6 && Ladder(before) && before[|before| - 1] == Pow2(k) && Pow2(k + 1) <= limit
    requires ClosedForm(before, k)
    ensures Ladder(size) && size[|size| - 1] == Pow2(k + 1) && ClosedForm(size, k + 1)
  {
    hide Ladder, StepOk, Pow2;
    var base := Pow2(k);
    var step := base / 4;
    size := before;
    OctaveStep(k, 1);
    LadderSize(size);
    var i := 1;
    while i <= 4
      invariant 1 <= i <= 5 && |size| == |before| + (i - 1) && Ladder(size) && |size| > 0
      invariant size[|size| - 1] == base + (i - 1) * step
      invariant i == 5 ==> size[|size| - 1] == Pow2(k + 1)
      invariant size[..|before|] == before
      invariant forall j :: 1 <= j < i ==> size[|before| + j - 1] == base + j * step
    {
      var s := base + i * step;
      OctaveStep(k, i);
      if s <= limit {
        Append(size, s);
        size := size + [s];
      }
      i := i + 1;
    }
    OctaveAdded(before, size, k);
  }

  lemma LadderSize(size: seq<nat>)
    requires Ladder(size)
    ensures |size| >= 4
  {
  }

  method BuildLookup(size: seq<nat>, limit: nat) returns (lookup: seq<nat>)
    requires Ladder(size) && size[|size| - 1] == limit && limit % ALLOC_ALIGN == 0
    ensures |lookup| == limit / ALLOC_ALIGN
    ensures forall i: nat :: i < |lookup| ==> LookupOk(Table(size, lookup), i)
  {
    lookup := [];
    var cls: nat := 0;
    var i: nat := 0;
    while i < limit / ALLOC_ALIGN
      invariant i == |lookup| <= limit / ALLOC_ALIGN && cls < |size|
      invariant cls > 0 ==> size[cls - 1] < i * ALLOC_ALIGN
      invariant forall j: nat :: j < i ==> LookupOk(Table(size, lookup), j)
    {
      var n := (i + 1) * ALLOC_ALIGN;
      while cls + 1 < |size| && size[cls] < n
        invariant cls < |size| && (cls > 0 ==> size[cls - 1] < n)
        decreases |size| - cls
      {
        cls := cls + 1;
      }
      ghost var before := lookup;
      lookup := lookup + [cls];
      forall j: nat | j < i + 1 ensures LookupOk(Table(size, lookup), j) {
        if j < i { assert LookupOk(Table(size, before), j); }
      }
      i := i + 1;
    }
  }

  /** size_class */
  function SizeClass(t: Table, limit: nat, n: nat): (r: nat)
    requires Good(t, limit)
  {
    if n > limit then LARGE_CLASS
    else
      var m := if n == 0 then 1 else n;
      t.lookup[(m - 1) / ALLOC_ALIGN]
  }

  /** class_to_size(size_class(n)) */
  function RoundToClass(t: Table, limit: nat, n: nat): (r: nat)
    requires Good(t, limit) && n <= limit
  {
    var c := SizeClass(t, limit, n);
    SmallestFit(t, limit, n);
    t.size[c]
  }

  /** The lookup agrees with the brute-force definition: the first class that is large enough. */
  lemma SmallestFit(t: Table, limit: nat, n: nat)
    requires Good(t, limit) && n <= limit
    ensures Fits(t.size, SizeClass(t, limit, n), if n == 0 then 1 else n)
  {
    var m := if n == 0 then 1 else n;
    var i := (m - 1) / ALLOC_ALIGN;
    assert LookupOk(t, i);
    var c := t.lookup[i];
    if c > 0 {
      assert t.size[c - 1] % ALLOC_ALIGN == 0;
      BelowBucket(t.size[c - 1], i);
    }
  }

  lemma BelowBucket(a: nat, i: nat)
    requires a % ALLOC_ALIGN == 0 && a < (i + 1) * ALLOC_ALIGN
    ensures a <= i * ALLOC_ALIGN
  {
  }

  lemma FitUnique(size: seq<nat>, c: nat, d: nat, n: nat)
    requires Ladder(size) && Fits(size, c, n) && Fits(size, d, n)
    ensures c == d
  {
    if c < d {
      if c < d - 1 { LadderIncreases(size, c, d - 1); }
    } else if d < c {
      if d < c - 1 { LadderIncreases(size, d, c - 1); }
    }
  }

  /** Rounding a class's own size gives that class back. */
  lemma ClassSizesAreFixed(t: Table, limit: nat, c: nat)
    requires Good(t, limit) && c < |t.size|
    ensures t.size[c] <= limit && SizeClass(t, limit, t.size[c]) == c && RoundToClass(t, limit, t.size[c]) == t.size[c]
  {
    if c < |t.size| - 1 { LadderIncreases(t.size, c, |t.size| - 1); }
    if c > 0 {
      LadderIncreases(t.size, c - 1, c);
      LadderIncreases(t.size, 0, c);
    }
    SmallestFit(t, limit, t.size[c]);
    FitUnique(t.size, c, SizeClass(t, limit, t.size[c]), t.size[c]);
  }

  /** Internal fragmentation: under n/4 above 64 bytes, under 16 bytes up to 64. */
  lemma WasteBound(t: Table, limit: nat, n: nat)
    requires Good(t, limit) && 0 < n <= limit
    ensures n <= RoundToClass(t, limit, n)
    ensures n > 64 ==> 4 * (RoundToClass(t, limit, n) - n) < n
    ensures n <= 64 ==> RoundToClass(t, limit, n) - n < ALLOC_ALIGN
  {
    SmallestFit(t, limit, n);
    var c := SizeClass(t, limit, n);
    if c > 0 {
      assert StepOk(t.size[c - 1], t.size[c]);
    }
  }

  /** A larger request never gets a smaller class. */
  lemma ClassesMonotone(t: Table, limit: nat, m: nat, n: nat)
    requires Good(t, limit) && m <= n <= limit
    ensures SizeClass(t, limit, m) <= SizeClass(t, limit, n)
  {
    SmallestFit(t, limit, m);
    SmallestFit(t, limit, n);
    var c, d := SizeClass(t, limit, m), SizeClass(t, limit, n);
    if d < c && d < c - 1 { LadderIncreases(t.size, d, c - 1); }
  }

  /** Every class of the 16 KiB table is a block size pages can be carved into. */
  lemma ClassIsGoodSize(t: Table, c: nat)
    requires Good(t, SMALL_SIZE_MAX) && c < |t.size|
    ensures Blocks.GoodSize(t.size[c])
  {
    if c < |t.size| - 1 { LadderIncreases(t.size, c, |t.size| - 1); }
    if c > 0 { LadderIncreases(t.size, 0, c); }
  }
}
