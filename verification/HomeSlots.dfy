/**
 The registry's hash: where a base's probe path starts, and that neighbouring segments start in different places.
 */
module HomeSlots {
  import opened Bits
  import opened Layout
  import opened Blocks
  import opened ProbeTable

  /** Congruent numbers differ by a multiple, */
  lemma SameRemainder(x: nat, y: nat, m: nat)
    requires m > 0 && y <= x && x % m == y % m
    ensures (x - y) % m == 0
  {
    var q, p := x / m, y / m;
    assert x == q * m + x % m && y == p * m + y % m;
    if q < p { MulLe(q + 1, p, m); }
    DistributeRight(q - p, p, m);
    MulMod(q - p, m);
  }

  /** and numbers that differ by a multiple are congruent. */
  lemma SameClass(x: nat, y: nat, m: nat)
    requires m > 0 && y <= x && (x - y) % m == 0
    ensures x % m == y % m
  {
    var d, p := (x - y) / m, y / m;
    assert x - y == d * m && y == p * m + y % m;
    DistributeRight(d, p, m);
    DivModUnique(x, m, d + p, y % m);
  }

  lemma ModMod(x: nat, a: nat, b: nat)
    requires a > 0 && b > 0
    ensures b * a > 0 && (x % (b * a)) % a == x % a
  {
    ProductPositive(b, a);
    var n := b * a;
    var q, r := x / n, x % n;
    assert x == q * n + r;
    MulAssoc(q, b, a);
    MulMod(q * b, a);
    SameClass(x, r, a);
  }

  lemma MulSwap(c: nat, e: nat)
    ensures c * (2 * e) == 2 * (c * e)
  {
  }

  lemma EvenProduct(q: nat, p: nat)
    ensures (q * (2 * p)) % 2 == 0
  {
    MulSwap(q, p);
  }

  /** An odd number times an odd number is odd. */
  lemma OddProduct(a: nat, b: nat)
    ensures ((2 * a + 1) * (2 * b + 1)) % 2 == 1
  {
    assert (2 * a + 1) * (2 * b + 1) == 2 * (a * (2 * b + 1)) + (2 * b + 1);
  }

  lemma HalfMod(n: nat, m: nat)
    requires m > 0
    ensures (2 * n) % (2 * m) == 0 <==> n % m == 0
  {
    if n % m == 0 {
      var q := n / m;
      assert n == q * m;
      MulSwap(q, m);
      MulMod(q, 2 * m);
    }
    if (2 * n) % (2 * m) == 0 {
      var q := (2 * n) / (2 * m);
      assert 2 * n == q * (2 * m);
      MulSwap(q, m);
      MulMod(q, m);
    }
  }

  /** Multiplying by an odd number loses nothing modulo a power of two. */
  lemma {:induction false} OddCancels(c: nat, d: nat, k: nat)
    requires c % 2 == 1 && (c * d) % Pow2(k) == 0
    ensures d % Pow2(k) == 0
    decreases k
  {
    if k > 0 {
      var m := Pow2(k - 1);
      EvenFactor(c, d, m);
      var e := d / 2;
      MulSwap(c, e);
      HalfMod(c * e, m);
      OddCancels(c, e, k - 1);
      HalfMod(e, m);
    }
  }

  lemma EvenFactor(c: nat, d: nat, m: nat)
    requires c % 2 == 1 && m > 0 && (c * d) % (2 * m) == 0
    ensures d == 2 * (d / 2)
  {
    var q := (c * d) / (2 * m);
    assert c * d == q * (2 * m);
    EvenProduct(q, m);
    OddProduct(c / 2, d / 2);
  }

  lemma HomeIsProduct(key: nat, k: nat)
    requires k <= WORD_BITS
    ensures IndexOf(Pow2(k) - 1, key) == (key / SEGMENT_SIZE * MULTIPLIER) % Pow2(k)
  {
    hide Pow2, And;
    var x := key / SEGMENT_SIZE * MULTIPLIER;
    LowMask(x % WORD, k);
    Powers();
    Pow2Add(WORD_BITS - k, k);
    PositivePow(k);
    PositivePow(WORD_BITS - k);
    ModMod(x, Pow2(k), Pow2(WORD_BITS - k));
  }

  lemma PositivePow(k: nat)
    ensures Pow2(k) > 0
  {
  }

  lemma ProductsCongruent(x: nat, y: nat, k: nat)
    requires y <= x
    ensures (x * MULTIPLIER) % Pow2(k) == (y * MULTIPLIER) % Pow2(k) <==> x % Pow2(k) == y % Pow2(k)
  {
    hide Pow2;
    var m, d := Pow2(k), x - y;
    PositivePow(k);
    assert x * MULTIPLIER - y * MULTIPLIER == MULTIPLIER * d;
    if (x * MULTIPLIER) % m == (y * MULTIPLIER) % m {
      SameRemainder(x * MULTIPLIER, y * MULTIPLIER, m);
      OddCancels(MULTIPLIER, d, k);
      SameClass(x, y, m);
    }
    if x % m == y % m {
      SameRemainder(x, y, m);
      var q := d / m;
      assert d == q * m;
      MulAssoc(MULTIPLIER, q, m);
      MulMod(MULTIPLIER * q, m);
      SameClass(x * MULTIPLIER, y * MULTIPLIER, m);
    }
  }

  /** Two bases have the same home slot exactly if their segment numbers agree modulo the capacity: as many neighbouring
      segments as there are slots have as many different home slots. */
  lemma HomesSpread(a: nat, b: nat, cap: nat)
    requires GoodCap(cap) && 0 < cap <= WORD
    ensures IndexOf(cap - 1, a) == IndexOf(cap - 1, b) <==> (a / SEGMENT_SIZE) % cap == (b / SEGMENT_SIZE) % cap
  {
    hide IndexOf, Pow2;
    var k: nat :| k <= cap && cap == Pow2(k);
    Powers();
    if k > WORD_BITS { Pow2Less(WORD_BITS, k); }
    HomeIsProduct(a, k);
    HomeIsProduct(b, k);
    var x, y := a / SEGMENT_SIZE, b / SEGMENT_SIZE;
    if y <= x { ProductsCongruent(x, y, k); } else { ProductsCongruent(y, x, k); }
  }
}
