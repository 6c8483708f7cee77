/**
 Bit operations on machine words, as the allocator writes them: masks `x & (2^k - 1)`
 and `x & ~(2^k - 1)`, the power-of-two test `x & (x - 1)`, and rounding up.
 A word is a natural number below 2^w; the operations are defined bit by bit,
 and the lemmas give their arithmetic meaning for every width.
 */
module Bits {

  function Pow2(k: nat): (r: nat)
    ensures r > 0
  {
    if k == 0 then 1 else 2 * Pow2(k - 1)
  }

  /** Bitwise conjunction, lowest bit first. */
  function And(x: nat, y: nat): (r: nat)
    ensures r <= x && r <= y
  {
    if x == 0 || y == 0 then 0
    else (if x % 2 == 1 && y % 2 == 1 then 1 else 0) + 2 * And(x / 2, y / 2)
  }

  predicate IsPow2(x: nat) {
    exists k: nat :: k <= x && x == Pow2(k)
  }

  lemma {:induction false} Pow2Bound(k: nat)
    ensures k < Pow2(k)
  {
    if k > 0 { Pow2Bound(k - 1); }
  }

  lemma {:induction false} Pow2Add(a: nat, b: nat)
    ensures Pow2(a + b) == Pow2(a) * Pow2(b)
  {
    if a > 0 {
      Pow2Add(a - 1, b);
      assert Pow2(a + b) == 2 * Pow2(a - 1 + b);
      MulAssoc(2, Pow2(a - 1), Pow2(b));
    }
  }

  lemma MulAssoc(a: int, b: int, c: int)
    ensures a * b * c == a * (b * c)
  {
  }

  lemma {:induction false} Pow2Monotone(a: nat, b: nat)
    requires a <= b
    ensures Pow2(a) <= Pow2(b)
    decreases b
  {
    if a < b { Pow2Monotone(a, b - 1); }
  }

  /** A power of two divides every larger one. */
  lemma ProductPositive(a: nat, b: nat)
    requires a > 0 && b > 0
    ensures a * b > 0
  {
  }

  lemma Pow2Less(a: nat, b: nat)
    requires a < b
    ensures Pow2(a) < Pow2(b)
  {
    Pow2Monotone(a + 1, b);
  }

  lemma {:induction false} Pow2Divides(a: nat, b: nat)
    requires a <= b
    ensures Pow2(b) % Pow2(a) == 0
  {
    Pow2Add(b - a, a);
    MulMod(Pow2(b - a), Pow2(a));
  }

  lemma MulMod(q: nat, m: nat)
    requires m > 0
    ensures (q * m) % m == 0 && (q * m) / m == q
  {
    DivModUnique(q * m, m, q, 0);
  }

  /** Quotient and remainder are determined by x == q * m + r. */
  lemma DivModUnique(x: nat, m: nat, q: nat, r: nat)
    requires m > 0 && r < m && x == q * m + r
    ensures x / m == q && x % m == r
  {
    var q', r' := x / m, x % m;
    assert x == q' * m + r';
    Multiples(m, q, r, q', r');
  }

  lemma Multiples(m: nat, q: int, r: int, q': int, r': int)
    requires 0 <= r < m && 0 <= r' < m && q * m + r == q' * m + r'
    ensures q == q' && r == r'
  {
    assert (q - q') * m == r' - r;
    if q > q' {
      LeastMultiple(q - q', m);
    } else if q < q' {
      LeastMultiple(q' - q, m);
    }
  }

  lemma LeastMultiple(d: int, m: nat)
    requires d >= 1
    ensures d * m >= m
  {
  }

  lemma ModDouble(x: nat, m: nat)
    requires m > 0
    ensures x % (2 * m) == 2 * ((x / 2) % m) + x % 2
    ensures x / (2 * m) == (x / 2) / m
  {
    var h := x / 2;
    var q := h / m;
    assert h == q * m + h % m;
    assert 2 * (q * m) == q * (2 * m);
    DivModUnique(x, 2 * m, q, 2 * (h % m) + x % 2);
  }

  /** x & (2^k - 1) keeps the remainder modulo 2^k. */
  lemma {:induction false} LowMask(x: nat, k: nat)
    ensures And(x, Pow2(k) - 1) == x % Pow2(k)
  {
    hide And;
    AndZero(x, 0);
    if k > 0 {
      var m := Pow2(k - 1);
      ModDouble(x, m);
      LowMask(x / 2, k - 1);
      OddMask(x, m);
    }
  }

  lemma OddMask(x: nat, m: nat)
    requires m > 0
    ensures And(x, 2 * m - 1) == x % 2 + 2 * And(x / 2, m - 1)
  {
    var y := 2 * m - 1;
    assert y / 2 == m - 1 && y % 2 == 1;
  }

  /** x & ~(2^k - 1), for a w-bit x, rounds down to a multiple of 2^k. */
  lemma {:induction false} HighMask(x: nat, k: nat, w: nat)
    requires k <= w && x < Pow2(w)
    ensures Pow2(k) <= Pow2(w)
    ensures And(x, Pow2(w) - Pow2(k)) == x - x % Pow2(k)
  {
    hide And, Pow2;
    Pow2Monotone(k, w);
    if k == 0 {
      Pow2Zero();
      AllOnes(x, w);
    } else {
      Pow2Double(k - 1);
      Pow2Double(w - 1);
      Pow2Monotone(k - 1, w - 1);
      HighMask(x / 2, k - 1, w - 1);
      HighMaskStep(x, Pow2(k - 1), Pow2(w - 1));
    }
  }

  lemma Pow2Zero()
    ensures Pow2(0) == 1
  {
  }

  lemma Pow2Double(k: nat)
    ensures Pow2(k + 1) == 2 * Pow2(k)
  {
  }

  lemma HighMaskStep(x: nat, m: nat, big: nat)
    requires 0 < m <= big && And(x / 2, big - m) == x / 2 - (x / 2) % m
    ensures And(x, 2 * big - 2 * m) == x - x % (2 * m)
  {
    hide And;
    EvenMask(x, big - m);
    RoundHalf(x, m);
  }

  lemma RoundHalf(x: nat, m: nat)
    requires m > 0
    ensures 2 * (x / 2 - (x / 2) % m) == x - x % (2 * m)
  {
    ModDouble(x, m);
  }

  lemma EvenMask(x: nat, y: nat)
    ensures And(x, 2 * y) == 2 * And(x / 2, y)
  {
    if x == 0 || y == 0 {
      AndZero(x / 2, y);
    } else {
      DoubleEven(y);
    }
  }

  lemma DoubleEven(y: nat)
    ensures (2 * y) / 2 == y && (2 * y) % 2 == 0
  {
  }

  lemma AndZero(x: nat, y: nat)
    requires x == 0 || y == 0
    ensures And(x, y) == 0
  {
  }

  lemma {:induction false} AllOnes(x: nat, w: nat)
    requires x < Pow2(w)
    ensures And(x, Pow2(w) - 1) == x
  {
    LowMask(x, w);
    SmallMod(x, Pow2(w));
  }

  lemma SmallMod(x: nat, m: nat)
    requires x < m
    ensures x % m == x && x / m == 0
  {
    DivModUnique(x, m, 0, x);
  }

  /** The test `x & (x - 1) == 0` recognises exactly the powers of two among the non-zero words. */
  lemma {:induction false} PowerTest(x: nat)
    requires x > 0
    ensures And(x, x - 1) == 0 <==> IsPow2(x)
  {
    if x == 1 {
      assert x == Pow2(0);
    } else if x % 2 == 1 {
      var h := x / 2;
      AndSelf(h);
      assert And(x, x - 1) == 2 * And(h, h);
      forall k: nat | k <= x ensures x != Pow2(k) {
        assert k > 0 ==> Pow2(k) == 2 * Pow2(k - 1);
      }
    } else {
      var h := x / 2;
      PowerTest(h);
      assert (x - 1) / 2 == h - 1 && (x - 1) % 2 == 1;
      assert And(x, x - 1) == 2 * And(h, h - 1);
      if IsPow2(h) {
        var k: nat :| k <= h && h == Pow2(k);
        assert x == Pow2(k + 1);
      }
      if IsPow2(x) {
        var k: nat :| k <= x && x == Pow2(k);
        assert k > 0 && h == Pow2(k - 1);
        Pow2Bound(k - 1);
      }
    }
  }

  lemma {:induction false} AndSelf(x: nat)
    ensures And(x, x) == x
  {
    if x > 0 { AndSelf(x / 2); }
  }

  lemma DownFacts(n: nat, a: nat)
    requires a > 0
    ensures (n - n % a) % a == 0 && 0 <= n - n % a <= n < n - n % a + a
  {
    var q := n / a;
    assert n == q * a + n % a;
    MulMod(q, a);
  }

  /** (n + (a - 1)) & ~(a - 1) in w-bit arithmetic, including the wrap-around of the sum. */
  function RoundUpWord(n: nat, a: nat, w: nat): (r: nat)
    requires 0 < a <= Pow2(w)
  {
    And((n + (a - 1)) % Pow2(w), Pow2(w) - a)
  }

  /** Without wrap-around it is the least multiple of `a` that is at least `n`; a wrap-around gives 0. */
  lemma RoundUpMeaning(n: nat, k: nat, w: nat)
    requires k <= w && n < Pow2(w)
    ensures 0 < Pow2(k) <= Pow2(w)
    ensures n + (Pow2(k) - 1) < Pow2(w) ==>
              var r := RoundUpWord(n, Pow2(k), w);
              r % Pow2(k) == 0 && n <= r < n + Pow2(k)
    ensures n + (Pow2(k) - 1) >= Pow2(w) ==> RoundUpWord(n, Pow2(k), w) == 0
  {
    hide And;
    Pow2Monotone(k, w);
    var sum := n + (Pow2(k) - 1);
    if sum < Pow2(w) {
      SmallMod(sum, Pow2(w));
      HighMask(sum, k, w);
      DownFacts(sum, Pow2(k));
    } else {
      DivModUnique(sum, Pow2(w), 1, sum - Pow2(w));
      HighMask(sum - Pow2(w), k, w);
      SmallMod(sum - Pow2(w), Pow2(k));
    }
  }
}
