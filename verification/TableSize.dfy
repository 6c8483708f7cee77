/**
 How large the region registry's table is: the capacities it goes through and the bytes each one takes from the OS.
 */
module TableSize {
  import opened Bits
  import opened Layout
  import LargeRegion

  const INITIAL_CAP := 1024
  /** sizeof(std::uintptr_t) */
  const SLOT_BYTES := 8
  /** Number of segment-aligned words, and the largest capacity that many bases can lead to. */
  const MAX_BASES := 0x400_0000_0000
  const MAX_CAP := 0x1000_0000_0000

  /** The capacity of the table that replaces one of `cap` slots with `size` keys: doubled if half full, else the
      same. */
  function NextCap(cap: nat, size: nat): (r: nat) { if size * 2 >= cap then cap * 2 else cap }

  /** The table doubles exactly when half of its slots hold keys, and so ends up at most half full, less than half
      unless every slot held a key. Otherwise it keeps its size. */
  lemma NextCapMeaning(cap: nat, size: nat)
    requires cap > 0 && size <= cap
    ensures var c := NextCap(cap, size);
            && (c == 2 * cap <==> cap <= 2 * size) && (c == cap <==> 2 * size < cap)
            && (c > cap ==> c <= 4 * size) && 2 * size <= c && (2 * size == c <==> size == cap)
  {
  }

  /** slots_bytes, in 64-bit arithmetic. */
  function SlotsBytes(cap: nat, ps: nat): (r: nat)
    requires 0 < ps <= WORD
  {
    Powers();
    RoundUpWord(cap * SLOT_BYTES % WORD, ps, WORD_BITS)
  }

  lemma OsPageRange(ps: nat)
    requires LargeRegion.GoodOsPage(ps)
    ensures 0 < ps <= SEGMENT_SIZE
  {
    var k: nat :| 4 <= k <= 22 && ps == Pow2(k);
    LargeRegion.PowersSmall(k);
  }

  /** For every capacity the registry can reach, a table takes the least whole number of OS pages that holds its slots:
      nothing wraps around, and only the missing table takes no bytes. */
  lemma SlotsBytesMeaning(cap: nat, ps: nat)
    requires LargeRegion.GoodOsPage(ps) && cap <= MAX_CAP
    ensures 0 < ps <= WORD
    ensures var r := SlotsBytes(cap, ps);
            r % ps == 0 && cap * SLOT_BYTES <= r < cap * SLOT_BYTES + ps && (r == 0 <==> cap == 0)
  {
    hide RoundUpWord, Pow2;
    OsPageRange(ps);
    Powers();
    var k: nat :| 4 <= k <= 22 && ps == Pow2(k);
    SmallMod(cap * SLOT_BYTES, WORD);
    RoundUpMeaning(cap * SLOT_BYTES, k, WORD_BITS);
    if cap == 0 { SmallMod(SlotsBytes(cap, ps), ps); }
  }

  /** There are no more distinct region bases than segments in the address space. */
  lemma {:induction false} BasesBounded(keys: set<nat>, n: nat)
    requires forall x :: x in keys ==> x % SEGMENT_SIZE == 0 && x < n * SEGMENT_SIZE
    ensures |keys| <= n
    decreases n
  {
    if n == 0 {
      assert keys == {};
    } else {
      var last := (n - 1) * SEGMENT_SIZE;
      forall x | x in keys - {last} ensures x < last { Below(x, n); }
      BasesBounded(keys - {last}, n - 1);
      assert keys <= (keys - {last}) + {last};
      Cover(keys, keys - {last}, last);
    }
  }

  lemma Below(x: nat, n: nat)
    requires n > 0 && x % SEGMENT_SIZE == 0 && x < n * SEGMENT_SIZE && x != (n - 1) * SEGMENT_SIZE
    ensures x < (n - 1) * SEGMENT_SIZE
  {
  }

  lemma Cover(a: set<nat>, b: set<nat>, x: nat)
    requires b == a - {x}
    ensures |a| <= |b| + 1
  {
    if x in a { assert a == b + {x}; } else { assert a == b; }
  }

  /** The capacity stays bounded: it doubles only while half of the slots hold bases. */
  lemma NextCapBounded(cap: nat, keys: set<nat>)
    requires cap <= MAX_CAP && forall x :: x in keys ==> x % SEGMENT_SIZE == 0 && x < WORD
    ensures NextCap(cap, |keys|) <= MAX_CAP
  {
    BasesBounded(keys, MAX_BASES);
  }
}
