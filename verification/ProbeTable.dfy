/**
 Open addressing with linear probing and tombstones, as a property of a sequence of slots:
 the table stores a set of keys, each key is found on its probe path, and the multiset of
 slot values is exactly the keys, the tombstones and the empty slots.
 */
module ProbeTable {
  import opened Bits
  import opened Layout

  const EMPTY := 0
  const TOMB := 0xffff_ffff_ffff_ffff

  /** Region bases are segment-aligned words, so a key is never TOMB; a key that can be stored is not EMPTY either. */
  predicate IsBase(key: nat) { key % SEGMENT_SIZE == 0 && key < WORD }

  /** 2^64 divided by the golden ratio; what matters here is that it is odd. */
  const MULTIPLIER := 0x9e37_79b9_7f4a_7c15

  /** Home slot: the segment number times a 64-bit odd constant, modulo the capacity. */
  function IndexOf(capMask: nat, key: nat): (r: nat)
    ensures r <= capMask
  {
    And(key / SEGMENT_SIZE * MULTIPLIER % WORD, capMask)
  }

  /** Home slot of a key in a table. */
  function Home(t: seq<nat>, key: nat): (r: nat)
    requires |t| > 0
    ensures r < |t|
  {
    IndexOf(|t| - 1, key)
  }

  ghost predicate GoodCap(cap: nat) { exists k: nat :: k <= cap && cap == Pow2(k) }

  /** The slot d steps along the probe path from `home`. */
  function Slot(home: nat, d: nat, cap: nat): (r: nat)
    requires cap > 0
    ensures r < cap
  {
    (home + d) % cap
  }

  /** One probe step, i = (i + 1) & (cap - 1), moves one slot along the path. */
  lemma ProbeStep(home: nat, d: nat, cap: nat)
    requires GoodCap(cap) && cap > 0
    ensures And(Slot(home, d, cap) + 1, cap - 1) == Slot(home, d + 1, cap)
  {
    var k: nat :| k <= cap && cap == Pow2(k);
    LowMask(Slot(home, d, cap) + 1, k);
    NextSlot(home + d, cap);
  }

  lemma NextSlot(n: nat, cap: nat)
    requires cap > 0
    ensures (n % cap + 1) % cap == (n + 1) % cap
  {
    var q, r := n / cap, n % cap;
    assert n == q * cap + r;
    if r + 1 < cap {
      DivModUnique(n + 1, cap, q, r + 1);
      SmallMod(r + 1, cap);
    } else {
      assert n + 1 == (q + 1) * cap;
      MulMod(q + 1, cap);
      MulMod(1, cap);
    }
  }

  lemma SlotZero(home: nat, cap: nat)
    requires home < cap
    ensures Slot(home, 0, cap) == home
  {
    SmallMod(home, cap);
  }

  /** Every slot lies on the path, less than one round away. */
  lemma SlotReached(home: nat, z: nat, cap: nat) returns (d: nat)
    requires home < cap && z < cap
    ensures d < cap && Slot(home, d, cap) == z
  {
    if home <= z {
      d := z - home;
      SmallMod(z, cap);
    } else {
      d := z + cap - home;
      DivModUnique(z + cap, cap, 1, z);
    }
  }

  /** The first d slots of the path are occupied. */
  ghost predicate Occupied(t: seq<nat>, home: nat, d: nat)
    requires |t| > 0
  {
    forall e: nat :: e < d ==> t[Slot(home, e, |t|)] != EMPTY
  }

  ghost predicate FoundAt(t: seq<nat>, key: nat, d: nat)
    requires |t| > 0
  {
    d < |t| && t[Slot(Home(t, key), d, |t|)] == key && Occupied(t, Home(t, key), d)
  }

  ghost predicate Found(t: seq<nat>, key: nat)
    requires |t| > 0
  {
    exists d: nat :: FoundAt(t, key, d)
  }

  ghost predicate ValueOk(keys: set<nat>, x: nat) { x in keys || x == TOMB || x == EMPTY }

  /** Each key fills one slot; the other slots are `tombs` tombstones and empty ones. */
  ghost predicate Counted(t: seq<nat>, keys: set<nat>, tombs: nat) {
    && (forall x :: x in keys ==> multiset(t)[x] == 1)
    && multiset(t)[TOMB] == tombs
    && multiset(t)[EMPTY] == |t| - |keys| - tombs
    && (forall i: nat :: i < |t| ==> ValueOk(keys, t[i]))
  }

  /** The table t stores the set `keys` and has `tombs` tombstones. */
  ghost predicate TableOk(t: seq<nat>, keys: set<nat>, tombs: nat) {
    && |t| > 0 && GoodCap(|t|)
    && (forall k :: k in keys ==> IsBase(k) && k != EMPTY)
    && |keys| + tombs <= |t| && Counted(t, keys, tombs)
    && (forall k :: k in keys ==> Found(t, k))
  }

  lemma TableCap(t: seq<nat>, keys: set<nat>, tombs: nat)
    requires TableOk(t, keys, tombs)
    ensures GoodCap(|t|) && |t| > 0
  {
  }

  lemma NotTomb(key: nat)
    requires IsBase(key)
    ensures key != TOMB
  {
  }

  lemma SlotValue(t: seq<nat>, keys: set<nat>, tombs: nat, i: nat)
    requires TableOk(t, keys, tombs) && i < |t|
    ensures t[i] in keys || t[i] == TOMB || t[i] == EMPTY
  {
    assert ValueOk(keys, t[i]);
  }

  /** An empty slot exists unless keys and tombstones fill the table. */
  lemma EmptySlot(t: seq<nat>, keys: set<nat>, tombs: nat) returns (z: nat)
    requires TableOk(t, keys, tombs) && |keys| + tombs < |t|
    ensures z < |t| && t[z] == EMPTY
  {
    assert multiset(t)[EMPTY] > 0;
    assert EMPTY in t;
    z :| z < |t| && t[z] == EMPTY;
  }

  /** The key does not appear in the first d slots of the path. */
  ghost predicate Unseen(t: seq<nat>, home: nat, key: nat, d: nat)
    requires |t| > 0
  {
    forall e: nat :: e < d ==> t[Slot(home, e, |t|)] != key
  }

  /** A probe that reaches an empty slot without meeting the key proves it absent. */
  lemma MissMeansAbsent(t: seq<nat>, keys: set<nat>, tombs: nat, key: nat, home: nat, d: nat)
    requires TableOk(t, keys, tombs) && home == Home(t, key)
    requires t[Slot(home, d, |t|)] == EMPTY && Unseen(t, home, key, d)
    ensures key !in keys
  {
  }

  /** Without an empty slot, a probe for an absent key never ends. */
  lemma FullTableNeverStops(t: seq<nat>, keys: set<nat>, tombs: nat, key: nat, d: nat)
    requires TableOk(t, keys, tombs) && |keys| + tombs == |t| && IsBase(key) && key !in keys
    ensures t[Slot(Home(t, key), d, |t|)] != EMPTY && (key != EMPTY ==> t[Slot(Home(t, key), d, |t|)] != key)
  {
    var i := Slot(Home(t, key), d, |t|);
    assert ValueOk(keys, t[i]) && t[i] in t;
    NotTomb(key);
  }

  /** The probe for key ends d steps along its path. */
  ghost predicate Stops(t: seq<nat>, key: nat, d: nat)
    requires |t| > 0
  {
    t[Slot(Home(t, key), d, |t|)] == EMPTY || t[Slot(Home(t, key), d, |t|)] == key
  }

  /** How far a probe can go, if the key is there or a slot is empty. */
  lemma ProbeBound(t: seq<nat>, keys: set<nat>, tombs: nat, key: nat) returns (far: nat)
    requires TableOk(t, keys, tombs) && (key in keys || |keys| + tombs < |t|)
    ensures far < |t| && Stops(t, key, far)
  {
    if key in keys {
      assert Found(t, key);
      far :| FoundAt(t, key, far);
    } else {
      var z := EmptySlot(t, keys, tombs);
      far := SlotReached(Home(t, key), z, |t|);
    }
  }

  /** A probe ends exactly if its key is in the table or a slot is empty. */
  lemma ProbeEndsIff(t: seq<nat>, keys: set<nat>, tombs: nat, key: nat)
    requires TableOk(t, keys, tombs) && IsBase(key)
    ensures (exists d: nat :: Stops(t, key, d)) <==> key in keys || |keys| + tombs < |t|
  {
    hide TableOk;
    TableCap(t, keys, tombs);
    if key in keys || |keys| + tombs < |t| {
      var far := ProbeBound(t, keys, tombs, key);
    } else if d: nat :| Stops(t, key, d) {
      TableFull(t, keys, tombs);
      FullTableNeverStops(t, keys, tombs, key, d);
    }
  }

  lemma TableFull(t: seq<nat>, keys: set<nat>, tombs: nat)
    requires TableOk(t, keys, tombs) && |keys| + tombs >= |t|
    ensures |keys| + tombs == |t|
  {
  }

  /** Replacing a slot that does not hold another key, and not by EMPTY, keeps every other key findable. */
  lemma KeepsFound(t: seq<nat>, i: nat, val: nat, k: nat)
    requires |t| > 0 && i < |t| && val != EMPTY && t[i] != k && Found(t, k)
    ensures Found(t[i := val], k)
  {
    var d: nat :| FoundAt(t, k, d);
    var home := Home(t, k);
    forall e: nat | e < d ensures t[i := val][Slot(home, e, |t|)] != EMPTY {
      assert t[Slot(home, e, |t|)] != EMPTY;
    }
    assert FoundAt(t[i := val], k, d);
  }

  lemma UpdateCount(t: seq<nat>, i: nat, val: nat, x: nat)
    requires i < |t|
    ensures multiset(t[i := val])[x] == multiset(t)[x] - (if x == t[i] then 1 else 0) + (if x == val then 1 else 0)
  {
    assert t == t[..i] + [t[i]] + t[i + 1..];
    assert t[i := val] == t[..i] + [val] + t[i + 1..];
  }

  /** Storing an absent key in a tombstone or empty slot of its probe path. */
  lemma InsertKeeps(t: seq<nat>, keys: set<nat>, tombs: nat, key: nat, d: nat)
    requires TableOk(t, keys, tombs) && IsBase(key) && key != EMPTY && key !in keys && d < |t|
    requires Occupied(t, Home(t, key), d)
    requires var v := t[Slot(Home(t, key), d, |t|)]; v == TOMB || v == EMPTY
    ensures var i := Slot(Home(t, key), d, |t|);
            && (t[i] == TOMB ==> tombs > 0)
            && TableOk(t[i := key], keys + {key}, if t[i] == TOMB then tombs - 1 else tombs)
  {
    hide Found, Occupied, IndexOf, Counted, GoodCap;
    var home := Home(t, key);
    var i := Slot(home, d, |t|);
    var t' := t[i := key];
    NotTomb(key);
    InsertCounted(t, keys, tombs, key, i);
    InsertFound(t, key, d);
    forall k | k in keys ensures Found(t', k) {
      NotTomb(k);
      KeepsFound(t, i, key, k);
    }
  }

  lemma InsertFound(t: seq<nat>, key: nat, d: nat)
    requires |t| > 0 && d < |t| && key != EMPTY && Occupied(t, Home(t, key), d)
    ensures Found(t[Slot(Home(t, key), d, |t|) := key], key)
  {
    hide IndexOf;
    var home := Home(t, key);
    var t' := t[Slot(home, d, |t|) := key];
    forall e: nat | e < d ensures t'[Slot(home, e, |t|)] != EMPTY {
      assert t[Slot(home, e, |t|)] != EMPTY;
    }
    assert FoundAt(t', key, d);
  }

  lemma InsertCounted(t: seq<nat>, keys: set<nat>, tombs: nat, key: nat, i: nat)
    requires TableOk(t, keys, tombs) && key !in keys && i < |t| && (t[i] == TOMB || t[i] == EMPTY)
    requires IsBase(key) && key != EMPTY
    ensures t[i] == TOMB ==> tombs > 0
    ensures var tombs' := if t[i] == TOMB then tombs - 1 else tombs;
            |keys + {key}| + tombs' <= |t| && Counted(t[i := key], keys + {key}, tombs')
  {
    hide Found, IsBase;
    var t' := t[i := key];
    NotTomb(key);
    assert multiset(t)[t[i]] > 0;
    UpdateCount(t, i, key, TOMB);
    UpdateCount(t, i, key, EMPTY);
    assert |keys + {key}| == |keys| + 1;
    forall x | x in keys + {key} ensures multiset(t')[x] == 1 {
      if x in keys { NotTomb(x); }
      UpdateCount(t, i, key, x);
      if x == key { Absent(t, keys, tombs, key); }
    }
    forall j: nat | j < |t'| ensures ValueOk(keys + {key}, t'[j]) {
      assert ValueOk(keys, t[j]);
    }
  }

  lemma Absent(t: seq<nat>, keys: set<nat>, tombs: nat, key: nat)
    requires Counted(t, keys, tombs) && key !in keys && key != TOMB && key != EMPTY
    ensures multiset(t)[key] == 0
  {
    forall j: nat | j < |t| ensures t[j] != key {
      assert ValueOk(keys, t[j]);
    }
  }

  /** Turning a stored key's slot into a tombstone. */
  lemma RemoveKeeps(t: seq<nat>, keys: set<nat>, tombs: nat, i: nat)
    requires TableOk(t, keys, tombs) && i < |t| && t[i] in keys
    ensures TableOk(t[i := TOMB], keys - {t[i]}, tombs + 1)
  {
    var key := t[i];
    var t' := t[i := TOMB];
    assert |keys - {key}| == |keys| - 1;
    RemoveCounted(t, keys, tombs, i);
    forall k | k in keys - {key} ensures Found(t', k) {
      KeepsFound(t, i, TOMB, k);
    }
  }

  lemma RemoveCounted(t: seq<nat>, keys: set<nat>, tombs: nat, i: nat)
    requires TableOk(t, keys, tombs) && i < |t| && t[i] in keys
    ensures Counted(t[i := TOMB], keys - {t[i]}, tombs + 1)
  {
    hide Found, IsBase;
    var key := t[i];
    var t' := t[i := TOMB];
    NotTomb(key);
    UpdateCount(t, i, TOMB, TOMB);
    UpdateCount(t, i, TOMB, EMPTY);
    forall x | x in keys - {key} ensures multiset(t')[x] == 1 {
      NotTomb(x);
      UpdateCount(t, i, TOMB, x);
    }
    forall j: nat | j < |t'| ensures ValueOk(keys - {key}, t'[j]) {
      assert ValueOk(keys, t[j]);
      if j != i && t[j] == key { TwoSlots(t, if i < j then i else j, if i < j then j else i); }
    }
  }

  /** A freshly mapped table: every slot empty. */
  lemma FreshTable(t: seq<nat>)
    requires |t| > 0 && GoodCap(|t|) && forall i :: 0 <= i < |t| ==> t[i] == EMPTY
    ensures TableOk(t, {}, 0)
  {
    AllEmpty(t);
  }

  lemma {:induction false} AllEmpty(t: seq<nat>)
    requires forall i :: 0 <= i < |t| ==> t[i] == EMPTY
    ensures multiset(t)[EMPTY] == |t| && multiset(t)[TOMB] == 0
  {
    if t != [] {
      assert t == [t[0]] + t[1..];
      AllEmpty(t[1..]);
    }
  }

  /** Slot values up to n that are keys. */
  ghost function LiveUpTo(t: seq<nat>, n: nat): set<nat>
    requires n <= |t|
  {
    set i | 0 <= i < n && t[i] != EMPTY && t[i] != TOMB :: t[i]
  }

  lemma AllKeysListed(t: seq<nat>, keys: set<nat>, tombs: nat)
    requires TableOk(t, keys, tombs)
    ensures LiveUpTo(t, |t|) == keys
  {
    forall k | k in keys ensures k in LiveUpTo(t, |t|) {
      NotTomb(k);
      assert k in multiset(t);
      var i :| 0 <= i < |t| && t[i] == k;
    }
    forall k | k in LiveUpTo(t, |t|) ensures k in keys {
      var i :| 0 <= i < |t| && t[i] == k;
      SlotValue(t, keys, tombs, i);
    }
  }

  /** A key occupies one slot only. */
  lemma KeyOnce(t: seq<nat>, keys: set<nat>, tombs: nat, i: nat, j: nat)
    requires TableOk(t, keys, tombs) && i < j < |t| && t[i] != EMPTY && t[i] != TOMB
    ensures t[i] != t[j]
  {
    assert multiset(t)[t[i]] <= 1;
    if t[i] == t[j] { TwoSlots(t, i, j); }
  }

  lemma TwoSlots(t: seq<nat>, i: nat, j: nat)
    requires i < j < |t| && t[i] == t[j]
    ensures multiset(t)[t[i]] >= 2
  {
    assert t == t[..j] + [t[j]] + t[j + 1..];
    assert t[i] in t[..j];
  }
}
