/**
 The region registry: a growable open-addressing set of region bases. `keys` is the set the
 table stands for. The kernel may refuse a new table; `mapped` arguments say whether it does.
 */
module Registry {
  import opened Bits
  import opened Layout
  import opened ProbeTable
  import opened TableSize
  import opened LargeRegion

  class RegionRegistry {
    /** os_page_size() */
    const osPage: nat
    var slots: array?<nat>
    var cap: nat
    var size: nat
    var tombs: nat
    /** What the tables mapped and unmapped so far add to the account of mapped bytes. */
    var mappedBytes: int
    ghost var keys: set<nat>
    /** The largest number of keys the table has held. */
    ghost var most: nat

    /** The table stores `keys`, and the account is exactly its bytes. */
    ghost predicate Stored()
      reads this, slots
    {
      && size == |keys| <= most && (cap <= INITIAL_CAP || cap <= 4 * most) && Accounted()
      && if slots == null then cap == 0 && size == 0 && tombs == 0
         else slots.Length == cap && TableOk(slots[..], keys, tombs) && INITIAL_CAP <= cap
    }

    ghost predicate Accounted()
      reads this`cap, this`mappedBytes
    {
      GoodOsPage(osPage) && 0 < osPage <= WORD && cap <= MAX_CAP && mappedBytes == SlotsBytes(cap, osPage)
    }

    /** Besides, at least one slot is empty, so that every probe ends. */
    ghost predicate Sound()
      reads this, slots
    {
      Stored() && (slots != null ==> size + tombs < cap)
    }

    /** Fewer than seven tenths of the slots are taken by keys and tombstones. */
    predicate Light()
      reads this
    {
      cap > 0 ==> (size + tombs) * 10 < cap * 7
    }

    ghost predicate Valid()
      reads this, slots
    {
      Sound() && Light()
    }

    constructor (ps: nat)
      requires GoodOsPage(ps)
      ensures Valid() && keys == {} && slots == null && osPage == ps && most == 0
    {
      SlotsBytesMeaning(0, ps);
      osPage, slots, cap, size, tombs, mappedBytes, keys, most := ps, null, 0, 0, 0, 0, {}, 0;
    }

    /** A table of `newCap` empty slots, or null. */
    method AllocSlots(newCap: nat, mapped: bool) returns (t: array?<nat>)
      ensures t == null <==> !mapped || newCap == 0
      ensures t != null ==> fresh(t) && t.Length == newCap && forall i :: 0 <= i < newCap ==> t[i] == EMPTY
    {
      t := null;
      if mapped && newCap != 0 {
        t := new nat[newCap](_ => EMPTY);
      }
    }

    static method RawInsert(t: array<nat>, key: nat, ghost ks: set<nat>)
      requires TableOk(t[..], ks, 0) && |ks| < t.Length && IsBase(key) && key != EMPTY && key !in ks
      modifies t
      ensures TableOk(t[..], ks + {key}, 0)
    {
      hide TableOk, And, IndexOf, Slot, GoodCap;
      ghost var before := t[..];
      TableCap(before, ks, 0);
      var cap := t.Length;
      var home := IndexOf(cap - 1, key);
      var i := home;
      ghost var z := EmptySlot(before, ks, 0);
      ghost var far := SlotReached(home, z, cap);
      ghost var d: nat := 0;
      SlotZero(home, cap);
      while t[i] != EMPTY
        invariant d <= far < cap && i == Slot(home, d, cap) && Occupied(before, home, d) && t[..] == before
        decreases far - d
      {
        ProbeStep(home, d, cap);
        i := And(i + 1, cap - 1);
        d := d + 1;
      }
      InsertKeeps(before, ks, 0, key, d);
      t[i] := key;
    }

    /** Rehash into a table of newCap slots; on refusal the old table stays. Either way the account holds exactly the
        bytes of the table that is then in use: the new one is mapped before the old one goes. */
    method GrowLocked(newCap: nat, mapped: bool)
      requires Stored() && (newCap == 0 || (GoodCap(newCap) && INITIAL_CAP <= newCap <= MAX_CAP && size < newCap))
      requires newCap <= INITIAL_CAP || newCap <= 4 * most
      modifies this
      ensures Stored() && keys == old(keys) && size == old(size) && most == old(most)
      ensures if mapped && newCap > 0 then fresh(slots) && cap == newCap && tombs == 0
              else slots == old(slots) && cap == old(cap) && tombs == old(tombs)
    {
      hide SlotsBytes, GoodOsPage, GoodCap, TableOk;
      var t := AllocSlots(newCap, mapped);
      if t == null { return; }
      mappedBytes := mappedBytes + SlotsBytes(newCap, osPage);
      FreshTable(t[..]);
      ghost var done := {};
      if slots != null {
        done := Rehash(t);
      }
      var oldSlots, oldCap := slots, cap;
      slots, cap, tombs := t, newCap, 0;
      NoTable();
      if oldSlots != null {
        mappedBytes := mappedBytes - SlotsBytes(oldCap, osPage);
      }
    }

    lemma NoTable()
      requires GoodOsPage(osPage) && 0 < osPage <= WORD
      ensures SlotsBytes(0, osPage) == 0
    {
      SlotsBytesMeaning(0, osPage);
    }

    /** Copy every key of the current table into an empty one. */
    method Rehash(t: array<nat>) returns (ghost done: set<nat>)
      requires slots != null && slots.Length == cap && size == |keys| && TableOk(slots[..], keys, tombs)
      requires t != slots && size < t.Length && TableOk(t[..], {}, 0)
      modifies t
      ensures done == keys && TableOk(t[..], done, 0)
    {
      hide TableOk, And, IndexOf, Slot, GoodCap;
      var i := 0;
      done := {};
      while i < cap
        invariant 0 <= i <= cap && slots != null && slots[..] == old(slots[..]) && cap == slots.Length
        invariant done == LiveUpTo(slots[..], i) && done <= keys && TableOk(t[..], done, 0)
      {
        var key := slots[i];
        if key != EMPTY && key != TOMB {
          RehashKey(i);
          SubsetSize(done, keys);
          RawInsert(t, key, done);
          done := done + {key};
        }
        i := i + 1;
      }
      AllKeysListed(slots[..], keys, tombs);
    }

    lemma RehashKey(i: nat)
      requires slots != null && slots.Length == cap && TableOk(slots[..], keys, tombs)
      requires i < cap && slots[i] != EMPTY && slots[i] != TOMB
      ensures slots[i] in keys && IsBase(slots[i]) && slots[i] !in LiveUpTo(slots[..], i)
    {
      SlotValue(slots[..], keys, tombs, i);
      forall j: nat | j < i ensures slots[j] != slots[i] {
        if slots[j] != EMPTY && slots[j] != TOMB { KeyOnce(slots[..], keys, tombs, j, i); }
      }
    }

    /** The next registration must rehash or grow first. */
    predicate Crowded()
      reads this
    {
      (size + tombs + 1) * 10 >= cap * 7
    }

    /** region_register. `first` and `again`: whether the kernel grants the initial table and a replacement. The probe
        ends exactly if a slot is empty, a replacement is granted, or the base is already there. */
    method Register(base: nat, first: bool, again: bool)
      requires Stored() && IsBase(base) && base != EMPTY && (Sound() || again || base in keys)
      modifies this, slots
      ensures Stored() && (slots != old(slots) ==> slots == null || fresh(slots))
      ensures keys == if old(slots) == null && !first then {} else old(keys) + {base}
      ensures Light() <==>
              !(old(slots) != null && old(Crowded()) && !again
                && (!old(Light()) || TakesEmptySlot(old(slots[..]), base)))
      ensures Sound() <==>
              old(slots) == null || again
              || (old(Sound()) && !(old(size + tombs) + 1 == old(cap) && TakesEmptySlot(old(slots[..]), base)))
      ensures old(slots) == null && first ==> slots != null && cap == INITIAL_CAP && tombs == 0
      ensures most == if |keys| > old(most) then |keys| else old(most)
      ensures old(slots) != null && !old(Crowded()) ==> slots == old(slots) && cap == old(cap)
      ensures old(slots) != null && cap > old(cap) ==> cap == 2 * old(cap) <= 4 * |old(keys)|
      ensures old(slots) != null && old(Crowded()) && again ==>
              && fresh(slots) && tombs == 0 && (cap == old(cap) <==> 2 * |old(keys)| < old(cap))
              && 2 * |old(keys)| <= cap && (2 * |old(keys)| == cap <==> |old(keys)| == old(cap))
      ensures old(slots) != null && !again ==> slots == old(slots) && cap == old(cap) && tombs <= old(tombs)
    {
      hide TableOk, TakesEmptySlot, Accounted;
      InitialCap();
      if slots == null { GrowLocked(INITIAL_CAP, first); }
      if (size + tombs + 1) * 10 >= cap * 7 {
        RoomToGrow();
        if slots != null { NextCapMeaning(cap, size); }
        GrowLocked(NextCap(cap, size), again);
      }
      if slots == null { return; }
      assert Crowded() ==> old(slots) != null && slots == old(slots) && old(Crowded()) && !again;
      Insert(base);
    }

    /** The capacity asked for is a power of two with room for the keys, and after moving there the table is not
        crowded. */
    lemma RoomToGrow()
      requires Stored() && Crowded()
      ensures var c := NextCap(cap, size);
              && (c == 0 <==> slots == null)
              && (c == 0 || (GoodCap(c) && INITIAL_CAP <= c <= MAX_CAP && size < c && (size + 1) * 10 < c * 7))
              && (c <= INITIAL_CAP || c <= 4 * most) && (slots != null ==> size <= cap)
    {
      hide SlotsBytes, GoodOsPage;
      if slots != null {
        DoubleCap(cap);
        NextCapBounded(cap, keys);
      }
    }

    /** The probe loop of region_register: stops at the key, or else at the first tombstone of the path if there is
        one (`reuse`) and at the empty slot that ends the path if not. */
    method FindSlot(base: nat) returns (present: bool, i: nat, reuse: bool, ghost d: nat)
      requires Stored() && slots != null && IsBase(base) && base != EMPTY && (Sound() || base in keys)
      ensures present <==> base in keys
      ensures present ==> !TakesEmptySlot(slots[..], base)
      ensures !present ==>
              d < cap && i == Slot(Home(slots[..], base), d, cap) && Occupied(slots[..], Home(slots[..], base), d)
      ensures !present ==> slots[i] == (if reuse then TOMB else EMPTY) && (reuse <==> !TakesEmptySlot(slots[..], base))
      ensures !present ==> Unseen(slots[..], Home(slots[..], base), TOMB, d)
    {
      hide TableOk, And, IndexOf, Slot, GoodCap, TakesEmptySlot, Accounted;
      ghost var t := slots[..];
      TableCap(t, keys, tombs);
      var home := IndexOf(cap - 1, base);
      i, d, reuse := home, 0, false;
      var firstTomb: int := -1;
      ghost var far := ProbeBound(t, keys, tombs, base);
      ghost var fd: nat := 0;
      SlotZero(home, cap);
      while slots[i] != EMPTY
        invariant d <= far < cap && i == Slot(home, d, cap) && Occupied(t, home, d) && Unseen(t, home, base, d)
        invariant firstTomb == -1 ==> Unseen(t, home, TOMB, d)
        invariant firstTomb != -1 ==>
                  fd < d && firstTomb == Slot(home, fd, cap) && t[firstTomb] == TOMB && Unseen(t, home, TOMB, fd)
        decreases far - d
      {
        if slots[i] == base {
          Present(t, keys, tombs, i);
          SeenNotFresh(t, home, base, d);
          return true, i, false, d;
        }
        if slots[i] == TOMB && firstTomb == -1 { firstTomb, fd := i, d; }
        ProbeStep(home, d, cap);
        i := And(i + 1, cap - 1);
        d := d + 1;
      }
      MissMeansAbsent(t, keys, tombs, base, home, d);
      present := false;
      if firstTomb != -1 {
        SeenNotFresh(t, home, base, fd);
        i, reuse, d := firstTomb, true, fd;
      } else {
        FreshPath(t, home, base, d);
      }
    }

    /** The insertion half of region_register, on a table where the probe ends. */
    method Insert(base: nat)
      requires Stored() && slots != null && IsBase(base) && base != EMPTY && (Sound() || base in keys)
      modifies this, slots
      ensures Stored() && slots == old(slots) && cap == old(cap) && tombs <= old(tombs)
      ensures keys == old(keys) + {base} && most == if |keys| > old(most) then |keys| else old(most)
      ensures Light() <==> old(Light()) && !(old(Crowded()) && TakesEmptySlot(old(slots[..]), base))
      ensures Sound() <==> old(Sound()) && !(old(size + tombs) + 1 == cap && TakesEmptySlot(old(slots[..]), base))
    {
      hide TableOk, IndexOf, Slot, TakesEmptySlot, Occupied, Accounted;
      var present, i, reuse, d := FindSlot(base);
      if present { return; }
      InsertKeeps(slots[..], keys, tombs, base, d);
      slots[i] := base;
      if reuse { tombs := tombs - 1; }
      keys := keys + {base};
      size := size + 1;
      most := if size > most then size else most;
    }

    /** region_unregister. The probe ends exactly if a slot is empty or the base is there. */
    method Unregister(base: nat)
      requires Stored() && IsBase(base) && (Sound() || base in keys)
      modifies this, slots
      ensures Stored() && slots == old(slots) && cap == old(cap) && (Sound() <==> old(Sound()))
              && (Light() <==> old(Light()))
      ensures keys == old(keys) - {base} && most == old(most)
    {
      hide TableOk, And, IndexOf, Slot, GoodCap, Accounted;
      if slots == null { return; }
      var home := IndexOf(cap - 1, base);
      var i := home;
      ghost var t := slots[..];
      TableCap(t, keys, tombs);
      ghost var far := ProbeBound(t, keys, tombs, base);
      ghost var d: nat := 0;
      SlotZero(home, cap);
      while slots[i] != EMPTY
        invariant unchanged(this) && slots != null && slots[..] == t && d <= far < cap && i == Slot(home, d, cap)
                  && Unseen(t, home, base, d)
        decreases far - d
      {
        if slots[i] == base {
          Present(t, keys, tombs, i);
          RemoveKeeps(t, keys, tombs, i);
          slots[i] := TOMB;
          keys := keys - {base};
          size := size - 1;
          tombs := tombs + 1;
          return;
        }
        ProbeStep(home, d, cap);
        i := And(i + 1, cap - 1);
        d := d + 1;
      }
      MissMeansAbsent(t, keys, tombs, base, home, d);
    }

    /** region_owns: set membership, decided from the address alone. The probe ends exactly if a slot is empty or the
        base is there. */
    method Owns(base: nat) returns (r: bool)
      requires Stored() && IsBase(base) && (Sound() || base in keys)
      ensures r <==> base in keys
    {
      hide TableOk, And, IndexOf, Slot, GoodCap, Accounted;
      if slots == null { return false; }
      var home := IndexOf(cap - 1, base);
      var i := home;
      ghost var t := slots[..];
      TableCap(t, keys, tombs);
      ghost var far := ProbeBound(t, keys, tombs, base);
      ghost var d: nat := 0;
      SlotZero(home, cap);
      while slots[i] != EMPTY
        invariant unchanged(this) && slots != null && slots[..] == t && d <= far < cap && i == Slot(home, d, cap)
                  && Unseen(t, home, base, d)
        decreases far - d
      {
        if slots[i] == base {
          Present(t, keys, tombs, i);
          return true;
        }
        ProbeStep(home, d, cap);
        i := And(i + 1, cap - 1);
        d := d + 1;
      }
      MissMeansAbsent(t, keys, tombs, base, home, d);
      return false;
    }
  }

  lemma Present(t: seq<nat>, keys: set<nat>, tombs: nat, i: nat)
    requires TableOk(t, keys, tombs) && i < |t| && IsBase(t[i]) && t[i] != EMPTY
    ensures t[i] in keys
  {
    NotTomb(t[i]);
    SlotValue(t, keys, tombs, i);
  }

  /** The probe path of an absent key runs into an empty slot before any tombstone. */
  ghost predicate EmptyFirst(t: seq<nat>, home: nat, key: nat, d: nat)
    requires |t| > 0
  {
    t[Slot(home, d, |t|)] == EMPTY && Unseen(t, home, key, d) && Unseen(t, home, TOMB, d) && Occupied(t, home, d)
  }

  /** Registering the key consumes an empty slot: it is absent and its path has no tombstone to reuse. */
  ghost predicate TakesEmptySlot(t: seq<nat>, key: nat) {
    |t| > 0 && exists d: nat :: EmptyFirst(t, Home(t, key), key, d)
  }

  lemma FreshPath(t: seq<nat>, home: nat, key: nat, d: nat)
    requires |t| > 0 && home == Home(t, key) && EmptyFirst(t, home, key, d)
    ensures TakesEmptySlot(t, key)
  {
  }

  lemma SeenNotFresh(t: seq<nat>, home: nat, key: nat, d: nat)
    requires |t| > 0 && home == Home(t, key) && Occupied(t, home, d)
    requires t[Slot(home, d, |t|)] == TOMB || (t[Slot(home, d, |t|)] == key && key != EMPTY)
    ensures !TakesEmptySlot(t, key)
  {
    forall e: nat ensures !EmptyFirst(t, home, key, e) {
      assert t[Slot(home, d, |t|)] != EMPTY;
      if e < d { assert t[Slot(home, e, |t|)] != EMPTY; }
    }
  }

  lemma InitialCap()
    ensures GoodCap(INITIAL_CAP)
  {
    assert Pow2(5) == 32;
    Pow2Add(5, 5);
  }

  lemma DoubleCap(cap: nat)
    requires GoodCap(cap) && cap > 0
    ensures GoodCap(cap * 2)
  {
    var k: nat :| k <= cap && cap == Pow2(k);
    assert cap * 2 == Pow2(k + 1);
    Pow2Bound(k + 1);
  }

  /** A probe path that holds an empty slot has a first one. */
  lemma FirstEmpty(t: seq<nat>, home: nat, far: nat) returns (d: nat)
    requires |t| > 0 && t[Slot(home, far, |t|)] == EMPTY
    ensures d <= far && t[Slot(home, d, |t|)] == EMPTY && Occupied(t, home, d)
  {
    d := 0;
    while t[Slot(home, d, |t|)] != EMPTY
      invariant d <= far && Occupied(t, home, d)
      decreases far - d
    {
      d := d + 1;
    }
  }

  /** With n keys and no tombstone in a larger table, an absent key takes an empty slot. */
  lemma AbsentTakesEmpty(t: seq<nat>, keys: set<nat>, key: nat) returns (d: nat)
    requires TableOk(t, keys, 0) && |keys| < |t| && IsBase(key) && key != EMPTY && key !in keys
    ensures d < |t| && EmptyFirst(t, Home(t, key), key, d) && TakesEmptySlot(t, key)
  {
    hide And, IndexOf;
    var z := EmptySlot(t, keys, 0);
    var far := SlotReached(Home(t, key), z, |t|);
    d := FirstEmpty(t, Home(t, key), far);
    NotTomb(key);
    forall e: nat | e < d ensures t[Slot(Home(t, key), e, |t|)] != key && t[Slot(Home(t, key), e, |t|)] != TOMB {
      assert ValueOk(keys, t[Slot(Home(t, key), e, |t|)]) && t[Slot(Home(t, key), e, |t|)] in t;
    }
  }

  /** Tables with any number of keys below their capacity exist. */
  lemma {:induction false} TableOfSize(n: nat) returns (t: seq<nat>, keys: set<nat>)
    requires n < INITIAL_CAP
    ensures |t| == INITIAL_CAP && TableOk(t, keys, 0) && |keys| == n && forall k :: k in keys ==> k <= n * SEGMENT_SIZE
  {
    hide TableOk, And, IndexOf, GoodCap;
    InitialCap();
    if n == 0 {
      t, keys := seq(INITIAL_CAP, _ => EMPTY), {};
      FreshTable(t);
    } else {
      var t0, ks := TableOfSize(n - 1);
      var key := n * SEGMENT_SIZE;
      var d := AbsentTakesEmpty(t0, ks, key);
      InsertKeeps(t0, ks, 0, key, d);
      t, keys := t0[Slot(Home(t0, key), d, |t0|) := key], ks + {key};
    }
  }

  /** The load bound can be lost: a table within it that is crowded, and a base whose registration takes
      an empty slot when the kernel refuses a larger table. */
  lemma LoadBoundCanBeLost() returns (t: seq<nat>, keys: set<nat>, base: nat)
    ensures |t| == INITIAL_CAP && TableOk(t, keys, 0) && IsBase(base) && base != EMPTY && base !in keys
    ensures |keys| * 10 < |t| * 7 <= (|keys| + 1) * 10 && TakesEmptySlot(t, base)
  {
    hide TableOk, And, IndexOf, GoodCap;
    t, keys := TableOfSize(716);
    base := 717 * SEGMENT_SIZE;
    var d := AbsentTakesEmpty(t, keys, base);
  }

  /** So can the last empty slot: a table with one left, and a base whose registration takes it when the kernel refuses
      a larger table. A probe for any base that is not in the table then never ends. */
  lemma LastSlotCanBeLost() returns (t: seq<nat>, keys: set<nat>, base: nat, t': seq<nat>)
    ensures |t| == INITIAL_CAP && TableOk(t, keys, 0) && IsBase(base) && base != EMPTY && base !in keys
    ensures |keys| + 1 == |t| && TakesEmptySlot(t, base)
    ensures |t'| == |t| && TableOk(t', keys + {base}, 0)
    ensures forall key, d: nat {:trigger Stops(t', key, d)} :: IsBase(key) && key !in keys + {base} ==>
            !Stops(t', key, d)
  {
    hide TableOk, And, IndexOf, GoodCap;
    t, keys := TableOfSize(1023);
    base := 1024 * SEGMENT_SIZE;
    var d := AbsentTakesEmpty(t, keys, base);
    InsertKeeps(t, keys, 0, base, d);
    t' := t[Slot(Home(t, base), d, |t|) := base];
    forall key, e: nat | IsBase(key) && key !in keys + {base} ensures !Stops(t', key, e) {
      FullTableNeverStops(t', keys + {base}, 0, key, e);
    }
  }

  /** Such a table is reached by registrations alone: 1024 of them, the first granted its table and all growth
      refused. */
  method RegisterUntilFull(ps: nat) returns (r: RegionRegistry)
    requires GoodOsPage(ps)
    ensures fresh(r) && r.Stored() && r.slots != null && r.tombs == 0 && r.size == r.cap == INITIAL_CAP && !r.Sound()
  {
    hide TableOk, GoodOsPage, TakesEmptySlot, RegionRegistry.Accounted, RegionRegistry.Light, RegionRegistry.Crowded;
    r := new RegionRegistry(ps);
    var i := 0;
    while i < INITIAL_CAP
      invariant 0 <= i <= INITIAL_CAP && fresh(r) && r.Stored() && r.size == i && (i == 0 <==> r.slots == null)
      invariant i > 0 ==> fresh(r.slots) && r.cap == INITIAL_CAP && r.tombs == 0
      invariant forall k :: k in r.keys ==> k <= i * SEGMENT_SIZE
    {
      i := i + 1;
      r.Register(i * SEGMENT_SIZE, true, false);
    }
  }

  lemma SubsetSize(a: set<nat>, b: set<nat>)
    requires a <= b
    ensures |a| <= |b|
  {
    if a != {} {
      var x :| x in a;
      SubsetSize(a - {x}, b - {x});
    }
  }
}
