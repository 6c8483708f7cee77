/**
 Which bytes each step writes: never a byte of a live block, except for the client's own stores.
 */
module Writes {
  import opened Layout
  import opened Memory
  import opened Blocks
  import opened Machine
  import opened Invariant
  import opened PageSteps
  import opened OnePage
  import opened BlockActions
  import opened RegionActions
  import opened MapActions
  import opened Safety
  import opened Theorems
  import LargeRegion

  /** The byte at x may change in this step. */
  predicate Written(s: State, a: Action, x: nat) {
    match a
    case AExtend(_, pid) => Area(pid) + Pg(s, pid).reserved * Pg(s, pid).blockSize <= x < Area(pid) + PAGE_SIZE
    case ASplice(t) => PcOf(s, t).Walking? && PcOf(s, t).tail <= x < PcOf(s, t).tail + LINK_BYTES
    case AFree(t, p) => p in s.live && s.live[p].Small? && Owns(s, t, s.live[p].pid) && p <= x < p + LINK_BYTES
    case ALink(t) => PcOf(s, t).Loaded? && PcOf(s, t).b <= x < PcOf(s, t).b + LINK_BYTES
    case AMapSegment(_, seg) => seg * SEGMENT_SIZE <= x < (seg + 1) * SEGMENT_SIZE
    case AMapLarge(_, base, size, align, ps) =>
      0 < align <= WORD && 0 < ps <= WORD && LargeRegion.AllocLargePlan(size, align, ps).Plan? &&
      base <= x < base + LargeRegion.AllocLargePlan(size, align, ps).mmapSize
    case AWrite(_, p, off, _) => x == p + off
    case _ => false
  }

  lemma FreeMemory(s: State, v: View, t: Tid, p: nat, x: nat)
    requires Rep(s, v) && CanFree(s, t, p) && Safe(s, AFree(t, p)) && !Written(s, AFree(t, p), x)
    ensures Get(Free(s, t, p).mem, x) == Get(s.mem, x)
  {
    hide Rep, RegionBase, PageOf, Store;
    RegionOfLive(s, v, p);
    LiveHome(s, v, p);
    if s.live[p].Small? { NullIsNoOwner(s, v, t, s.live[p].pid); }
  }

  lemma WritesOnly(s: State, v: View, a: Action, x: nat)
    requires Rep(s, v) && Enabled(s, a) && Safe(s, a) && !Written(s, a, x)
    ensures Get(Next(s, a).mem, x) == Get(s.mem, x)
  {
    hide Rep, Enabled, Safe, Next, Written;
    if OnBlocks(a) {
      BlockWritesOnly(s, v, a, x);
    } else {
      PageWritesOnly(s, a, x);
    }
  }

  lemma BlockWritesOnly(s: State, v: View, a: Action, x: nat)
    requires Rep(s, v) && Enabled(s, a) && Safe(s, a) && !Written(s, a, x) && OnBlocks(a)
    ensures Get(Next(s, a).mem, x) == Get(s.mem, x)
  {
    hide Rep, RegionBase, PageOf, Store, Poke, Clear, Carve, Fresh, Unmapped, LargeRegion.AllocLargePlan, Free;
    if a.AFree? {
      FreeMemory(s, v, a.t, a.p, x);
    } else if a.AExtend? {
      var v' := KeepExtend(s, v, a.t, a.pid);
    }
  }

  lemma PageWritesOnly(s: State, a: Action, x: nat)
    requires Enabled(s, a) && Safe(s, a) && !Written(s, a, x) && !OnBlocks(a)
    ensures Get(Next(s, a).mem, x) == Get(s.mem, x)
  {
    hide RegionBase, PageOf, Clear, Unmapped, LargeRegion.AllocLargePlan, Surplus, FullyFree;
  }

  /** The block whose first bytes the step overwrites, if it overwrites a block. */
  function Target(s: State, a: Action): Option<nat> {
    match a
    case ASplice(t) => if PcOf(s, t).Walking? then Some(PcOf(s, t).tail) else None
    case AFree(t, p) => Some(p)
    case ALink(t) => if PcOf(s, t).Loaded? then Some(PcOf(s, t).b) else None
    case AWrite(_, p, _, _) => Some(p)
    case _ => None
  }

  lemma Outside(lo: nat, hi: nat, pid: nat, x: nat)
    requires Disjoint(lo, hi, SegmentOfPage(pid) * SEGMENT_SIZE, (SegmentOfPage(pid) + 1) * SEGMENT_SIZE)
    requires Area(pid) <= x < Area(pid) + PAGE_SIZE
    ensures !(lo <= x < hi)
  {
    PageInSegment(pid);
  }

  /** Two blocks, of the same page or of different ones, share no byte. */
  lemma BlocksSeparate(s: State, v: View, p: nat, y: nat, q: nat, z: nat)
    requires Rep(s, v) && p in s.pages && q in s.pages && s.pages[p].inUse && s.pages[q].inUse && p in v && q in v
    requires y in Held(v[p]) && z in Held(v[q]) && y != z
    ensures Disjoint(y, y + s.pages[p].blockSize, z, z + s.pages[q].blockSize)
    ensures s.pages[q].blockSize >= LINK_BYTES && s.pages[p].blockSize >= LINK_BYTES
  {
    hide Rep;
    PageFacts(s, v, p);
    PageFacts(s, v, q);
    HeldPlace(p, s.pages[p], v[p], s.mem, y);
    HeldPlace(q, s.pages[q], v[q], s.mem, z);
    if p == q { ApartInPage(p, s.pages[p], v[p], s.mem, y, z); }
  }

  /** A step whose target is another block leaves all bytes of a carved block alone. */
  lemma HeldNotWritten(s: State, v: View, a: Action, pid: nat, y: nat, x: nat)
    requires Rep(s, v) && Enabled(s, a) && Safe(s, a) && pid in s.pages && s.pages[pid].inUse && pid in v
             && y in Held(v[pid])
    requires Target(s, a) != Some(y) && y <= x < y + s.pages[pid].blockSize
    ensures !Written(s, a, x)
  {
    hide Rep, Held, PageOk, RegionBase, PageOf, LargeRegion.AllocLargePlan;
    PageFacts(s, v, pid);
    HeldPlace(pid, s.pages[pid], v[pid], s.mem, y);
    match a {
      case AExtend(t, q) => ExtendMisses(s, v, t, q, pid, y, x);
      case ASplice(t) =>
        TargetHeld(s, v, a);
        BlocksSeparate(s, v, pid, y, PcOf(s, t).pid, PcOf(s, t).tail);
      case ALink(t) =>
        TargetHeld(s, v, a);
        BlocksSeparate(s, v, pid, y, PcOf(s, t).pid, PcOf(s, t).b);
      case AFree(t, p) =>
        if s.live[p].Small? {
          TargetHeld(s, v, a);
          BlocksSeparate(s, v, pid, y, s.live[p].pid, p);
        }
      case AWrite(_, p, off, _) => WriteMissesBlock(s, v, p, off, pid, y);
      case AMapSegment(_, seg) => Outside(seg * SEGMENT_SIZE, (seg + 1) * SEGMENT_SIZE, pid, x);
      case AMapLarge(_, base, size, align, ps) =>
        Outside(base, base + LargeRegion.AllocLargePlan(size, align, ps).mmapSize, pid, x);
      case _ =>
    }
  }

  lemma TargetHeld(s: State, v: View, a: Action)
    requires Rep(s, v) && Enabled(s, a) && (a.ASplice? || a.ALink? || (a.AFree? && s.live[a.p].Small?))
    ensures match a
            case ASplice(t) =>
              var c := PcOf(s, t);
              c.pid in v && c.pid in s.pages && s.pages[c.pid].inUse && c.tail in v[c.pid].taken
                  && c.tail in Held(v[c.pid])
            case ALink(t) =>
              var c := PcOf(s, t);
              c.pid in v && c.pid in s.pages && s.pages[c.pid].inUse && c.b in v[c.pid].flight && c.b in Held(v[c.pid])
            case AFree(t, p) => var q := s.live[p].pid;
                q in v && q in s.pages && s.pages[q].inUse && p in v[q].live && p in Held(v[q])
            case _ => true
  {
    hide Rep;
    ThreadFacts(s, v, a.t);
    if a.AFree? { LiveHome(s, v, a.p); }
  }

  lemma ExtendMisses(s: State, v: View, t: Tid, q: nat, pid: nat, y: nat, x: nat)
    requires Rep(s, v) && CanExtend(s, t, q) && pid in s.pages && s.pages[pid].inUse && pid in v && y in Held(v[pid])
    requires y <= x < y + s.pages[pid].blockSize
    ensures !Written(s, AExtend(t, q), x)
  {
    hide Rep, PageOk, Held, Carved;
    PageFacts(s, v, pid);
    PageFacts(s, v, q);
    HeldPlace(pid, s.pages[pid], v[pid], s.mem, y);
    if q == pid {
      HeldBelow(pid, s.pages[pid], v[pid], s.mem, y);
    } else {
      OtherArea(q, s.pages[q].reserved * s.pages[q].blockSize, pid, x);
    }
  }

  lemma HeldBelow(pid: nat, pg: Page, pv: PageView, m: Mem, y: nat)
    requires pg.inUse && PageOk(pid, pg, pv, m) && y in Held(pv)
    ensures y + pg.blockSize <= Area(pid) + pg.reserved * pg.blockSize
  {
    assert y in multiset(Carved(pid, pg));
    CarvedBelow(pid, pg, y);
  }

  lemma OtherArea(q: nat, off: nat, pid: nat, x: nat)
    requires q != pid && Area(pid) <= x < Area(pid) + PAGE_SIZE
    ensures !(Area(q) + off <= x < Area(q) + PAGE_SIZE)
  {
  }

  lemma WriteMissesBlock(s: State, v: View, p: nat, off: nat, pid: nat, y: nat)
    requires Rep(s, v) && CanWrite(s, p, off) && pid in s.pages && s.pages[pid].inUse && pid in v && y in Held(v[pid])
             && y != p
    ensures !(y <= p + off < y + s.pages[pid].blockSize)
  {
    hide Rep, Held, PageOk;
    LiveHome(s, v, p);
    if s.live[p].Small? {
      BlocksSeparate(s, v, pid, y, s.live[p].pid, p);
    } else {
      BigMissesRange(s, v, s.live[p].base, pid, y, p + off);
    }
  }

  lemma BigMissesRange(s: State, v: View, base: nat, pid: nat, y: nat, x: nat)
    requires Rep(s, v) && base in s.large && pid in s.pages && s.pages[pid].inUse && pid in v && y in Held(v[pid])
    requires base <= x < base + s.large[base].size
    ensures !(y <= x < y + s.pages[pid].blockSize)
  {
    hide Rep;
    PageFacts(s, v, pid);
    HeldPlace(pid, s.pages[pid], v[pid], s.mem, y);
    BigOutside(s, v, base, pid, x);
  }

  /** A large region's bytes are written only by the client that owns it. */
  lemma BigNotWritten(s: State, v: View, a: Action, p: nat, x: nat)
    requires Rep(s, v) && Enabled(s, a) && Safe(s, a) && p in s.live && s.live[p].Big? && p <= x < p + s.live[p].usable
    requires Target(s, a) != Some(p)
    ensures !Written(s, a, x)
  {
    hide Rep, Held, PageOk, RegionBase, PageOf, LargeRegion.AllocLargePlan;
    LiveHome(s, v, p);
    var base := s.live[p].base;
    match a {
      case AExtend(t, q) => BigOutside(s, v, base, q, x);
      case ASplice(t) => BigMissesTarget(s, v, a, base, x);
      case ALink(t) => BigMissesTarget(s, v, a, base, x);
      case AFree(t, q) => if s.live[q].Small? { BigMissesTarget(s, v, a, base, x); }
      case AWrite(_, q, off, _) => BigMissesWrite(s, v, p, q, off);
      case _ =>
    }
  }

  lemma BigMissesTarget(s: State, v: View, a: Action, base: nat, x: nat)
    requires Rep(s, v) && Enabled(s, a) && Safe(s, a) && base in s.large && base <= x < base + s.large[base].size
    requires a.ASplice? || a.ALink? || (a.AFree? && a.p in s.live && s.live[a.p].Small?)
    ensures !Written(s, a, x)
  {
    hide Rep, Held, PageOk, RegionBase, PageOf, LargeRegion.AllocLargePlan;
    TargetHeld(s, v, a);
    match a {
      case ASplice(t) => BigMissesBlock(s, v, base, PcOf(s, t).pid, PcOf(s, t).tail, x);
      case ALink(t) => BigMissesBlock(s, v, base, PcOf(s, t).pid, PcOf(s, t).b, x);
      case AFree(t, q) => BigMissesBlock(s, v, base, s.live[q].pid, q, x);
    }
  }

  lemma BigMissesBlock(s: State, v: View, base: nat, pid: nat, y: nat, x: nat)
    requires Rep(s, v) && base in s.large && pid in s.pages && s.pages[pid].inUse && pid in v && y in Held(v[pid])
    requires base <= x < base + s.large[base].size
    ensures !(y <= x < y + LINK_BYTES)
  {
    hide Rep;
    PageFacts(s, v, pid);
    BigMissesRange(s, v, base, pid, y, x);
  }

  lemma BigMissesWrite(s: State, v: View, p: nat, q: nat, off: nat)
    requires Rep(s, v) && p in s.live && s.live[p].Big? && CanWrite(s, q, off) && q != p
    ensures !(p <= q + off < p + s.live[p].usable)
  {
    if s.live[q].Small? { SmallBigApart(s, v, q, p); } else { BigBigApart(s, v, p, q); }
  }

  /** No step by any thread writes inside a live block: only the client's own stores and its own free touch it. */
  lemma LiveBytesUntouched(s: State, a: Action, p: nat, x: nat)
    requires Reachable(s) && Enabled(s, a) && Safe(s, a) && p in s.live && p <= x < p + s.live[p].usable
    requires !(a.AWrite? && a.p == p) && !(a.AFree? && a.p == p)
    ensures Get(Next(s, a).mem, x) == Get(s.mem, x)
    ensures p in Next(s, a).live && Next(s, a).live[p] == s.live[p]
  {
    hide Rep, Written, RegionBase, PageOf, LargeRegion.AllocLargePlan;
    var v := ReachableRep(s);
    LiveBytes(s, v, a, p, x);
    StillLive(s, v, a, p);
  }

  lemma LiveBytes(s: State, v: View, a: Action, p: nat, x: nat)
    requires Rep(s, v) && Enabled(s, a) && Safe(s, a) && p in s.live && p <= x < p + s.live[p].usable
    requires !(a.AWrite? && a.p == p) && !(a.AFree? && a.p == p)
    ensures Get(Next(s, a).mem, x) == Get(s.mem, x)
  {
    hide Rep, Written, Next, Enabled, Safe;
    LiveHome(s, v, p);
    NotTarget(s, v, a, p);
    if s.live[p].Small? {
      HeldNotWritten(s, v, a, s.live[p].pid, p, x);
    } else {
      BigNotWritten(s, v, a, p, x);
    }
    WritesOnly(s, v, a, x);
  }

  lemma NotTarget(s: State, v: View, a: Action, p: nat)
    requires Rep(s, v) && Enabled(s, a) && p in s.live && !(a.AWrite? && a.p == p) && !(a.AFree? && a.p == p)
    ensures Target(s, a) != Some(p)
  {
    hide Rep;
    if a.ASplice? || a.ALink? {
      TargetHeld(s, v, a);
      var q := PcOf(s, a.t).pid;
      PageFacts(s, v, q);
      HeldOnce(q, s.pages[q], v[q], s.mem);
      assert Target(s, a).Some?;
      var y := Target(s, a).value;
      assert Held(v[q])[y] <= 1;
      NotLive(s, v, q, y);
    }
  }

  lemma StillLive(s: State, v: View, a: Action, p: nat)
    requires Rep(s, v) && Enabled(s, a) && Safe(s, a) && p in s.live && !(a.AFree? && a.p == p)
    ensures p in Next(s, a).live && Next(s, a).live[p] == s.live[p]
  {
    hide Rep, Enabled, Safe, Next;
    if a.APop? || a.AFree? || a.APublish? || a.AUnmapLarge? {
      MoveKeepsLive(s, v, a, p);
    } else {
      OthersKeepLive(s, a);
    }
  }

  lemma OthersKeepLive(s: State, a: Action)
    requires Enabled(s, a) && Safe(s, a) && !(a.APop? || a.AFree? || a.APublish? || a.AUnmapLarge?)
    ensures Next(s, a).live == s.live
  {
    hide RegionBase, PageOf, LargeRegion.AllocLargePlan, Fresh, Carve, Store, Clear, Unmapped, Poke, Surplus, FullyFree;
  }

  lemma MoveKeepsLive(s: State, v: View, a: Action, p: nat)
    requires Rep(s, v) && Enabled(s, a) && Safe(s, a) && p in s.live && !(a.AFree? && a.p == p)
    requires a.APop? || a.AFree? || a.APublish? || a.AUnmapLarge?
    ensures p in Next(s, a).live && Next(s, a).live[p] == s.live[p]
  {
    hide Rep, RegionBase, PageOf, LargeRegion.AllocLargePlan, Fresh, Carve, Store, Clear, Unmapped;
    if a.APop? {
      var v' := KeepPop(s, v, a.t, a.pid);
    } else if a.APublish? {
      KeepPublish(s, v, a.t);
    }
  }
}
