/**
 One call of hm_realloc from start to return, under every interleaving: what the caller gets for a null pointer, for
 size zero, for a request that fits and for one that does not.
 */
module Reallocation {
  import opened Layout
  import opened Memory
  import opened SizeClasses
  import opened LargeRegion
  import opened Machine
  import opened Safety
  import opened Theorems
  import opened Protocol
  import opened Api

  /** What an allocation served by a route leaves its caller with: null, or a live block of exactly that class or
      region. */
  ghost predicate Delivers(tb: Table, route: Route, s: State, r: nat) {
    match route
    case Refused => r == 0
    case Class(c) => r == 0 || (c < |tb.size| && r in s.live && s.live[r].Small? && s.live[r].usable == tb.size[c])
    case Region(p) =>
      r == 0 || (p.Plan? && r in s.live && s.live[r].Big? && p.offset + s.live[r].usable == p.mmapSize)
  }

  /** The steps a thread takes inside hm_free after the block has left the client: the remote push, the release of a
      page that became empty, the unmapping of a large region. */
  predicate FreeStep(a: Action) {
    a.ALoad? || a.ALink? || a.ACas? || a.ALock? || a.AUnlock? || a.ARelease? || a.AUnmapLarge?
  }

  /** The run of one call of hm_free(p) by t, interleaved with anything the others do. */
  ghost predicate HmFree(acts: seq<Action>, t: Tid, p: nat) {
    acts != [] && acts[0] == AFree(t, p) && forall j :: 0 < j < |acts| && acts[j].t == t ==> FreeStep(acts[j])
  }

  /** The runs of one call of hm_realloc(p, size) by t that returns r: of its call of hm_malloc, of memcpy, which reads
      the old block as it goes, and of its call of hm_free. Meanwhile nobody else touches the block being moved. */
  ghost predicate Reallocates(tb: Table, ps: nat, s: State, getNew: seq<Action>, copy: seq<Action>, free: seq<Action>,
                              t: Tid, p: nat, size: nat, r: nat)
    requires GoodTable(tb) && GoodOsPage(ps) && size < WORD
    requires Runs(s, getNew) && Runs(Exec(s, getNew), copy) && Runs(Exec(Exec(s, getNew), copy), free)
  {
    var s1 := Exec(s, getNew);
    match Realloc(p == 0, if p == 0 then 0 else UsableSize(s, p), size)
    case AsMalloc => Delivers(tb, Malloc(tb, size, ps), s1, r) && copy == [] && free == []
    case AsFree => r == 0 && getNew == [] && copy == [] && HmFree(free, t, p)
    case InPlace => r == p && getNew == [] && copy == [] && free == []
    case Move(n) =>
      && Delivers(tb, Malloc(tb, size, ps), s1, r) && Spares(getNew, p)
      && if r == 0 then copy == [] && free == []
         else && Spares(copy, p) && Copies(s1, copy, p, r, n) && CopiesAll(copy, r, n)
              && HmFree(free, t, p) && Spares(free[1..], r)
  }

  /** What a block delivered by hm_malloc(size) can hold. */
  lemma DeliveredRoom(tb: Table, ps: nat, size: nat, s: State, r: nat)
    requires GoodTable(tb) && GoodOsPage(ps) && size < WORD && r != 0 && Delivers(tb, Malloc(tb, size, ps), s, r)
    ensures r in s.live && size <= s.live[r].usable
  {
    hide Malloc, GoodTable, GoodOsPage;
    MallocServes(tb, size, ps);
  }

  // ---------------------------------------------------------------- null, zero and in place

  /** hm_realloc(NULL, size) is hm_malloc(size): its runs are those of hm_malloc, with nothing copied or freed, and it
      returns a block of the very route, or null. */
  lemma ReallocNull(tb: Table, ps: nat, s: State, getNew: seq<Action>, copy: seq<Action>, free: seq<Action>, t: Tid,
                    size: nat, r: nat)
    requires GoodTable(tb) && GoodOsPage(ps) && size < WORD
    requires Runs(s, getNew) && Runs(Exec(s, getNew), copy) && Runs(Exec(Exec(s, getNew), copy), free)
    ensures Reallocates(tb, ps, s, getNew, copy, free, t, 0, size, r) <==>
              Delivers(tb, Malloc(tb, size, ps), Exec(s, getNew), r) && copy == [] && free == []
    ensures size == 0 && Reallocates(tb, ps, s, getNew, copy, free, t, 0, size, r) ==> r == 0
  {
    hide Malloc, GoodTable, GoodOsPage;
    MallocServes(tb, size, ps);
  }

  /** The pointers that threads other than t are handed during the run. */
  ghost function Given(s: State, acts: seq<Action>, t: Tid): set<nat>
    requires Runs(s, acts)
    decreases |acts|
  {
    if acts == [] then {}
    else
      var s' := Next(s, acts[0]);
      (if acts[0].t == t then {} else s'.live.Keys - s.live.Keys) + Given(s', acts[1..], t)
  }

  lemma PushStepKeepsLive(s: State, a: Action)
    requires Enabled(s, a) && Safe(s, a) && (a.ALoad? || a.ALink? || a.ACas?)
    ensures Next(s, a).live == s.live
  {
    hide Store;
  }

  lemma ReleaseStepKeepsLive(s: State, a: Action)
    requires Enabled(s, a) && Safe(s, a) && (a.ALock? || a.AUnlock? || a.ARelease? || a.AUnmapLarge?)
    ensures Next(s, a).live == s.live
  {
    hide Surplus;
  }

  lemma FreeStepKeepsLive(s: State, a: Action)
    requires Enabled(s, a) && Safe(s, a) && FreeStep(a)
    ensures Next(s, a).live == s.live
  {
    hide Enabled, Safe, Next;
    if a.ALoad? || a.ALink? || a.ACas? { PushStepKeepsLive(s, a); } else { ReleaseStepKeepsLive(s, a); }
  }

  lemma FreeTakes(s: State, t: Tid, p: nat)
    requires Safe(s, AFree(t, p))
    ensures Free(s, t, p).live == s.live - {p}
  {
    hide RegionBase, PageOf, FreeLarge, FreeLocal, FreeRemote;
    BranchesTake(s, t, RegionBase(p), PageOf(p), p);
  }

  lemma BranchesTake(s: State, t: Tid, base: nat, pid: nat, p: nat)
    ensures base in s.large ==> FreeLarge(s, t, base, p).live == s.live - {p}
    ensures FreeLocal(s, pid, p).live == s.live - {p} && FreeRemote(s, t, pid, p).live == s.live - {p}
  {
    hide Store;
  }

  lemma {:induction false} StepsAddNothing(s: State, acts: seq<Action>, t: Tid)
    requires Runs(s, acts) && forall j :: 0 <= j < |acts| && acts[j].t == t ==> FreeStep(acts[j])
    ensures Exec(s, acts).live.Keys <= s.live.Keys + Given(s, acts, t)
    decreases |acts|
  {
    hide Enabled, Safe, Next, FreeStep;
    if acts != [] {
      var a, s1 := acts[0], Next(s, acts[0]);
      if a.t == t { FreeStepKeepsLive(s, a); }
      forall j | 0 <= j < |acts[1..]| && acts[1..][j].t == t ensures FreeStep(acts[1..][j]) {
        assert acts[j + 1] == acts[1..][j];
      }
      StepsAddNothing(s1, acts[1..], t);
    }
  }

  /** hm_free takes its pointer from the client and hands out none: whatever is live at the end, except what the others
      were given meanwhile, was live before and is not that pointer. */
  lemma FreeOutcome(s: State, acts: seq<Action>, t: Tid, p: nat)
    requires Runs(s, acts) && HmFree(acts, t, p)
    ensures Exec(s, acts).live.Keys <= (s.live.Keys - {p}) + Given(s, acts, t)
  {
    hide Enabled, Safe, Free, FreeStep, RegionBase, PageOf, AllocLargePlan;
    FreeTakes(s, t, p);
    var rest := acts[1..];
    forall j | 0 <= j < |rest| && rest[j].t == t ensures FreeStep(rest[j]) { assert rest[j] == acts[j + 1]; }
    StepsAddNothing(Next(s, acts[0]), rest, t);
  }

  /** hm_realloc(p, 0) is hm_free(p): its runs are those of hm_free, null is returned, the pointer is taken and no block
      is handed out. */
  lemma ReallocZero(tb: Table, ps: nat, s: State, getNew: seq<Action>, copy: seq<Action>, free: seq<Action>, t: Tid,
                    p: nat, r: nat)
    requires GoodTable(tb) && GoodOsPage(ps) && Reachable(s) && p in s.live
    requires Runs(s, getNew) && Runs(Exec(s, getNew), copy) && Runs(Exec(Exec(s, getNew), copy), free)
    ensures Reallocates(tb, ps, s, getNew, copy, free, t, p, 0, r) <==>
              r == 0 && getNew == [] && copy == [] && HmFree(free, t, p)
    ensures Reallocates(tb, ps, s, getNew, copy, free, t, p, 0, r) ==>
              Exec(s, free).live.Keys <= (s.live.Keys - {p}) + Given(s, free, t)
  {
    hide Malloc, GoodTable, GoodOsPage, Reachable, UsableSize, HmFree;
    LiveRecoverable(s, p);
    if Reallocates(tb, ps, s, getNew, copy, free, t, p, 0, r) { FreeOutcome(s, free, t, p); }
  }

  /** The block is large enough, and it is a small one or more than half of it is asked for. */
  predicate StaysPut(usable: nat, size: nat) { size <= usable && (usable <= SMALL_SIZE_MAX || 2 * size > usable) }

  /** What hm_realloc(p, size) of a live pointer returns for size > 0. The same pointer exactly if the block is large
      enough and small or more than half used, and then nothing happened. Null only with the old block live and
      untouched. A new block otherwise: live, with room for size bytes, starting with the old contents up to the shorter
      of the two sizes. */
  lemma ReallocOutcome(tb: Table, ps: nat, s: State, getNew: seq<Action>, copy: seq<Action>, free: seq<Action>, t: Tid,
                       p: nat, size: nat, r: nat)
    requires GoodTable(tb) && GoodOsPage(ps) && Reachable(s) && p in s.live && 0 < size < WORD
    requires Runs(s, getNew) && Runs(Exec(s, getNew), copy) && Runs(Exec(Exec(s, getNew), copy), free)
    requires Reallocates(tb, ps, s, getNew, copy, free, t, p, size, r)
    ensures var s3 := Exec(Exec(Exec(s, getNew), copy), free);
            var old_ := s.live[p].usable;
            var n := if size < old_ then size else old_;
            && (r == p <==> StaysPut(old_, size)) && (r == p ==> s3 == s)
            && (r == 0 ==> p in s3.live && Bytes(s3.mem, p, old_) == Bytes(s.mem, p, old_))
            && (r != 0 && r != p ==>
                r in s3.live && size <= s3.live[r].usable && Bytes(s3.mem, r, n) == Bytes(s.mem, p, n))
  {
    hide Malloc, GoodTable, GoodOsPage, Reachable, UsableSize, Copies, CopiesAll, Exec, Runs, Delivers;
    LiveRecoverable(s, p);
    UsableSizeIsTrue(s, p);
    EmptyRun(s);
    var s1 := Exec(s, getNew);
    var plan := Realloc(false, s.live[p].usable, size);
    if plan.Move? {
      ContentsKept(s, getNew, p);
      if r == 0 {
        EmptyRun(s1);
      } else {
        DeliveredRoom(tb, ps, size, s1, r);
        CopyTarget(copy, p, r, plan.copy);
        assert free == [AFree(t, p)] + free[1..];
        ReallocPreserves(s, getNew, copy, free[1..], t, p, r, size);
      }
    }
  }

  lemma EmptyRun(s: State)
    ensures Runs(s, []) && Exec(s, []) == s
  {
  }
}
