/**
 What the central heap's operations mean: which pages a sweep reclaims, what a returned page does to its segment,
 and what every operation leaves alone. The class in Central.dfy is proved against these.
 */
module CentralSpec {
  import opened Layout
  import opened Memory
  import opened Blocks
  import opened Lists
  import opened Machine
  import opened PageHeaders
  import opened Books
  import opened BookSteps
  import opened BookMoves

  const SEGMENT_CACHE := 1

  /** The elements of s that are in keep, in order. */
  ghost function Filter(s: seq<nat>, keep: set<nat>): seq<nat> {
    if s == [] then [] else (if s[0] in keep then [s[0]] else []) + Filter(s[1..], keep)
  }

  ghost function LastOf(s: seq<nat>): nat { if s == [] then 0 else s[|s| - 1] }

  /** The list being swept is what was kept so far followed by what is still to come. */
  lemma SweepSeq(done: seq<nat>, todo: seq<nat>)
    requires todo != []
    ensures var cur := done + todo;
            && cur[|done|] == todo[0] && LastOf(done) == (if |done| == 0 then 0 else cur[|done| - 1])
            && cur == (done + [todo[0]]) + todo[1..] && Without(cur, |done|) == done + todo[1..]
  {
  }

  lemma LastPushed(s: seq<nat>, x: nat)
    ensures LastOf(s + [x]) == x
  {
  }

  ghost function SurvivorsOf(aband: seq<nat>, before: Snaps): set<nat> { set q | q in aband && !Drained(before[q]) }

  /** How far the sweep of b0's abandoned pages has come: the rest will be filtered likewise, and as soon as a page has
      left the list some page is available; until then nothing else has changed. */
  ghost predicate Halfway(b0: Books, b: Books, before: Snaps, done: seq<nat>, todo: seq<nat>) {
    var keep := SurvivorsOf(b0.aband, before);
    && (forall q :: q in todo ==> q in b0.aband)
    && done + Filter(todo, keep) == Filter(b0.aband, keep) && |done| + |todo| <= |b0.aband|
    && b.numSegments <= b0.numSegments && if |done| + |todo| == |b0.aband| then b == b0.(hdr := b.hdr)
       else b.avail != []
  }

  lemma HalfwayStart(b: Books, before: Snaps)
    ensures Halfway(b, b, before, [], b.aband) && [] + b.aband == b.aband && LastOf([]) == 0
  {
    var keep := SurvivorsOf(b.aband, before);
    assert [] + Filter(b.aband, keep) == Filter(b.aband, keep);
  }

  lemma HalfwayStep(b0: Books, b: Books, b': Books, before: Snaps, done: seq<nat>, todo: seq<nat>, kept: bool)
    requires Halfway(b0, b, before, done, todo) && todo != [] && (kept <==> !Drained(before[todo[0]]))
    requires b'.numSegments <= b.numSegments && if kept then b' == b.(hdr := b'.hdr) else b'.avail != []
    ensures Halfway(b0, b', before, if kept then done + [todo[0]] else done, todo[1..])
  {
    hide Drained;
    var keep := SurvivorsOf(b0.aband, before);
    var rest := Filter(todo[1..], keep);
    assert todo[0] in todo;
    assert done + ([todo[0]] + rest) == (done + [todo[0]]) + rest;
  }

  lemma HalfwayEnd(b0: Books, b: Books, before: Snaps, done: seq<nat>, todo: seq<nat>)
    requires Halfway(b0, b, before, done, todo) && todo == [] && b.aband == done + todo
    ensures b.numSegments <= b0.numSegments && b.aband == done
            && b.aband == Filter(b0.aband, SurvivorsOf(b0.aband, before))
    ensures if b.aband == b0.aband then b == b0.(hdr := b.hdr) else b.avail != []
  {
    assert done + [] == done;
    FilterFull(b0.aband, SurvivorsOf(b0.aband, before));
  }

  /** A filter that drops nothing returns the same sequence. */
  lemma {:induction false} FilterFull(s: seq<nat>, keep: set<nat>)
    ensures |Filter(s, keep)| <= |s| && (|Filter(s, keep)| == |s| ==> Filter(s, keep) == s)
  {
    if s != [] {
      FilterFull(s[1..], keep);
      assert s == [s[0]] + s[1..];
    }
  }

  /** A mapped segment that is not on the available list. */
  ghost predicate CanList(b: Books, s: nat) {
    && s > 0 && s in b.availNext && s in b.availPrev && s in b.inAvail
    && (b.availHead != 0 ==> b.availHead in b.availPrev)
    && s !in b.avail && DList(b.availNext, b.availPrev, b.availHead, b.avail)
  }

  lemma ReadyToPut(b: Books, pg: nat)
    requires Ok(b, pg) && pg in b.hdr
    ensures SegHeader(b, SegmentOfPage(pg)) && (b.freeCount[SegmentOfPage(pg)] == 0 ==> CanList(b, SegmentOfPage(pg)))
  {
    PagePlace(b, pg, pg);
    HeadAvailable(b);
    assert SegKeys(b, SegmentOfPage(pg)) && SegKeys(b, b.availHead) && SegAt(b, SegmentOfPage(pg));
  }

  lemma PushedFields(b: Books, pg: nat, h: Page)
    requires SegHeader(b, SegmentOfPage(pg))
    ensures CanList(b, SegmentOfPage(pg)) ==> CanList(Pushed(b, pg, h), SegmentOfPage(pg))
  {
  }

  lemma PutFields(b: Books, pg: nat, h: Page)
    requires SegHeader(b, SegmentOfPage(pg))
    ensures var b', s := Put(b, pg, h), SegmentOfPage(pg);
            s in b'.freeCount && b'.hdr == b.hdr[pg := h] && b'.next == b.next[pg := b.freeList[s]]
  {
  }

  /** l' is l without the entry x. */
  ghost predicate Left(l: seq<nat>, l': seq<nat>, x: nat) {
    exists i: nat {:trigger l[i]} :: i < |l| && l[i] == x && l' == Without(l, i)
  }

  /** Where pool_return leaves the segment: in front of the available list if its pool had run dry, where it was if not,
      and on no list if it was surplus. */
  ghost predicate Relisted(b: Books, b': Books, s: nat, surplus: bool) {
    if surplus then Left(b.avail, b'.avail, s) && Left(b.segs, b'.segs, s)
    else b'.segs == b.segs && b'.avail == if PoolOf(b, s) == [] then [s] + b.avail else b.avail
  }

  /** What pool_return does: nothing else in the books moves, and a segment is unmapped exactly when it is the second
      idle one. */
  ghost predicate Returned(b: Books, b': Books, pg: nat) {
    var s := SegmentOfPage(pg);
    var surplus := |PoolOf(b, s)| + 1 == USABLE_PAGES && b.freeSegments == SEGMENT_CACHE;
    && b'.owned == b.owned && b'.aband == b.aband && b'.abandHead == b.abandHead
    && b'.pagesInUse == b.pagesInUse && b'.abandonedCount == b.abandonedCount
    && b'.pool == (if surplus then b.pool - {s} else b.pool[s := [pg] + PoolOf(b, s)])
    && pg in b.hdr && b'.hdr == (if surplus then WithoutSegment(b.hdr[pg := ToPool(b.hdr[pg])], s)
       else b.hdr[pg := ToPool(b.hdr[pg])])
    && b'.numSegments == b.numSegments - (if surplus then 1 else 0)
    && b'.registered == (if surplus then b.registered - {s * SEGMENT_SIZE} else b.registered)
    && b'.segmentBytes == b.segmentBytes - (if surplus then SEGMENT_SIZE else 0)
    && Relisted(b, b', s, surplus)
  }

  /** pg is the k-th abandoned page and pp holds the link to it. */
  ghost predicate AbandonedAt(b: Books, pp: nat, pg: nat, k: nat) {
    k < |b.aband| && b.aband[k] == pg && pp == if k == 0 then 0 else b.aband[k - 1]
  }

  lemma AbandonedMapped(b: Books, pp: nat, pg: nat, k: nat)
    requires Ok(b, 0) && AbandonedAt(b, pp, pg, k)
    ensures InUse(b.hdr, pg) && (pp == 0 <==> k == 0) && (pp != 0 ==> InUse(b.hdr, pp) && pp != pg)
  {
    assert PageHome(b, pg, 0) && PageHome(b, pp, 0);
    assert Link(b.next, b.aband, k) && (k > 0 ==> Link(b.next, b.aband, k - 1));
    ListDistinct(b.next, b.abandHead, b.aband);
  }

  /** Every block of the page that was handed out is back on one of its lists. */
  ghost predicate Drained(s: PageSnap) { s.Mapped? && s.page.used == |s.parked| }

  /** Owned and abandoned pages are in use, and no page is both or twice. */
  lemma InUsePages(b: Books)
    requires Ok(b, 0)
    ensures forall q :: q in b.owned || q in b.aband ==> InUse(b.hdr, q)
    ensures Distinct(b.aband) && 0 !in b.aband && 0 !in b.owned && forall q :: q in b.owned ==> q !in b.aband
  {
    ListDistinct(b.next, b.abandHead, b.aband);
    assert PageHome(b, 0, 0);
    forall q: nat ensures (q in b.owned || q in b.aband ==> InUse(b.hdr, q)) && (q in b.owned ==> q !in b.aband) {
      assert PageHome(b, q, 0);
    }
  }

  /** In a swept list without repetition, away from the owned pages, the parts behind and ahead do not meet. */
  lemma Apart(done: seq<nat>, todo: seq<nat>, owned: set<nat>, q: nat)
    requires Distinct(done + todo) && todo != [] && forall x :: x in owned ==> x !in done + todo
    ensures q in done || q in todo[1..] || q == todo[0] ==> q in done + todo && q !in owned
    ensures q in todo[1..] || q in owned ==> q != todo[0] && q !in done
    ensures q in done ==> q != todo[0]
    ensures done != [] ==> LastOf(done) in done
  {
    var all := done + todo;
    forall i, j | 0 <= i < |done| && 0 <= j < |todo| ensures done[i] != todo[j] {
      assert all[i] != all[|done| + j];
    }
    forall j | 0 <= j < |todo| - 1 ensures todo[1..][j] != todo[0] {
      assert all[|done|] != all[|done| + j + 1];
    }
    assert q in todo[1..] ==> q in todo;
  }

  /** What one round does to the pages: nothing but the swept page and the link to it changes. */
  ghost predicate RoundEffect(s: Snaps, t: Snaps, pp: nat, pg: nat, kept: bool) {
    && (forall q: nat {:trigger t[q]} :: Busy(s[q]) && q != pg && (q != pp || pp == 0) ==> t[q] == s[q])
    && (pp != 0 ==> OnlyNext(s[pp], t[pp])) && (kept ==> t[pg] == Collected(s[pg]))
  }

  lemma CollectEffect(s: Snaps, t: Snaps, pp: nat, pg: nat)
    requires OnlyAt(s, t, pg) && t[pg] == Collected(s[pg])
    requires pp != 0 ==> Busy(s[pp]) && pp != pg
    ensures RoundEffect(s, t, pp, pg, true)
  {
    assert t[pg] == Collected(s[pg]) && t[pp] == t[pp];
  }

  lemma EffectTwice(s: Snaps, t: Snaps, u: Snaps, pp: nat, pg: nat)
    requires RoundEffect(s, t, pp, pg, true) && RoundEffect(t, u, pp, pg, false)
    ensures RoundEffect(s, u, pp, pg, false)
  {
    hide OnlyNext;
    if pp != 0 { OnlyNextTwice(s[pp], t[pp], u[pp]); }
    forall q: nat | Busy(s[q]) && q != pg && (q != pp || pp == 0) ensures u[q] == s[q] {
      assert t[q] == s[q];
    }
  }

  /** Owned pages and those still to be swept are as they were before; those swept and kept are collected and
      relinked. */
  ghost predicate Progress(before: Snaps, s: Snaps, owned: set<nat>, done: seq<nat>, todo: seq<nat>) {
    && (forall q: nat {:trigger s[q]} :: q in owned || q in todo ==> s[q] == before[q])
    && (forall q: nat {:trigger s[q]} :: q in done ==> OnlyNext(Collected(before[q]), s[q]))
  }

  lemma ProgressStart(before: Snaps, owned: set<nat>, todo: seq<nat>)
    ensures Progress(before, before, owned, [], todo)
  {
  }

  lemma RoundKeeps(before: Snaps, s: Snaps, t: Snaps, owned: set<nat>, done: seq<nat>, todo: seq<nat>, kept: bool)
    requires todo != [] && Distinct(done + todo) && 0 !in done + todo && (forall x :: x in owned ==> x !in done + todo)
    requires forall q: nat {:trigger s[q]} :: q in owned || q in done + todo ==> Busy(s[q])
    requires Progress(before, s, owned, done, todo) && RoundEffect(s, t, LastOf(done), todo[0], kept)
    ensures Progress(before, t, owned, if kept then done + [todo[0]] else done, todo[1..])
            && before[todo[0]] == s[todo[0]]
  {
    hide Collected, OnlyNext, Busy, Distinct;
    forall q: nat | q in owned || q in todo[1..] ensures t[q] == before[q] {
      Apart(done, todo, owned, q);
      assert s[q] == before[q];
    }
    forall q: nat | q in done ensures OnlyNext(Collected(before[q]), t[q]) {
      Apart(done, todo, owned, q);
      assert OnlyNext(Collected(before[q]), s[q]);
      if q == LastOf(done) { OnlyNextTwice(Collected(before[q]), s[q], t[q]); }
    }
    Apart(done, todo, owned, todo[0]);
    assert s[todo[0]] == before[todo[0]];
    CollectedMapped(before[todo[0]]);
  }

  lemma OnlyNextTwice(a: PageSnap, b: PageSnap, c: PageSnap)
    requires OnlyNext(a, b) && OnlyNext(b, c)
    ensures OnlyNext(a, c)
  {
  }

  lemma CollectedMapped(s: PageSnap)
    requires Busy(s)
    ensures OnlyNext(Collected(s), Collected(s))
  {
  }

  /** Following the link in pp reaches the first page still to be swept, or null after the last. */
  lemma NextAbandoned(b: Books, pp: nat, done: seq<nat>, todo: seq<nat>)
    requires Ok(b, 0) && b.aband == done + todo && pp == LastOf(done)
    ensures var cur := if pp == 0 then b.abandHead else Get(b.next, pp);
            (cur == 0 <==> todo == []) && (todo != [] ==> cur == todo[0])
    ensures (pp == 0 <==> done == []) && (pp != 0 ==> pp in b.next)
  {
    var k := |done|;
    assert k > 0 ==> Link(b.next, b.aband, k - 1) && PageHome(b, pp, 0);
    assert k < |b.aband| ==> Link(b.next, b.aband, k);
  }

  predicate InUse(hdr: map<nat, Page>, pg: nat) { pg in hdr && hdr[pg].inUse }

  ghost predicate OnlyNext(a: PageSnap, b: PageSnap) { a.Mapped? && b.Mapped? && b == a.(next := b.next) }

  lemma ChainPush(next: Links, s: nat, n: nat, head: nat)
    requires n < USABLE_PAGES && IsList(next, head, Chain(s, n))
    ensures var pg := s * PAGES_PER_SEGMENT + n + 1;
            && SegmentOfPage(pg) == s && Usable(pg) && IsList(next[pg := head], pg, Chain(s, n + 1))
            && At(Chain(s, n + 1), 0) == pg
  {
    var pg := s * PAGES_PER_SEGMENT + n + 1;
    ChainMeaning(s, n);
    ListFrame(next, next[pg := head], head, Chain(s, n));
    ListPush(next[pg := head], pg, head, Chain(s, n));
  }

  /** A fresh segment before it is listed as available. */
  ghost function JoinedRaw(b: Books, s: nat, next': map<nat, nat>, hdr': map<nat, Page>): Books {
    b.(next := next', hdr := hdr', freeList := b.freeList[s := s * PAGES_PER_SEGMENT + USABLE_PAGES],
       freeCount := b.freeCount[s := USABLE_PAGES], freePageCount := b.freePageCount + USABLE_PAGES,
       segNext := b.segNext[s := b.segHead], segHead := s, segs := [s] + b.segs,
       numSegments := b.numSegments + 1, freeSegments := b.freeSegments + 1,
           pool := b.pool[s := Chain(s, USABLE_PAGES)],
       availNext := b.availNext[s := 0], availPrev := b.availPrev[s := 0], inAvail := b.inAvail[s := false],
       registered := b.registered + {s * SEGMENT_SIZE}, segmentBytes := b.segmentBytes + SEGMENT_SIZE)
  }

  lemma JoinStages(b: Books, s: nat, next': map<nat, nat>, hdr': map<nat, Page>)
    requires (b.availHead != 0 ==> b.availHead in b.availPrev && b.availHead != s) && s > 0
    requires s !in b.avail && DList(b.availNext, b.availPrev, b.availHead, b.avail)
    ensures var b' := JoinedRaw(b, s, next', hdr');
            && Listed(b', s) == Joined(b, s, next', hdr') && Joined(b, s, next', hdr').hdr == hdr'
            && Joined(b, s, next', hdr').next == next'
            && CanList(b', s)
  {
    hide Chain, DList;
    DFrame(b.availNext, b.availPrev, b.availNext[s := 0], b.availPrev[s := 0], b.availHead, b.avail);
    assert b.availPrev[s := 0][s := 0] == b.availPrev[s := 0];
    assert b.availNext[s := 0][s := b.availHead] == b.availNext[s := b.availHead];
    assert b.inAvail[s := false][s := true] == b.inAvail[s := true];
  }

  ghost predicate InPool(b: Books, pg: nat) { pg in b.hdr && !b.hdr[pg].inUse }

  lemma ReadyToTake(b: Books)
    requires Ok(b, 0) && b.avail != []
    ensures var s := b.availHead;
            && SegHeader(b, s) && b.avail[0] == s && CanTake(b, s, b.freeList[s]) && InPool(b, b.freeList[s])
            && b.freeList[s] in b.next
            && b.freeCount[s] > 0 && b.pool[s] != []
  {
    TakeHead(b);
    assert SegKeys(b, b.availHead);
    assert PageHome(b, b.freeList[b.availHead], 0);
  }

  lemma PoppedFields(b: Books)
    requires Ok(b, 0) && b.avail != []
    ensures var s := b.availHead;
            var b' := PoolPopped(b, s);
            && s in b'.freeCount && s in b'.inAvail && b'.avail != [] && b'.avail[0] == s
            && Delisted(b', s, 0) == Unlisted(b', s)
            && DList(b'.availNext, b'.availPrev, b'.availHead, b'.avail)
            && (forall x :: x in b'.avail ==> x in b'.availNext && x in b'.availPrev)
  {
    ReadyToTake(b);
    forall x | x in b.avail ensures x in b.availNext && x in b.availPrev { assert SegKeys(b, x); }
    assert Without(b.avail, 0) == b.avail[1..];
  }

  lemma TakenCounts(b: Books)
    requires b.avail != []
    ensures var b' := Taken(b, b.availHead); b'.freeSegments <= b.freeSegments && b'.numSegments == b.numSegments
  {
  }

  /** The first page of the first available segment was taken: the segment stays listed unless that was its last. */
  ghost predicate TakenFirst(b: Books, b': Books, pg: nat) {
    && b.avail != [] && b.avail[0] in b.pool && b.pool[b.avail[0]] != [] && pg == b.pool[b.avail[0]][0]
    && b'.pool == b.pool[b.avail[0] := b.pool[b.avail[0]][1..]] && b'.segs == b.segs
    && b'.avail == if |b.pool[b.avail[0]]| == 1 then b.avail[1..] else b.avail
  }

  lemma TakenIsFirst(b: Books, pg: nat)
    requires Ok(b, 0) && b.avail != [] && CanTake(b, b.availHead, pg)
    ensures TakenFirst(b, Taken(b, b.availHead), pg)
  {
    hide CutNext, CutPrev, Ok, IsList;
  }

  ghost predicate AnyDrained(aband: seq<nat>, s: Snaps) { exists q :: q in aband && Drained(s[q]) }

  /** The lazy sweep: when a page was available nothing in use changes; otherwise exactly the drained abandoned pages
      go. */
  ghost predicate Reclaimed(b: Books, b': Books, s: Snaps, s': Snaps) {
    if b.avail != [] then b'.aband == b.aband && (forall q: nat {:trigger s'[q]} :: Busy(s[q]) ==> s'[q] == s[q])
    else b'.aband == Filter(b.aband, SurvivorsOf(b.aband, s)) && Progress(s, s', b.owned, b'.aband, [])
  }

  /** A page that may be handed out: not in use, or abandoned with every block back. */
  ghost predicate Spare(aband: seq<nat>, s: PageSnap, pg: nat) { !Busy(s) || (pg in aband && Drained(s)) }

  lemma TakenSpare(b: Books, b1: Books, s: Snaps, s1: Snaps, pg: nat)
    requires Reclaimed(b, b1, s, s1) && !Busy(s1[pg]) && (Busy(s[pg]) ==> pg in b.owned || pg in b.aband)
    ensures Spare(b.aband, s[pg], pg)
  {
    assert s1[pg] == s1[pg];
    FilterHas(b.aband, SurvivorsOf(b.aband, s), pg);
  }

  lemma ReclaimedTake(b: Books, b1: Books, b2: Books, s: Snaps, s1: Snaps, s2: Snaps, pg: nat)
    requires Reclaimed(b, b1, s, s1) && b2.aband == b1.aband && b1.owned == b.owned
    requires (forall q: nat {:trigger s2[q]} :: q != pg ==> s2[q] == s1[q]) && !Busy(s1[pg])
    requires forall q: nat {:trigger s1[q]} :: q in b1.owned || q in b1.aband ==> Busy(s1[q])
    ensures Reclaimed(b, b2, s, s2)
  {
    if b.avail == [] {
      forall q: nat | q in b.owned || q in b1.aband ensures s2[q] == s1[q] { assert s1[q] == s1[q]; }
      ProgressFrame(s, s1, s2, b.owned, b1.aband);
    } else {
      forall q: nat | Busy(s[q]) ensures s2[q] == s[q] { assert s1[q] == s[q]; }
    }
  }

  lemma {:induction false} FilterHas(s: seq<nat>, keep: set<nat>, x: nat)
    ensures x in Filter(s, keep) <==> x in s && x in keep
  {
    if s != [] {
      FilterHas(s[1..], keep, x);
      assert s == [s[0]] + s[1..];
    }
  }

  /** Once all threads are gone and every block has come back, the sweep leaves at most the one cached segment mapped,
      and all of its pages free. */
  lemma FullReclamation(aband: seq<nat>, s: Snaps, b: Books)
    requires Ok(b, 0) && b.freeSegments <= SEGMENT_CACHE && b.owned == {}
             && b.aband == Filter(aband, SurvivorsOf(aband, s))
    requires forall q :: q in aband ==> Drained(s[q])
    ensures b.aband == [] && 0 <= b.numSegments <= SEGMENT_CACHE && b.freePageCount == USABLE_PAGES * b.numSegments
  {
    if b.aband != [] { FilterHas(aband, SurvivorsOf(aband, s), b.aband[0]); }
    NothingInUse(b);
    PagesConserved(b);
  }

  lemma AvailHead(b: Books)
    requires Ok(b, 0)
    ensures (b.availHead == 0 <==> b.avail == []) && (b.avail == [] ==> b.freeSegments <= 0)
  {
    TakeHead(b);
    if b.freeSegments > 0 { AvailableSome(b, 0); }
  }

  /** The filter drops something exactly if some abandoned page had drained. */
  lemma FilterAll(aband: seq<nat>, s: Snaps)
    ensures Filter(aband, SurvivorsOf(aband, s)) == aband <==> !AnyDrained(aband, s)
  {
    var keep := SurvivorsOf(aband, s);
    FilterSame(aband, keep);
  }

  lemma {:induction false} FilterSame(s: seq<nat>, keep: set<nat>)
    ensures Filter(s, keep) == s <==> forall q :: q in s ==> q in keep
  {
    if s != [] {
      FilterSame(s[1..], keep);
      FilterFull(s[1..], keep);
      assert s == [s[0]] + s[1..];
    }
  }

  lemma ProgressFrame(before: Snaps, s: Snaps, t: Snaps, owned: set<nat>, done: seq<nat>)
    requires Progress(before, s, owned, done, [])
    requires forall q: nat {:trigger t[q]} :: q in owned || q in done ==> t[q] == s[q]
    ensures Progress(before, t, owned, done, [])
  {
    forall q: nat | q in owned || q in done ensures t[q] == s[q] {}
    forall q: nat | q in done ensures OnlyNext(Collected(before[q]), t[q]) { assert s[q] == t[q]; }
    forall q: nat | q in owned ensures t[q] == before[q] { assert s[q] == t[q]; }
  }

  lemma JoinedFields(b: Books, s: nat, next': map<nat, nat>, hdr': map<nat, Page>)
    ensures var b' := Joined(b, s, next', hdr');
            && b'.owned == b.owned && b'.aband == b.aband && b'.avail != [] && b'.numSegments == b.numSegments + 1
            && b'.freeSegments == b.freeSegments + 1
            && b'.registered == b.registered + {s * SEGMENT_SIZE} && b'.segmentBytes == b.segmentBytes + SEGMENT_SIZE
  {
    hide Chain;
  }

  lemma ReadyToMap(b: Books, s: nat)
    requires Ok(b, 0) && s !in b.pool
    ensures (forall p :: p in b.hdr ==> SegmentOfPage(p) != s) && (b.availHead != 0 ==> b.availHead in b.availPrev
                                                                                        && b.availHead != s)
    ensures s !in b.avail && DList(b.availNext, b.availPrev, b.availHead, b.avail)
  {
    HeadAvailable(b);
    assert SegKeys(b, b.availHead) && SegKeys(b, s);
    forall p | p in b.hdr ensures SegmentOfPage(p) != s { assert PageHome(b, p, 0); }
  }

  lemma PutMeaning(b: Books, pg: nat, h: Page)
    requires Ok(b, pg) && pg in b.hdr && !h.inUse
    ensures var b', s := CountIdle(Put(b, pg, h), SegmentOfPage(pg)), SegmentOfPage(pg);
            && s in b'.freeCount && b'.freeCount[s] == |PoolOf(b, s)| + 1 <= USABLE_PAGES
            && b'.pool == b.pool[s := [pg] + PoolOf(b, s)]
            && b'.freeSegments == b.freeSegments + (if b'.freeCount[s] == USABLE_PAGES then 1 else 0)
            && b'.numSegments == b.numSegments && b'.owned == b.owned && b'.aband == b.aband
            && b'.abandHead == b.abandHead
            && b'.registered == b.registered && b'.segmentBytes == b.segmentBytes && Relisted(b, b', s, false)
            && b'.pagesInUse == b.pagesInUse && b'.abandonedCount == b.abandonedCount && b'.hdr == b.hdr[pg := h]
  {
    hide IsList, DList, PushNext, PushPrev;
    PagePlace(b, pg, pg);
    NotPooled(b, pg);
    PoolRoom(b, pg);
  }

  lemma UnmapMeaning(b: Books, s: nat, i: nat, j: nat)
    requires i < |b.avail| && j < |b.segs|
    ensures var b' := BookSteps.Unmapped(b, s, i, j);
            && b'.pool == b.pool - {s} && b'.freeSegments == b.freeSegments - 1 && b'.numSegments == b.numSegments - 1
            && b'.registered == b.registered - {s * SEGMENT_SIZE} && b'.segmentBytes == b.segmentBytes - SEGMENT_SIZE
            && b'.hdr == WithoutSegment(b.hdr, s)
            && b'.owned == b.owned && b'.aband == b.aband && b'.abandHead == b.abandHead
            && b'.pagesInUse == b.pagesInUse && b'.abandonedCount == b.abandonedCount
            && b'.avail == Without(b.avail, i) && b'.segs == Without(b.segs, j)
  {
    hide CutNext, CutPrev, Without, WithoutSegment, DropLinks;
  }

  lemma IdlePlace(b: Books, s: nat) returns (i: nat, j: nat)
    requires Ok(b, 0) && s in b.pool && |b.pool[s]| == USABLE_PAGES
    ensures BookSteps.Idle(b, s, i, j)
  {
    assert SegAt(b, s) && SegKeys(b, s);
    i :| i < |b.avail| && b.avail[i] == s;
    j :| j < |b.segs| && b.segs[j] == s;
  }

  /** With an idle segment left, or s not used up, some page is available. */
  lemma AvailableSome(b: Books, s: nat)
    requires Ok(b, 0) && (PoolOf(b, s) != [] || b.freeSegments > 0)
    ensures b.avail != []
  {
    if PoolOf(b, s) != [] {
      assert SegAt(b, s);
    } else {
      assert IdleSet(b.pool) != {};
      var x :| x in IdleSet(b.pool);
      assert SegAt(b, x);
    }
  }

  lemma ReadyToUnmap(b: Books, s: nat, i: nat, j: nat)
    requires Ok(b, 0) && BookSteps.Idle(b, s, i, j)
    ensures DList(b.availNext, b.availPrev, b.availHead, b.avail) && IsList(b.segNext, b.segHead, b.segs)
            && s in b.inAvail
    ensures (forall x :: x in b.avail ==> x in b.availNext && x in b.availPrev)
            && (forall x :: x in b.segs ==> x in b.segNext)
  {
    forall x: nat ensures (x in b.avail ==> x in b.availNext && x in b.availPrev) && (x in b.segs ==> x in b.segNext) {
      assert SegKeys(b, x);
    }
    assert SegKeys(b, s);
  }

  lemma DelistedFields(b: Books, s: nat, i: nat)
    requires i < |b.avail|
    ensures var b' := Delisted(b, s, i);
            && b'.segNext == b.segNext && b'.segHead == b.segHead && b'.segs == b.segs && b'.hdr == b.hdr
            && b'.next == b.next
            && b'.numSegments == b.numSegments && b'.freeSegments == b.freeSegments
            && b'.freePageCount == b.freePageCount
  {
  }

  lemma SkippedFields(b: Books, j: nat)
    requires j < |b.segs|
    ensures var b' := Skipped(b, j);
            && b'.hdr == b.hdr && b'.next == b.next
            && b'.numSegments == b.numSegments && b'.freeSegments == b.freeSegments
            && b'.freePageCount == b.freePageCount
  {
  }

  /** The fields of a mapped segment's header. */
  ghost predicate SegHeader(b: Books, s: nat) {
    && s in b.pool && s in b.freeList && s in b.freeCount && s in b.availNext && s in b.availPrev && s in b.inAvail
    && s in b.segNext
  }

  /** The header of a pooled page. */
  function ToPool(pg: Page): Page { pg.(inUse := false, owner := 0, free := 0, blockSize := 0) }
}
