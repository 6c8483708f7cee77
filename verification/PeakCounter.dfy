/**
 The byte counters of the OS layer under concurrency: account_map adds with fetch_add and then
 raises the peak with a load and a weak compare-exchange loop; account_unmap subtracts.
 */
module PeakCounter {
  type Tid = nat

  /** A thread inside account_map: it has added, and maybe read the peak. */
  datatype Pending = Added(now: nat) | Loaded(now: nat, prev: nat)

  /** `high` is the largest value `bytes` has had; the code does not store it. */
  datatype Counters = Counters(bytes: nat, peak: nat, pending: map<Tid, Pending>, high: nat)

  datatype Action =
    | Add(t: Tid, n: nat)              // fetch_add
    | Load(t: Tid)                     // load of the peak
    | Give(t: Tid)                     // loop test now > prev fails
    | Cas(t: Tid, spurious: bool)      // compare_exchange_weak
    | Sub(t: Tid, n: nat)              // fetch_sub in account_unmap

  const INITIAL := Counters(0, 0, map[], 0)

  function Max(a: nat, b: nat): nat { if a < b then b else a }

  predicate Enabled(s: Counters, a: Action) {
    match a
    case Add(t, n) => t !in s.pending
    case Load(t) => t in s.pending && s.pending[t].Added?
    case Give(t) => t in s.pending && s.pending[t].Loaded? && s.pending[t].now <= s.pending[t].prev
    case Cas(t, _) => t in s.pending && s.pending[t].Loaded? && s.pending[t].now > s.pending[t].prev
    case Sub(t, n) => t !in s.pending && n <= s.bytes
  }

  function Next(s: Counters, a: Action): Counters
    requires Enabled(s, a)
  {
    match a
    case Add(t, n) =>
      s.(bytes := s.bytes + n, pending := s.pending[t := Added(s.bytes + n)], high := Max(s.high, s.bytes + n))
    case Load(t) => s.(pending := s.pending[t := Loaded(s.pending[t].now, s.peak)])
    case Give(t) => s.(pending := s.pending - {t})
    case Cas(t, spurious) =>
      var now := s.pending[t].now;
      if s.peak == s.pending[t].prev && !spurious then s.(peak := now, pending := s.pending - {t})
      else s.(pending := s.pending[t := Loaded(now, s.peak)])
    case Sub(t, n) => s.(bytes := s.bytes - n)
  }

  predicate Runs(s: Counters, acts: seq<Action>)
    decreases |acts|
  {
    acts == [] || (Enabled(s, acts[0]) && Runs(Next(s, acts[0]), acts[1..]))
  }

  function Exec(s: Counters, acts: seq<Action>): Counters
    requires Runs(s, acts)
    decreases |acts|
  {
    if acts == [] then s else Exec(Next(s, acts[0]), acts[1..])
  }

  /** The high-water mark is the peak or some thread is still carrying it. */
  ghost predicate Inv(s: Counters) {
    && s.bytes <= s.high && s.peak <= s.high
    && (s.peak == s.high || exists t :: t in s.pending && s.pending[t].now == s.high)
    && (forall t :: t in s.pending ==> s.pending[t].now <= s.high
                                       && (s.pending[t].Loaded? ==> s.pending[t].prev <= s.peak))
  }

  lemma StepKeeps(s: Counters, a: Action)
    requires Inv(s) && Enabled(s, a)
    ensures Inv(Next(s, a)) && s.peak <= Next(s, a).peak && s.high <= Next(s, a).high
  {
    var s' := Next(s, a);
    if s.peak != s.high && !(a.Add? && s.high < s.bytes + a.n) {
      var t :| t in s.pending && s.pending[t].now == s.high;
      if s'.peak != s'.high { assert t in s'.pending && s'.pending[t].now == s'.high; }
    }
    if a.Add? { assert a.t in s'.pending; }
  }

  lemma {:induction false} RunKeeps(s: Counters, acts: seq<Action>)
    requires Inv(s) && Runs(s, acts)
    ensures Inv(Exec(s, acts)) && s.peak <= Exec(s, acts).peak && s.high <= Exec(s, acts).high
    decreases |acts|
  {
    if acts != [] {
      StepKeeps(s, acts[0]);
      RunKeeps(Next(s, acts[0]), acts[1..]);
    }
  }

  /** What the calls add and take away over the run. */
  function Net(acts: seq<Action>): int {
    if acts == [] then 0
    else (if acts[0].Add? then acts[0].n else if acts[0].Sub? then 0 - acts[0].n else 0) + Net(acts[1..])
  }

  /** The largest value the byte counter has at any moment of the run. */
  function MostBytes(s: Counters, acts: seq<Action>): nat
    requires Runs(s, acts)
    decreases |acts|
  {
    if acts == [] then s.bytes else Max(s.bytes, MostBytes(Next(s, acts[0]), acts[1..]))
  }

  lemma {:induction false} RunCounts(s: Counters, acts: seq<Action>)
    requires Runs(s, acts) && s.bytes <= s.high
    ensures Exec(s, acts).bytes == s.bytes + Net(acts) && Exec(s, acts).high == Max(s.high, MostBytes(s, acts))
    decreases |acts|
  {
    if acts != [] { RunCounts(Next(s, acts[0]), acts[1..]); }
  }

  /** In every run the mapped bytes are what was added less what was taken away; they never exceed both the peak and
      every pending value, and whenever no account_map is in flight the peak is exactly the largest number of bytes that
      were ever mapped. */
  lemma PeakIsHighWater(acts: seq<Action>)
    requires Runs(INITIAL, acts)
    ensures var s := Exec(INITIAL, acts);
            && s.bytes == Net(acts)
            && (s.bytes <= s.peak || exists t :: t in s.pending && s.bytes <= s.pending[t].now)
            && (s.pending == map[] ==> s.peak == MostBytes(INITIAL, acts))
  {
    RunKeeps(INITIAL, acts);
    RunCounts(INITIAL, acts);
    var s := Exec(INITIAL, acts);
    if s.peak != s.high {
      var t :| t in s.pending && s.pending[t].now == s.high;
      assert t in s.pending && s.bytes <= s.pending[t].now;
    }
  }

  /** The exchange loop ends: from wherever a thread is in it, it leaves it on its own in at most two steps, with the
      peak at least what it added up to. */
  lemma PeakSettles(s: Counters, t: Tid) returns (acts: seq<Action>)
    requires Inv(s) && t in s.pending
    ensures |acts| <= 2 && (forall a :: a in acts ==> a.t == t) && Runs(s, acts)
    ensures t !in Exec(s, acts).pending && Exec(s, acts).peak >= s.pending[t].now
  {
    if s.pending[t].Loaded? && (s.pending[t].now <= s.pending[t].prev || s.peak == s.pending[t].prev) {
      acts := [LastStep(s, t)];
      OneStep(s, acts[0]);
    } else {
      var a := if s.pending[t].Added? then Load(t) else Cas(t, false);
      var s1 := Next(s, a);
      var b := LastStep(s1, t);
      acts := [a, b];
      assert acts[1..] == [b];
      OneStep(s1, b);
    }
  }

  lemma OneStep(s: Counters, a: Action)
    requires Enabled(s, a)
    ensures Runs(s, [a]) && Exec(s, [a]) == Next(s, a)
  {
    assert [a][1..] == [];
  }

  /** The step of a thread that has read the peak. */
  function LastStep(s: Counters, t: Tid): Action
    requires t in s.pending && s.pending[t].Loaded?
  {
    if s.pending[t].now <= s.pending[t].prev then Give(t) else Cas(t, false)
  }

  /** The peak never goes down along a run. */
  lemma PeakMonotone(before: seq<Action>, after: seq<Action>)
    requires Runs(INITIAL, before) && Runs(Exec(INITIAL, before), after)
    ensures Exec(INITIAL, before).peak <= Exec(Exec(INITIAL, before), after).peak
  {
    RunKeeps(INITIAL, before);
    RunKeeps(Exec(INITIAL, before), after);
  }
}
