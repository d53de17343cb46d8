/** Choosing a target for a request (src/route/picker.rs). */
module Pickers {
  import opened Prelude
  import opened Interleaving
  import opened Weights
  import opened Slots
  import opened Routes

  class AtomicU64 {
    var value: nat

    constructor (value: nat)
      ensures this.value == value
    {
      this.value := value;
    }

    /** Wraps around, as the atomic does. */
    method FetchAdd() returns (before: nat)
      modifies this
      ensures before == old(value) && value == (old(value) + 1) % U64
    {
      before := value;
      value := (value + 1) % U64;
    }
  }

  /** x modulo n by repeated subtraction. */
  function Phase(x: nat, n: nat): (r: nat)
    requires n > 0
    ensures r < n
  {
    if x < n then x else Phase(x - n, n)
  }

  lemma {:induction false} PhaseQuotient(x: nat, n: nat) returns (q: nat)
    requires n > 0
    ensures x == q * n + Phase(x, n)
    decreases x
  {
    if x < n {
      q := 0;
    } else {
      var p := PhaseQuotient(x - n, n);
      q := p + 1;
      assert q * n == p * n + n;
    }
  }

  lemma PhaseIsMod(x: nat, n: nat)
    requires n > 0
    ensures Phase(x, n) == x % n
  {
    var q := PhaseQuotient(x, n);
    RemainderUnique(n, q, Phase(x, n), x / n, x % n);
  }

  lemma RemainderUnique(n: nat, q: int, r: nat, p: int, s: nat)
    requires r < n && s < n && q * n + r == p * n + s
    ensures r == s && q == p
  {
    assert (q - p) * n == s - r;
    if q > p { Scale(1, q - p, n); }
    if q < p { Scale(1, p - q, n); }
  }

  /** The slot that counter value x selects. */
  function SlotAt(w: seq<nat>, x: nat): nat
    requires w != []
  {
    w[Phase(x, |w|)]
  }

  method RoundRobin(targets: seq<Target>, wTargets: seq<nat>, counter: AtomicU64) returns (r: Option<nat>)
    modifies counter
    ensures wTargets == [] || targets == [] ==> r == None && counter.value == old(counter.value)
    ensures wTargets != [] && targets != [] ==>
              r == Some(wTargets[old(counter.value) % |wTargets|]) && r == Some(SlotAt(wTargets, old(counter.value)))
              && counter.value == (old(counter.value) + 1) % U64
  {
    if wTargets == [] || targets == [] {
      return None;
    }
    PhaseIsMod(counter.value, |wTargets|);
    var x := counter.FetchAdd();
    r := Some(wTargets[x % |wTargets|]);
  }

  /** Where a counter that has counted to x stands. */
  function Wrapped(x: nat): (r: nat)
    ensures r < U64
  {
    x % U64
  }

  lemma Rewound(x: nat)
    requires x < 2 * U64
    ensures Wrapped(x) == if x < U64 then x else x - U64
  {
  }

  /** The target of the pick made j picks after the counter stood at `start`. */
  function PickedAt(w: seq<nat>, start: nat, j: nat): nat
    requires w != []
  {
    SlotAt(w, Wrapped(start + j))
  }

  /** The targets of k consecutive picks when the counter starts at `start`. */
  function Picked(w: seq<nat>, start: nat, k: nat): (p: seq<nat>)
    requires w != []
    ensures |p| == k
  {
    if k == 0 then [] else Picked(w, start, k - 1) + [PickedAt(w, start, k - 1)]
  }

  /** The counter does not wrap during k picks, or wrapping keeps its phase among n slots. */
  predicate InPhase(n: nat, start: nat, k: nat)
    requires n > 0
  {
    start + k <= U64 || Phase(U64, n) == 0
  }

  /** Occurrences of t among the slots selected by the counter values 0..m. */
  function Cumulative(w: seq<nat>, m: nat, t: nat): nat
    requires w != []
  {
    if m == 0 then 0 else Cumulative(w, m - 1, t) + if SlotAt(w, m - 1) == t then 1 else 0
  }

  lemma {:induction false} CumulativePrefix(w: seq<nat>, m: nat, t: nat)
    requires w != [] && m <= |w|
    ensures Cumulative(w, m, t) == Count(w[..m], t)
  {
    if m > 0 {
      CumulativePrefix(w, m - 1, t);
      assert w[..m][..m - 1] == w[..m - 1];
    }
  }

  lemma {:induction false} CumulativeCycle(w: seq<nat>, m: nat, t: nat)
    requires w != []
    ensures Cumulative(w, m + |w|, t) == Cumulative(w, m, t) + Count(w, t)
  {
    if m == 0 {
      CumulativePrefix(w, |w|, t);
      assert w[..|w|] == w;
    } else {
      CumulativeCycle(w, m - 1, t);
    }
  }

  lemma {:induction false} PhaseShift(x: nat, d: nat, n: nat)
    requires n > 0
    ensures Phase(x + d * n, n) == Phase(x, n)
  {
    if d > 0 {
      PhaseShift(x, d - 1, n);
      assert x + d * n == (x + (d - 1) * n) + n;
    }
  }

  lemma SamePhase(x: nat, n: nat)
    requires n > 0 && Phase(U64, n) == 0
    ensures Phase(Wrapped(x), n) == Phase(x, n)
  {
    var p := x / U64;
    var d := PhaseQuotient(U64, n);
    assert x == x % U64 + p * U64;
    assert p * (d * n) == (p * d) * n;
    PhaseShift(x % U64, p * d, n);
  }

  /** The first k values from `start` select the slots they would without wrapping. */
  ghost predicate Aligned(w: seq<nat>, start: nat, k: nat)
    requires w != []
  {
    forall j :: 0 <= j < k ==> PickedAt(w, start, j) == SlotAt(w, start + j)
  }

  lemma InPhaseIsAligned(w: seq<nat>, start: nat, k: nat)
    requires w != [] && InPhase(|w|, start, k)
    ensures Aligned(w, start, k)
  {
    hide Wrapped, Phase;
    forall j | 0 <= j < k ensures PickedAt(w, start, j) == SlotAt(w, start + j) {
      if start + k > U64 { SamePhase(start + j, |w|); } else { Rewound(start + j); }
    }
  }

  lemma {:induction false} PickedCount(w: seq<nat>, start: nat, k: nat, t: nat)
    requires w != [] && Aligned(w, start, k)
    ensures Count(Picked(w, start, k), t) == Cumulative(w, start + k, t) - Cumulative(w, start, t)
  {
    if k > 0 {
      PickedCount(w, start, k - 1, t);
      CountAppend(Picked(w, start, k - 1), PickedAt(w, start, k - 1), t);
    }
  }

  /** Any |w| consecutive picks, from any start, pick every target exactly as often as it has slots. */
  lemma FullTurnIsExact(w: seq<nat>, start: nat, t: nat)
    requires w != [] && start < U64 && InPhase(|w|, start, |w|)
    ensures Count(Picked(w, start, |w|), t) == Count(w, t)
  {
    hide Phase, Aligned, Picked, Cumulative, Count;
    InPhaseIsAligned(w, start, |w|);
    PickedCount(w, start, |w|, t);
    CumulativeCycle(w, start, t);
  }

  // ---- exactly when a turn is exact ----

  lemma {:induction false} PickedIndex(w: seq<nat>, start: nat, k: nat, j: nat)
    requires w != [] && j < k
    ensures Picked(w, start, k)[j] == PickedAt(w, start, j)
  {
    if j < k - 1 { PickedIndex(w, start, k - 1, j); }
  }

  lemma {:induction false} CountAt(p: seq<nat>, x: nat, i: nat)
    requires i < |p| && p[i] == x
    ensures Count(p, x) >= 1
  {
    if i < |p| - 1 { CountAt(p[..|p| - 1], x, i); }
  }

  lemma {:induction false} CountTwice(p: seq<nat>, x: nat, i: nat, j: nat)
    requires i < j < |p| && p[i] == p[j] == x
    ensures Count(p, x) >= 2
  {
    if j < |p| - 1 { CountTwice(p[..|p| - 1], x, i, j); } else { CountAt(p[..|p| - 1], x, i); }
  }

  /** The list of n different targets. */
  function Distinct(n: nat): (w: seq<nat>)
    ensures |w| == n && forall i :: 0 <= i < n ==> w[i] == i
  {
    seq(n, i => i)
  }

  lemma {:induction false} DistinctCount(n: nat, x: nat)
    ensures Count(Distinct(n), x) == if x < n then 1 else 0
  {
    if n > 0 {
      DistinctCount(n - 1, x);
      assert Distinct(n)[..n - 1] == Distinct(n - 1);
    }
  }

  /** The phases of the values just below the wrap. */
  lemma PhaseBelowWrap(n: nat, d: nat)
    requires n > 0 && d <= Phase(U64, n)
    ensures d <= U64 && Phase(U64 - d, n) == Phase(U64, n) - d
  {
    var q := PhaseQuotient(U64, n);
    var r := Phase(U64, n);
    assert q * n >= 0;
    PhaseShift(r - d, q, n);
    assert U64 - d == r - d + q * n;
  }

  /** With r the phase of the wrap and s picks before it: for r <= s the first slot is picked twice. */
  lemma FirstTwice(n: nat, start: nat)
    requires start < U64 < start + n && n <= U64 && 0 < Phase(U64, n) <= U64 - start
    ensures Count(Picked(Distinct(n), start, n), 0) >= 2
  {
    var w, s, r := Distinct(n), U64 - start, Phase(U64, n);
    PhaseBelowWrap(n, r);
    Rewound(start + s - r);
    Rewound(start + s);
    assert Phase(0, n) == 0;
    hide Phase, Wrapped, Picked;
    PickedIndex(w, start, n, s - r);
    PickedIndex(w, start, n, s);
    CountTwice(Picked(w, start, n), 0, s - r, s);
  }

  lemma LastPhaseMissed(n: nat, start: nat, j: nat)
    requires start < U64 < start + n && n <= U64 && Phase(U64, n) > U64 - start && j < n
    ensures Phase(Wrapped(start + j), n) != n - 1
  {
    hide Wrapped;
    Rewound(start + j);
    if start + j < U64 { PhaseBelowWrap(n, U64 - start - j); }
  }

  /** And for r > s the last slot is not picked at all. */
  lemma LastNever(n: nat, start: nat)
    requires start < U64 < start + n && n <= U64 && Phase(U64, n) > U64 - start
    ensures Count<nat>(Picked(Distinct(n), start, n), n - 1) == 0
  {
    hide Phase, Picked, Wrapped;
    var p := Picked(Distinct(n), start, n);
    forall j | 0 <= j < n ensures p[j] != n - 1 {
      PickedIndex(Distinct(n), start, n, j);
      LastPhaseMissed(n, start, j);
    }
    CountAbsent(p, n - 1);
  }

  /** Every list of n slots is served exactly by the turn that begins at `start`. */
  ghost predicate TurnsExactly(n: nat, start: nat)
    requires n > 0
  {
    forall w: seq<nat>, t | |w| == n :: Count(Picked(w, start, n), t) == Count(w, t)
  }

  /** A turn is exact for all lists of n slots if and only if the counter does not wrap within it or
      the slots divide the range of the counter. */
  lemma TurnExactIff(n: nat, start: nat)
    requires 0 < n <= U64 && start < U64
    ensures TurnsExactly(n, start) <==> InPhase(n, start, n)
  {
    if InPhase(n, start, n) {
      forall w: seq<nat>, t | |w| == n ensures Count(Picked(w, start, n), t) == Count(w, t) {
        FullTurnIsExact(w, start, t);
      }
    } else {
      var w := Distinct(n);
      DistinctCount(n, 0);
      DistinctCount(n, n - 1);
      if Phase(U64, n) <= U64 - start {
        FirstTwice(n, start);
        assert Count(Picked(w, start, n), 0) != Count(w, 0);
      } else {
        LastNever(n, start);
        var last: nat := n - 1;
        assert Count(Picked(w, start, n), last) != Count(w, last);
      }
    }
  }

  // ---- such turns of a route ----

  function Ones(n: nat): (c: seq<nat>)
    ensures |c| == n && forall i :: 0 <= i < n ==> c[i] == 1
  {
    seq(n, _ => 1)
  }

  /** One pick from each of the first k of n runs. */
  function FirstOnes(n: nat, k: nat): (a: seq<nat>)
    ensures |a| == n && forall i :: 0 <= i < n ==> a[i] == if i < k then 1 else 0
  {
    seq(n, i => if i < k then 1 else 0)
  }

  lemma {:induction false} OnesSum(n: nat, m: nat)
    requires m <= n
    ensures SumTo(Ones(n), m) == m
  {
    if m > 0 { OnesSum(n, m - 1); }
  }

  lemma {:induction false} OnesBest(n: nat, k: nat, m: nat)
    requires k < n && m <= n
    ensures Best(Ones(n), FirstOnes(n, k), m) == if k < m then Run(k) else Nobody
  {
    if m > 0 { OnesBest(n, k, m - 1); }
  }

  lemma {:induction false} OnesTaken(n: nat, k: nat)
    requires k <= n && Sum(Ones(n)) == n
    ensures Taken(Ones(n), k) == FirstOnes(n, k)
  {
    hide Best, SumTo;
    if k > 0 {
      OnesTaken(n, k - 1);
      OnesBest(n, k - 1, n);
      assert FirstOnes(n, k - 1)[k - 1 := 1] == FirstOnes(n, k);
    }
  }

  /** Runs of one slot each are picked in order. */
  lemma {:induction false} OnesPicks(n: nat, k: nat)
    requires k <= n && Sum(Ones(n)) == n
    ensures Picks(Ones(n), k) == Distinct(k)
  {
    hide Best, SumTo, Taken;
    if k > 0 {
      OnesPicks(n, k - 1);
      OnesTaken(n, k - 1);
      OnesBest(n, k - 1, n);
    }
  }

  lemma {:induction false} OnesRuns(n: nat, m: nat)
    requires m <= n
    ensures var runs := RunsOf(Ones(n), m);
            |runs| == m && forall i :: 0 <= i < m ==> runs[i] == SlotRun(i, 1)
  {
    if m > 0 { OnesRuns(n, m - 1); }
  }

  /** Targets of the fixed weight 0.001 get one slot each, in order. */
  lemma SmallestWeights(ts: seq<Target>)
    requires forall i :: 0 <= i < |ts| ==> ts[i].fixedWeight == 0.001
    ensures SlotsOf(ts) == Distinct(|ts|)
  {
    var n, fs := |ts|, FixedWeights(ts);
    assert SlotsFor(0.001) == 1;
    assert SlotCounts(fs) == Ones(n);
    OnesSum(n, n);
    OnesRuns(n, n);
    OnesPicks(n, n);
    assert Sizes(RunsOf(Ones(n), n)) == Ones(n);
  }

  /** Each of n targets is picked once in the turn. */
  ghost predicate OnceEach(w: seq<nat>, start: nat, n: nat)
    requires w != []
  {
    forall t: nat :: t < n ==> Count(Picked(w, start, n), t) == 1
  }

  lemma DistinctOnce(n: nat, start: nat)
    requires n > 0 && start < U64 && InPhase(n, start, n)
    ensures OnceEach(Distinct(n), start, n)
  {
    hide Picked, Count, Phase, Distinct;
    forall t: nat | t < n ensures Count(Picked(Distinct(n), start, n), t) == 1 {
      FullTurnIsExact(Distinct(n), start, t);
      DistinctCount(n, t);
    }
  }

  lemma DistinctNotOnce(n: nat, start: nat)
    requires 0 < n <= U64 && start < U64 && !InPhase(n, start, n)
    ensures !OnceEach(Distinct(n), start, n)
  {
    hide Picked, Count, Distinct;
    if Phase(U64, n) <= U64 - start {
      FirstTwice(n, start);
      var first: nat := 0;
      assert Count(Picked(Distinct(n), start, n), first) != 1;
    } else {
      LastNever(n, start);
      var last: nat := n - 1;
      assert Count(Picked(Distinct(n), start, n), last) != 1;
    }
  }

  /** So a route may need the condition: with n such targets every one is picked once in a turn if and
      only if the counter does not wrap within it or n divides its range. */
  lemma WrapBreaksTurn(ts: seq<Target>, start: nat)
    requires 0 < |ts| <= U64 && start < U64 && forall i :: 0 <= i < |ts| ==> ts[i].fixedWeight == 0.001
    ensures OnceEach(SlotsOf(ts), start, |ts|) <==> InPhase(|ts|, start, |ts|)
  {
    hide OnceEach, SlotsOf, Distinct;
    SmallestWeights(ts);
    if InPhase(|ts|, start, |ts|) { DistinctOnce(|ts|, start); } else { DistinctNotOnce(|ts|, start); }
  }

  lemma {:induction false} CumulativeFair(counts: seq<nat>, m: nat, t: nat)
    requires t < |counts| && counts[t] > 0
    ensures Fair(Sum(counts), Groups(counts), counts[t], m, Cumulative(Spread(counts), m, t))
    decreases m
  {
    var w, n := Spread(counts), Sum(counts);
    hide Cumulative, Fair, Groups, Count, Spread;
    if m <= n {
      CumulativePrefix(w, m, t);
      SpreadFair(counts, m, t);
    } else {
      CumulativeFair(counts, m - n, t);
      CumulativeCycle(w, m - n, t);
      SpreadKeepsSlots(counts, t);
      FairNextTurn(n, Groups(counts), counts[t], m - n, Cumulative(w, m - n, t));
    }
  }

  lemma FairNextTurn(n: nat, groups: nat, c: nat, k: nat, cnt: nat)
    requires Fair(n, groups, c, k, cnt)
    ensures Fair(n, groups, c, k + n, cnt + c)
  {
    assert 2 * n * (cnt + c) == 2 * n * cnt + 2 * n * c;
    assert 2 * (k + n) * c == 2 * k * c + 2 * n * c;
  }

  /** Any k consecutive picks from any start give target t its proportional share k*c/n, with an
      error (times 2n) of at most 2*(n + (groups - 2)*c). */
  lemma WindowFair(counts: seq<nat>, start: nat, k: nat, t: nat)
    requires t < |counts| && counts[t] > 0
    requires start < U64 && InPhase(|Spread(counts)|, start, k)
    ensures FairWindow(2, Sum(counts), Groups(counts), counts[t], k, Count(Picked(Spread(counts), start, k), t))
  {
    hide Picked, Cumulative, Fair, FairWindow, Groups, Aligned;
    InPhaseIsAligned(Spread(counts), start, k);
    PickedCount(Spread(counts), start, k, t);
    CumulativeFair(counts, start, t);
    CumulativeFair(counts, start + k, t);
    FairDifference(Sum(counts), Groups(counts), counts[t], start, k,
                   Cumulative(Spread(counts), start, t), Cumulative(Spread(counts), start + k, t));
  }

  /** Within `times` the prefix bound of the proportional share. */
  predicate FairWindow(times: int, n: int, groups: int, c: int, k: int, cnt: int) {
    var bound := n + (groups - 2) * c;
    -times * bound <= 2 * n * cnt - 2 * k * c <= times * bound
  }

  lemma FairDifference(n: int, groups: int, c: int, start: int, k: int, x: int, y: int)
    requires Fair(n, groups, c, start, x) && Fair(n, groups, c, start + k, y)
    ensures FairWindow(2, n, groups, c, k, y - x)
  {
    assert 2 * n * (y - x) == 2 * n * y - 2 * n * x;
    assert 2 * (start + k) * c == 2 * start * c + 2 * k * c;
  }

  /** Occurrences of t among x picks from a counter at 0, with at most one wrap. */
  function Passed(w: seq<nat>, x: nat, t: nat): nat
    requires w != []
  {
    if x <= U64 then Cumulative(w, x, t) else Cumulative(w, U64, t) + Cumulative(w, x - U64, t)
  }

  lemma CumulativeStep(w: seq<nat>, x: nat, t: nat)
    requires w != []
    ensures Cumulative(w, x + 1, t) == Cumulative(w, x, t) + if SlotAt(w, x) == t then 1 else 0
    ensures Cumulative(w, 0, t) == 0
  {
    hide SlotAt;
  }

  lemma PassedStep(w: seq<nat>, x: nat, t: nat)
    requires w != [] && x < 2 * U64
    ensures Passed(w, x + 1, t) == Passed(w, x, t) + if SlotAt(w, Wrapped(x)) == t then 1 else 0
  {
    hide SlotAt, Wrapped, Cumulative;
    Rewound(x);
    if x < U64 { CumulativeStep(w, x, t); } else { CumulativeStep(w, x - U64, t); }
  }

  /** Up to 2^64 picks wrap at most once. */
  lemma {:induction false} PickedAcross(w: seq<nat>, start: nat, k: nat, t: nat)
    requires w != [] && start < U64 && k <= U64
    ensures Count(Picked(w, start, k), t) == Passed(w, start + k, t) - Passed(w, start, t)
  {
    hide Passed, SlotAt, Wrapped;
    if k > 0 {
      PickedAcross(w, start, k - 1, t);
      CountAppend(Picked(w, start, k - 1), PickedAt(w, start, k - 1), t);
      PassedStep(w, start + k - 1, t);
      hide Count;
    }
  }

  lemma FairAcross(n: int, groups: int, c: int, start: int, k: int, x: int, y: int, z: int)
    requires Fair(n, groups, c, start, x) && Fair(n, groups, c, U64, y) && Fair(n, groups, c, start + k - U64, z)
    ensures FairWindow(3, n, groups, c, k, y - x + z)
  {
    assert 2 * n * (y - x + z) == 2 * n * y - 2 * n * x + 2 * n * z;
    assert 2 * (start + k - U64) * c == 2 * start * c + 2 * k * c - 2 * U64 * c;
  }

  lemma WiderFair(n: int, groups: int, c: int, k: int, cnt: int)
    requires FairWindow(2, n, groups, c, k, cnt)
    ensures FairWindow(3, n, groups, c, k, cnt)
  {
  }

  lemma WrappedWindowFair(counts: seq<nat>, start: nat, k: nat, t: nat)
    requires t < |counts| && counts[t] > 0 && start < U64 < start + k && k <= U64
    ensures FairWindow(3, Sum(counts), Groups(counts), counts[t], k, Count(Picked(Spread(counts), start, k), t))
  {
    hide FairWindow, Fair, Picked, Count, Cumulative, Spread, Groups, Sum;
    var w := Spread(counts);
    PickedAcross(w, start, k, t);
    CumulativeFair(counts, start, t);
    CumulativeFair(counts, U64, t);
    CumulativeFair(counts, start + k - U64, t);
    FairAcross(Sum(counts), Groups(counts), counts[t], start, k,
               Cumulative(w, start, t), Cumulative(w, U64, t), Cumulative(w, start + k - U64, t));
  }

  /** Any window of at most 2^64 consecutive picks from any start, across the wrap or not, is within
      three times the prefix bound. */
  lemma AnyWindowFair(counts: seq<nat>, start: nat, k: nat, t: nat)
    requires t < |counts| && counts[t] > 0 && start < U64 && k <= U64
    ensures FairWindow(3, Sum(counts), Groups(counts), counts[t], k, Count(Picked(Spread(counts), start, k), t))
  {
    if start + k <= U64 {
      assert InPhase(|Spread(counts)|, start, k);
      hide FairWindow, Picked, Count, Spread, Groups, Sum;
      WindowFair(counts, start, k, t);
      WiderFair(Sum(counts), Groups(counts), counts[t], k, Count(Picked(Spread(counts), start, k), t));
    } else {
      WrappedWindowFair(counts, start, k, t);
    }
  }

  /** End to end: on the slot list a route computes, one full turn of the counter serves target t
      exactly as often as its weight gave it slots, so a positive weight never starves. */
  lemma RouteServesByWeight(ts: seq<Target>, start: nat, t: nat)
    requires t < |ts| && start < U64 && InPhase(|SlotsOf(ts)|, start, |SlotsOf(ts)|)
    ensures var w := WeightOf(FixedWeights(ts), t);
            var served := Count(Picked(SlotsOf(ts), start, |SlotsOf(ts)|), t);
            served == SlotsFor(w) && (served > 0 <==> w > 0.0)
  {
    var fs := FixedWeights(ts);
    FullTurnIsExact(SlotsOf(ts), start, t);
    SpreadKeepsSlots(SlotCounts(fs), t);
    SlotsForWeight(WeightOf(fs, t));
  }

  // ---- least connections ----

  /** (conns / weight * 1e6) as u64, which truncates and saturates. */
  function Score(conns: nat, weight: real): nat
    requires weight > 0.0
  {
    Quotient1(conns as real, weight);
    var s := (conns as real / weight * 1000000.0).Floor;
    if s >= U64 then U64 - 1 else s
  }

  lemma Quotient1(x: real, y: real)
    requires x >= 0.0 && y > 0.0
    ensures x / y >= 0.0
  {
  }

  /** Target i is a candidate of the weighted pass. */
  predicate Weighted(ts: seq<Target>, i: nat)
    requires i < |ts|
  {
    ts[i].weight > 0.0
  }

  function Load(ts: seq<Target>, conns: seq<nat>, i: nat): nat
    requires i < |ts| == |conns|
  {
    if Weighted(ts, i) then Score(conns[i], ts[i].weight) else conns[i]
  }

  /** i is the first of the least loaded among the first m targets that satisfy `weighted`. */
  ghost predicate FirstLeast(ts: seq<Target>, conns: seq<nat>, weighted: bool, m: nat, r: Option<nat>)
    requires m <= |ts| == |conns|
  {
    match r
    case None => forall j :: 0 <= j < m ==> Weighted(ts, j) != weighted
    case Some(i) =>
      && i < m && Weighted(ts, i) == weighted
      && (forall j :: 0 <= j < m && Weighted(ts, j) == weighted ==> Load(ts, conns, i) <= Load(ts, conns, j))
      && (forall j :: 0 <= j < i && Weighted(ts, j) == weighted ==> Load(ts, conns, i) < Load(ts, conns, j))
  }

  lemma RealTimes(u: real, v: real, k: real)
    requires u < v && k > 0.0
    ensures u * k < v * k
  {
    assert (v - u) * k > 0.0;
  }

  /** Quotients in the real numbers, as products: u = a/x * 1e6 and v = b/y * 1e6. */
  lemma CrossProducts(a: real, x: real, b: real, y: real, u: real, v: real, d: real)
    requires x > 0.0 && y > 0.0 && u == a / x * 1000000.0 && v == b / y * 1000000.0 && u < v + d
    ensures a * y < b * x + d * (x * y / 1000000.0)
  {
    var k := x * y / 1000000.0;
    assert k > 0.0;
    RealTimes(u, v + d, k);
    assert a / x * x == a && b / y * y == b;
    assert u * k == a / x * x * y && v * k == b / y * y * x;
    assert (v + d) * k == v * k + d * k;
  }

  /** No quotient of connections and weight, in millionths, reaches 2^64. */
  predicate Unsaturated(conns: nat, weight: real)
    requires weight > 0.0
  {
    conns as real / weight * 1000000.0 < U64 as real
  }

  /** The integer scores order connections per weight up to one millionth. */
  lemma ScoresCompare(a: nat, x: real, b: nat, y: real)
    requires x > 0.0 && y > 0.0 && Unsaturated(a, x) && Unsaturated(b, y)
    ensures Score(a, x) <= Score(b, y) ==> a as real * y <= b as real * x + x * y / 1000000.0
    ensures Score(a, x) < Score(b, y) ==> a as real * y < b as real * x
  {
    var u, v := a as real / x * 1000000.0, b as real / y * 1000000.0;
    Quotient1(a as real, x);
    Quotient1(b as real, y);
    assert Score(a, x) == u.Floor && Score(b, y) == v.Floor;
    if u.Floor <= v.Floor { CrossProducts(a as real, x, b as real, y, u, v, 1.0); }
    if u.Floor < v.Floor { CrossProducts(a as real, x, b as real, y, u, v, 0.0); }
  }

  /** Target i has, in proportion to its weight, no more connections than any other with weight, up to
      one millionth, and fewer than those before it. */
  ghost predicate FewestPerWeight(ts: seq<Target>, conns: seq<nat>, i: nat)
    requires i < |ts| == |conns|
  {
    && ts[i].weight > 0.0
    && (forall j :: 0 <= j < |ts| && ts[j].weight > 0.0 ==>
          conns[i] as real * ts[j].weight <= conns[j] as real * ts[i].weight + ts[i].weight * ts[j].weight / 1000000.0)
    && (forall j :: 0 <= j < i && ts[j].weight > 0.0 ==> conns[i] as real * ts[j].weight < conns[j] as real * ts[i].weight)
  }

  ghost predicate AllUnsaturated(ts: seq<Target>, conns: seq<nat>)
    requires |ts| == |conns|
  {
    forall j :: 0 <= j < |ts| && ts[j].weight > 0.0 ==> Unsaturated(conns[j], ts[j].weight)
  }

  lemma LeastIsFewest(ts: seq<Target>, conns: seq<nat>, i: nat)
    requires i < |ts| == |conns| && FirstLeast(ts, conns, true, |ts|, Some(i)) && AllUnsaturated(ts, conns)
    ensures FewestPerWeight(ts, conns, i)
  {
    forall j | 0 <= j < |ts| && ts[j].weight > 0.0
      ensures conns[i] as real * ts[j].weight <= conns[j] as real * ts[i].weight + ts[i].weight * ts[j].weight / 1000000.0
      ensures j < i ==> conns[i] as real * ts[j].weight < conns[j] as real * ts[i].weight
    {
      assert Weighted(ts, i) && Weighted(ts, j);
      assert Load(ts, conns, i) == Score(conns[i], ts[i].weight) && Load(ts, conns, j) == Score(conns[j], ts[j].weight);
      hide Score, Unsaturated;
      ScoresCompare(conns[i], ts[i].weight, conns[j], ts[j].weight);
    }
  }

  /** The first of the targets with the fewest connections. */
  ghost predicate FewestConnections(conns: seq<nat>, i: nat)
    requires i < |conns|
  {
    && (forall j :: 0 <= j < |conns| ==> conns[i] <= conns[j])
    && (forall j :: 0 <= j < i ==> conns[i] < conns[j])
  }

  lemma LeastIsPlain(ts: seq<Target>, conns: seq<nat>, i: nat)
    requires i < |ts| == |conns| && FirstLeast(ts, conns, false, |ts|, Some(i))
    requires forall j :: 0 <= j < |ts| ==> ts[j].weight <= 0.0
    ensures FewestConnections(conns, i)
  {
    forall j | 0 <= j < |ts| ensures conns[i] <= conns[j] && (j < i ==> conns[i] < conns[j]) {
      assert !Weighted(ts, j) && !Weighted(ts, i);
      assert Load(ts, conns, j) == conns[j] && Load(ts, conns, i) == conns[i];
    }
  }

  /** `conns[i]` is the active connection count read for target i.  Targets without weight are
      considered only when no target has any. */
  method LeastConnections(ts: seq<Target>, conns: seq<nat>) returns (best: Option<nat>)
    requires |ts| == |conns|
    ensures best == None <==> ts == []
    ensures best.Some? ==> best.value < |ts|
    ensures (exists j :: 0 <= j < |ts| && ts[j].weight > 0.0) ==>
              best.Some? && ts[best.value].weight > 0.0
              && (AllUnsaturated(ts, conns) ==> FewestPerWeight(ts, conns, best.value))
    ensures ts != [] && (forall j :: 0 <= j < |ts| ==> ts[j].weight <= 0.0) ==>
              best.Some? && FewestConnections(conns, best.value)
  {
    best := LeastLoaded(ts, conns);
    if best.Some? {
      hide Load, FewestPerWeight, FewestConnections, AllUnsaturated;
      if exists j :: 0 <= j < |ts| && Weighted(ts, j) {
        if AllUnsaturated(ts, conns) { LeastIsFewest(ts, conns, best.value); }
      } else {
        forall j | 0 <= j < |ts| ensures ts[j].weight <= 0.0 { assert !Weighted(ts, j); }
        LeastIsPlain(ts, conns, best.value);
      }
    }
  }

  /** The two passes over the targets. */
  method LeastLoaded(ts: seq<Target>, conns: seq<nat>) returns (best: Option<nat>)
    requires |ts| == |conns|
    ensures best == None <==> ts == []
    ensures (exists i :: 0 <= i < |ts| && Weighted(ts, i)) ==> FirstLeast(ts, conns, true, |ts|, best)
    ensures !(exists i :: 0 <= i < |ts| && Weighted(ts, i)) ==> FirstLeast(ts, conns, false, |ts|, best)
  {
    best := None;
    if ts == [] {
      return;
    }
    var bestScore := 0;
    for i := 0 to |ts|
      invariant FirstLeast(ts, conns, true, i, best)
      invariant best.Some? ==> bestScore == Load(ts, conns, best.value)
    {
      if Weighted(ts, i) {
        var score := Score(conns[i], ts[i].weight);
        if best.None? || score < bestScore {
          best, bestScore := Some(i), score;
        }
      }
    }
    if best.None? {
      for i := 0 to |ts|
        invariant FirstLeast(ts, conns, false, i, best)
        invariant best.Some? ==> bestScore == Load(ts, conns, best.value)
      {
        if best.None? || conns[i] < bestScore {
          best, bestScore := Some(i), conns[i];
        }
      }
      assert !Weighted(ts, 0);
    }
  }
}
