/** The stride scheduler that spreads the slots of each run over the slot list
    (src/route/table.rs, lines 236-280).

    In exact arithmetic a run of `c` slots out of `n`, picked `a` times so far, sits at
    position (2a+1)*n/(2c).  The specification compares positions by cross multiplication;
    the method below keeps them as fractions and adds the stride n/c, as the program does. */
module Interleaving {

  /** Sum of the first m entries. */
  function SumTo(s: seq<nat>, m: nat): nat
    requires m <= |s|
  {
    if m == 0 then 0 else SumTo(s, m - 1) + s[m - 1]
  }

  function Sum(s: seq<nat>): nat {
    SumTo(s, |s|)
  }

  function Count<T(==)>(s: seq<T>, x: T): nat {
    if s == [] then 0 else Count(s[..|s| - 1], x) + if s[|s| - 1] == x then 1 else 0
  }

  predicate AllPositive(c: seq<nat>) {
    forall g :: 0 <= g < |c| ==> c[g] > 0
  }

  /** `a[g]` picks have been made from run g, which holds `c[g]` slots. */
  predicate Progress(c: seq<nat>, a: seq<nat>) {
    |a| == |c| && forall g :: 0 <= g < |c| ==> a[g] <= c[g]
  }

  /** Run g sits strictly before run h. */
  predicate Before(c: seq<nat>, a: seq<nat>, g: nat, h: nat)
    requires |a| == |c| && g < |c| && h < |c|
  {
    (2 * a[g] + 1) * c[h] < (2 * a[h] + 1) * c[g]
  }

  datatype Choice = Nobody | Run(g: nat)

  /** Among the first m runs, the earliest one that still has slots; ties go to the lower index. */
  function Best(c: seq<nat>, a: seq<nat>, m: nat): (r: Choice)
    requires Progress(c, a) && m <= |c|
    ensures r.Run? ==> r.g < m && a[r.g] < c[r.g]
    ensures r.Nobody? ==> forall g :: 0 <= g < m ==> a[g] == c[g]
  {
    if m == 0 then Nobody
    else
      var b := Best(c, a, m - 1);
      if a[m - 1] < c[m - 1] && (b.Nobody? || Before(c, a, m - 1, b.g)) then Run(m - 1) else b
  }

  /** Picks made from each run after k picks in total. */
  function Taken(c: seq<nat>, k: nat): (a: seq<nat>)
    requires k <= Sum(c)
    ensures Progress(c, a) && Sum(a) == k
  {
    if k == 0 then
      var a := seq(|c|, _ => 0);
      SumOfZeros(a, |a|);
      a
    else
      var a := Taken(c, k - 1);
      SomeRunLeft(c, a);
      var g := Best(c, a, |c|).g;
      SumUpdate(a, g, |a|);
      a[g := a[g] + 1]
  }

  /** The run picked at step k. */
  function Next(c: seq<nat>, k: nat): (g: nat)
    requires k < Sum(c)
    ensures g < |c| && Taken(c, k)[g] < c[g]
  {
    SomeRunLeft(c, Taken(c, k));
    Best(c, Taken(c, k), |c|).g
  }

  /** The first k picks. */
  function Picks(c: seq<nat>, k: nat): (p: seq<nat>)
    requires k <= Sum(c)
    ensures |p| == k && forall j :: 0 <= j < k ==> p[j] < |c|
  {
    if k == 0 then [] else Picks(c, k - 1) + [Next(c, k - 1)]
  }

  // ---- sums ----

  lemma SumOfZeros(a: seq<nat>, m: nat)
    requires m <= |a| && forall g :: 0 <= g < |a| ==> a[g] == 0
    ensures SumTo(a, m) == 0
  {
  }

  lemma {:induction false} SumUpdate(a: seq<nat>, g: nat, m: nat)
    requires g < |a| && m <= |a|
    ensures SumTo(a[g := a[g] + 1], m) == SumTo(a, m) + if g < m then 1 else 0
  {
    if m > 0 { SumUpdate(a, g, m - 1); }
  }

  lemma {:induction false} SumMonotone(a: seq<nat>, c: seq<nat>, m: nat)
    requires Progress(c, a) && m <= |c|
    ensures SumTo(a, m) <= SumTo(c, m)
    ensures SumTo(a, m) == SumTo(c, m) ==> forall g :: 0 <= g < m ==> a[g] == c[g]
  {
    if m > 0 { SumMonotone(a, c, m - 1); }
  }

  lemma SomeRunLeft(c: seq<nat>, a: seq<nat>)
    requires Progress(c, a) && Sum(a) < Sum(c)
    ensures Best(c, a, |c|).Run?
  {
    assert Best(c, a, |c|).Nobody? ==> a == c;
  }

  // ---- permutation ----

  lemma {:induction false} CountAppend<T>(s: seq<T>, x: T, y: T)
    ensures Count(s + [x], y) == Count(s, y) + if x == y then 1 else 0
  {
    assert (s + [x])[..|s|] == s;
  }

  lemma {:induction false} PicksCount(c: seq<nat>, k: nat, g: nat)
    requires k <= Sum(c) && g < |c|
    ensures Count(Picks(c, k), g) == Taken(c, k)[g]
  {
    if k > 0 {
      PicksCount(c, k - 1, g);
      CountAppend(Picks(c, k - 1), Next(c, k - 1), g);
    }
  }

  /** The interleaved list is a permutation of the slot list: every run keeps all its slots. */
  lemma PicksArePermutation(c: seq<nat>, g: nat)
    requires g < |c|
    ensures Count(Picks(c, Sum(c)), g) == c[g]
  {
    PicksCount(c, Sum(c), g);
    SumMonotone(Taken(c, Sum(c)), c, |c|);
  }

  lemma {:induction false} PicksPrefix(c: seq<nat>, k: nat, m: nat)
    requires k <= m <= Sum(c)
    ensures Picks(c, m)[..k] == Picks(c, k)
    decreases m
  {
    hide Next, Taken, Sum;
    if k < m {
      PicksPrefix(c, k, m - 1);
      assert Picks(c, m)[..k] == Picks(c, m - 1)[..k];
    }
  }

  // ---- proportional fairness ----

  /** The last pick of a run (x of p taken) never lies after the current position of another
      (y of q taken): (2x-1)*n/(2p) <= (2y+1)*n/(2q). */
  ghost predicate NotAhead(x: int, p: int, y: int, q: int) {
    (2 * x - 1) * q <= (2 * y + 1) * p
  }

  ghost predicate Balanced(c: seq<nat>, a: seq<nat>)
    requires |a| == |c|
  {
    forall g, h :: 0 <= g < |c| && 0 <= h < |c| ==> NotAhead(a[h], c[h], a[g], c[g])
  }

  /** The chosen run is at a minimal position among the runs that have slots left. */
  lemma {:induction false} BestIsFirst(c: seq<nat>, a: seq<nat>, m: nat, g: nat)
    requires Progress(c, a) && AllPositive(c) && g < m <= |c| && a[g] < c[g]
    ensures Best(c, a, m).Run? && !Before(c, a, g, Best(c, a, m).g)
  {
    if g < m - 1 {
      BestIsFirst(c, a, m - 1, g);
      var b := Best(c, a, m - 1).g;
      if Best(c, a, m) == Run(m - 1) && b != m - 1 {
        BeforeTransitive(2 * a[m - 1] + 1, c[m - 1], 2 * a[b] + 1, c[b], 2 * a[g] + 1, c[g]);
      }
    }
  }

  lemma BeforeTransitive(x: nat, p: nat, y: nat, q: nat, z: nat, r: nat)
    requires p > 0 && q > 0 && r > 0
    requires x * q <= y * p && y * r <= z * q
    ensures x * r <= z * p
  {
    Scale(x * q, y * p, r);
    Scale(y * r, z * q, p);
    assert x * q * r == (x * r) * q && y * p * r == y * r * p && z * q * p == (z * p) * q;
    if x * r > z * p { Scale(z * p + 1, x * r, q); }
  }

  lemma Scale(x: int, y: int, k: nat)
    requires x <= y
    ensures x * k <= y * k
  {
  }

  lemma BalancedStep(c: seq<nat>, a: seq<nat>)
    requires Progress(c, a) && AllPositive(c) && Sum(a) < Sum(c) && Balanced(c, a)
    ensures Best(c, a, |c|).Run?
    ensures var b := Best(c, a, |c|).g; Balanced(c, a[b := a[b] + 1])
  {
    SomeRunLeft(c, a);
    var b := Best(c, a, |c|).g;
    var a' := a[b := a[b] + 1];
    forall g, h | 0 <= g < |c| && 0 <= h < |c|
      ensures NotAhead(a'[h], c[h], a'[g], c[g])
    {
      assert NotAhead(a[h], c[h], a[g], c[g]);
      if h != b {
        NotAheadLater(a[h], c[h], a[g], a'[g], c[g]);
      } else if g == b {
        Scale(2 * a[b] + 1, 2 * a[b] + 3, c[b]);
      } else if a[g] < c[g] {
        BestIsFirst(c, a, |c|, g);
        assert !Before(c, a, g, b);
      } else {
        Exhausted(a[b], c[b], c[g]);
      }
    }
  }

  lemma NotAheadLater(x: int, p: nat, y: int, y': int, q: int)
    requires NotAhead(x, p, y, q) && y <= y'
    ensures NotAhead(x, p, y', q)
  {
    Scale(2 * y + 1, 2 * y' + 1, p);
  }

  /** A run with slots left sits before one that has none. */
  lemma Exhausted(x: nat, p: nat, q: nat)
    requires x < p
    ensures NotAhead(x + 1, p, q, q)
  {
    Scale(2 * x + 1, 2 * p, q);
  }

  lemma BalancedStart(c: seq<nat>, a: seq<nat>)
    requires |a| == |c| && forall g :: 0 <= g < |a| ==> a[g] == 0
    ensures Balanced(c, a)
  {
    forall g, h | 0 <= g < |c| && 0 <= h < |c| ensures NotAhead(a[h], c[h], a[g], c[g]) {
      assert NotAhead(0, c[h], 0, c[g]);
    }
  }

  lemma {:induction false} TakenBalanced(c: seq<nat>, k: nat)
    requires AllPositive(c) && k <= Sum(c)
    ensures Balanced(c, Taken(c, k))
  {
    hide Balanced, Best, SumTo;
    if k > 0 {
      TakenBalanced(c, k - 1);
      BalancedStep(c, Taken(c, k - 1));
    } else {
      BalancedStart(c, Taken(c, 0));
    }
  }

  ghost predicate SummedAbove(x: int, p: int, sumA: int, sumC: int, m: int, self: int) {
    (2 * x - 1) * sumC + 2 * self * p <= (2 * sumA + m) * p
  }

  ghost predicate SummedBelow(x: int, p: int, sumA: int, sumC: int, m: int, self: int) {
    (2 * sumA - m) * p + 2 * self * p <= (2 * x + 1) * sumC
  }

  /** Adds one run (y of q taken) to the two sums; comparing a run with itself leaves slack 2p. */
  lemma SummedStep(x: int, p: int, sumA: int, sumC: int, m: int, self: int, y: int, q: int, same: int)
    requires SummedAbove(x, p, sumA, sumC, m, self) && SummedBelow(x, p, sumA, sumC, m, self)
    requires NotAhead(x, p, y, q) && NotAhead(y, q, x, p)
    requires same == 0 || (same == 1 && x == y && p == q)
    ensures SummedAbove(x, p, sumA + y, sumC + q, m + 1, self + same)
    ensures SummedBelow(x, p, sumA + y, sumC + q, m + 1, self + same)
  {
    assert (2 * x - 1) * (sumC + q) == (2 * x - 1) * sumC + (2 * x - 1) * q;
    assert (2 * x + 1) * (sumC + q) == (2 * x + 1) * sumC + (2 * x + 1) * q;
    assert (2 * (sumA + y) + (m + 1)) * p == (2 * sumA + m) * p + (2 * y + 1) * p;
    assert (2 * (sumA + y) - (m + 1)) * p == (2 * sumA - m) * p + (2 * y - 1) * p;
    assert 2 * (self + same) * p == 2 * self * p + 2 * same * p;
    if same == 1 {
      assert (2 * x + 1) * p == (2 * x - 1) * p + 2 * p;
    }
  }

  /** The pairwise bounds against run h, summed over the first m runs. */
  lemma {:induction false} SumPairs(c: seq<nat>, a: seq<nat>, h: nat, m: nat)
    requires |a| == |c| && h < |c| && m <= |c| && Balanced(c, a)
    ensures SummedAbove(a[h], c[h], SumTo(a, m), SumTo(c, m), m, if h < m then 1 else 0)
    ensures SummedBelow(a[h], c[h], SumTo(a, m), SumTo(c, m), m, if h < m then 1 else 0)
  {
    if m > 0 {
      var g := m - 1;
      SumPairs(c, a, h, g);
      assert NotAhead(a[h], c[h], a[g], c[g]) && NotAhead(a[g], c[g], a[h], c[h]);
      SummedStep(a[h], c[h], SumTo(a, g), SumTo(c, g), g, if h < g then 1 else 0, a[g], c[g], if h == g then 1 else 0);
    }
  }

  /** Twice n times the distance of `cnt` from the ideal share k*c/n is at most n + (groups - 2)*c. */
  predicate Fair(n: int, groups: int, c: int, k: int, cnt: int) {
    -(n + (groups - 2) * c) <= 2 * n * cnt - 2 * k * c <= n + (groups - 2) * c
  }

  /** Every prefix of the interleaved list gives every run its proportional share. */
  lemma PrefixFair(c: seq<nat>, k: nat, g: nat)
    requires AllPositive(c) && k <= Sum(c) && g < |c|
    ensures Fair(Sum(c), |c|, c[g], k, Count(Picks(c, Sum(c))[..k], g))
  {
    PicksPrefix(c, k, Sum(c));
    PicksCount(c, k, g);
    TakenBalanced(c, k);
    SumPairs(c, Taken(c, k), g, |c|);
    FairFromSums(Sum(c), |c|, c[g], k, Taken(c, k)[g]);
  }

  lemma FairFromSums(n: int, groups: int, c: int, k: int, cnt: int)
    requires SummedAbove(cnt, c, k, n, groups, 1) && SummedBelow(cnt, c, k, n, groups, 1)
    ensures Fair(n, groups, c, k, cnt)
  {
    assert (2 * cnt - 1) * n == 2 * n * cnt - n && (2 * cnt + 1) * n == 2 * n * cnt + n;
    assert (2 * k + groups) * c == 2 * k * c + groups * c && (2 * k - groups) * c == 2 * k * c - groups * c;
    assert (groups - 2) * c == groups * c - 2 * c;
  }

  // ---- the program's fractional positions ----

  /** Where run g sits: half a stride, plus one stride per pick. */
  ghost function Position(n: nat, c: nat, a: nat): real
    requires c > 0
  {
    (n as real / c as real) * 0.5 + a as real * (n as real / c as real)
  }

  lemma {:induction false} RealProduct(x: nat, y: nat)
    ensures (x * y) as real == x as real * y as real
  {
    if x > 0 {
      RealProduct(x - 1, y);
      assert x * y == (x - 1) * y + y;
    }
  }

  lemma PositionTimes(n: nat, c: nat, a: nat)
    requires c > 0
    ensures Position(n, c, a) * 2.0 * c as real == (2 * a + 1) as real * n as real
  {
    var s := n as real / c as real;
    assert s * c as real == n as real;
    assert Position(n, c, a) == s * 0.5 + a as real * s;
    assert Position(n, c, a) * 2.0 * c as real == (1.0 + 2.0 * a as real) * (s * c as real);
  }

  /** Comparing positions is comparing cross products. */
  lemma PositionOrder(n: nat, c: nat, a: nat, d: nat, b: nat)
    requires n > 0 && c > 0 && d > 0
    ensures Position(n, c, a) < Position(n, d, b) <==> (2 * a + 1) * d < (2 * b + 1) * c
  {
    var p, q := Position(n, c, a), Position(n, d, b);
    PositionTimes(n, c, a);
    PositionTimes(n, d, b);
    RealProduct(2 * a + 1, d);
    RealProduct(2 * b + 1, c);
    CrossOrder(p, q, c as real, d as real, n as real, (2 * a + 1) as real, (2 * b + 1) as real);
  }

  lemma CrossOrder(p: real, q: real, c: real, d: real, n: real, x: real, y: real)
    requires c > 0.0 && d > 0.0 && n > 0.0
    requires p * 2.0 * c == x * n && q * 2.0 * d == y * n
    ensures p < q <==> x * d < y * c
  {
    var k := 2.0 * c * d;
    assert p * k == (p * 2.0 * c) * d == (x * d) * n;
    assert q * k == (q * 2.0 * d) * c == (y * c) * n;
    RealScale(p, q, k);
    RealScale(x * d, y * c, n);
  }

  lemma RealScale(x: real, y: real, k: real)
    requires k > 0.0
    ensures x < y <==> x * k < y * k
  {
    if x < y { assert (y - x) * k > 0.0; } else { assert (x - y) * k >= 0.0; }
  }

  /** The loop's vectors describe the state after `a[g]` picks from each run. */
  ghost predicate Tracks(c: seq<nat>, a: seq<nat>, remaining: seq<nat>, positions: seq<real>)
    requires AllPositive(c) && Progress(c, a)
  {
    && |remaining| == |positions| == |c|
    && (forall g :: 0 <= g < |c| ==> remaining[g] == c[g] - a[g])
    && (forall g :: 0 <= g < |c| ==> positions[g] == Position(Sum(c), c[g], a[g]))
  }

  /** The inner scan: the smallest position among the runs with slots left.
      "Nobody yet" stands for the program's initial best position f64::MAX. */
  method FindEarliest(c: seq<nat>, ghost a: seq<nat>, remaining: seq<nat>, positions: seq<real>)
    returns (best: Choice)
    requires AllPositive(c) && Progress(c, a) && Tracks(c, a, remaining, positions)
    ensures best == Best(c, a, |c|)
  {
    best := Nobody;
    for g := 0 to |c|
      invariant best == Best(c, a, g)
    {
      if best.Run? {
        SumAtLeast(c, g, |c|);
        PositionOrder(Sum(c), c[g], a[g], c[best.g], a[best.g]);
      }
      if remaining[g] > 0 && (best.Nobody? || positions[g] < positions[best.g]) {
        best := Run(g);
      }
    }
  }

  lemma {:induction false} SumAtLeast(c: seq<nat>, g: nat, m: nat)
    requires g < m <= |c|
    ensures c[g] <= SumTo(c, m)
  {
    if g < m - 1 { SumAtLeast(c, g, m - 1); }
  }

  /** One turn of the scheduling loop: pick, use up a slot, advance by one stride. */
  method PickOne(c: seq<nat>, k: nat, remaining: seq<nat>, positions: seq<real>)
    returns (g: nat, remaining': seq<nat>, positions': seq<real>)
    requires AllPositive(c) && k < Sum(c) && Tracks(c, Taken(c, k), remaining, positions)
    ensures g == Next(c, k) && Tracks(c, Taken(c, k + 1), remaining', positions')
  {
    PickStep(c, k);
    var best := FindEarliest(c, Taken(c, k), remaining, positions);
    g := best.g;
    TracksStep(c, Taken(c, k), remaining, positions, g);
    remaining' := remaining[g := remaining[g] - 1];
    positions' := positions[g := positions[g] + Stride(c, g)];
  }

  /** The scheduling loop. */
  method Interleave(counts: seq<nat>) returns (picks: seq<nat>)
    requires AllPositive(counts)
    ensures picks == Picks(counts, Sum(counts))
  {
    var remaining, positions := counts, StartPositions(counts);
    picks := [];
    for k := 0 to Sum(counts)
      invariant picks == Picks(counts, k)
      invariant Tracks(counts, Taken(counts, k), remaining, positions)
    {
      var g;
      g, remaining, positions := PickOne(counts, k, remaining, positions);
      picks := picks + [g];
    }
  }

  lemma PickStep(c: seq<nat>, k: nat)
    requires k < Sum(c)
    ensures var b := Best(c, Taken(c, k), |c|);
            && b == Run(Next(c, k))
            && Picks(c, k + 1) == Picks(c, k) + [b.g]
            && Taken(c, k + 1) == Taken(c, k)[b.g := Taken(c, k)[b.g] + 1]
  {
    SomeRunLeft(c, Taken(c, k));
  }

  function Stride(c: seq<nat>, g: nat): real
    requires AllPositive(c) && g < |c|
  {
    Sum(c) as real / c[g] as real
  }

  function StartPositions(c: seq<nat>): (p: seq<real>)
    requires AllPositive(c)
    ensures Tracks(c, seq(|c|, _ => 0), c, p)
  {
    seq(|c|, g requires 0 <= g < |c| => Stride(c, g) * 0.5)
  }

  lemma TracksStep(c: seq<nat>, a: seq<nat>, remaining: seq<nat>, positions: seq<real>, g: nat)
    requires AllPositive(c) && Progress(c, a) && Tracks(c, a, remaining, positions)
    requires g < |c| && a[g] < c[g]
    ensures Tracks(c, a[g := a[g] + 1], remaining[g := remaining[g] - 1],
              positions[g := positions[g] + Stride(c, g)])
  {
    StrideStep(Sum(c), c[g], a[g]);
  }

  lemma StrideStep(n: nat, c: nat, a: nat)
    requires c > 0
    ensures Position(n, c, a + 1) == Position(n, c, a) + n as real / c as real
  {
    var s := n as real / c as real;
    assert (a + 1) as real * s == a as real * s + s;
  }
}
