/** The slot list of a route (src/route/table.rs, lines 181-280).  A slot holds a reference to a
    target; two slots hold the same reference exactly when they name the same position of the
    route's target list, so a slot is modelled by that position. */
module Slots {
  import opened Interleaving

  datatype SlotRun = SlotRun(target: nat, size: nat)

  function Repeat(x: nat, k: nat): seq<nat> {
    seq(k, _ => x)
  }

  /** The slots of the first m targets, target after target. */
  function Expand(counts: seq<nat>, m: nat): (w: seq<nat>)
    requires m <= |counts|
    ensures |w| == SumTo(counts, m)
    ensures forall j :: 0 <= j < |w| ==> w[j] < m && counts[w[j]] > 0
  {
    if m == 0 then [] else Expand(counts, m - 1) + Repeat(m - 1, counts[m - 1])
  }

  /** One run for every target that has slots. */
  function RunsOf(counts: seq<nat>, m: nat): (runs: seq<SlotRun>)
    requires m <= |counts|
    ensures forall g :: 0 <= g < |runs| ==> runs[g].target < m && runs[g].size == counts[runs[g].target] > 0
  {
    if m == 0 then []
    else RunsOf(counts, m - 1) + if counts[m - 1] > 0 then [SlotRun(m - 1, counts[m - 1])] else []
  }

  ghost predicate Increasing(runs: seq<SlotRun>) {
    forall g, h :: 0 <= g < h < |runs| ==> runs[g].target < runs[h].target
  }

  lemma {:induction false} RunsIncrease(counts: seq<nat>, m: nat)
    requires m <= |counts|
    ensures Increasing(RunsOf(counts, m))
  {
    if m > 0 { RunsIncrease(counts, m - 1); }
  }

  function Sizes(runs: seq<SlotRun>): (c: seq<nat>)
    ensures |c| == |runs|
  {
    seq(|runs|, g requires 0 <= g < |runs| => runs[g].size)
  }

  function Flatten(runs: seq<SlotRun>): seq<nat> {
    if runs == [] then []
    else Flatten(runs[..|runs| - 1]) + Repeat(runs[|runs| - 1].target, runs[|runs| - 1].size)
  }

  /** Every run has slots, and neighbours are runs of different targets. */
  ghost predicate Maximal(runs: seq<SlotRun>) {
    runs == [] || (
      var front, last := runs[..|runs| - 1], runs[|runs| - 1];
      Maximal(front) && last.size > 0 && (front != [] ==> front[|front| - 1].target != last.target))
  }

  /** `runs` cuts `w` into maximal stretches of one target. */
  ghost predicate AreRuns(runs: seq<SlotRun>, w: seq<nat>) {
    Flatten(runs) == w && Maximal(runs)
  }

  /** The grouping loop. */
  method GroupRuns(w: seq<nat>) returns (runs: seq<SlotRun>)
    ensures AreRuns(runs, w)
  {
    runs := [];
    var i := 0;
    while i < |w|
      invariant i <= |w| && AreRuns(runs, w[..i])
      invariant 0 < i < |w| ==> runs != [] && runs[|runs| - 1].target != w[i]
    {
      var count := 1;
      while i + count < |w| && w[i + count] == w[i]
        invariant i + count <= |w|
        invariant forall j :: i <= j < i + count ==> w[j] == w[i]
      {
        count := count + 1;
      }
      assert w[..i + count] == w[..i] + Repeat(w[i], count);
      AppendRun(runs, w[..i], SlotRun(w[i], count));
      runs := runs + [SlotRun(w[i], count)];
      i := i + count;
    }
    assert w[..i] == w;
  }

  lemma NonEmptyRuns(runs: seq<SlotRun>, w: seq<nat>)
    requires AreRuns(runs, w)
    ensures runs == [] <==> w == []
  {
    if runs != [] { assert |w| >= runs[|runs| - 1].size; }
  }

  /** A list has only one division into maximal runs. */
  lemma {:induction false} RunsUnique(r: seq<SlotRun>, s: seq<SlotRun>, w: seq<nat>)
    requires AreRuns(r, w) && AreRuns(s, w)
    ensures r == s
    decreases |r|
  {
    NonEmptyRuns(r, w);
    NonEmptyRuns(s, w);
    if r != [] {
      var x, y := r[|r| - 1], s[|s| - 1];
      LastRun(r, w);
      LastRun(s, w);
      RunsUnique(r[..|r| - 1], s[..|s| - 1], w[..|w| - x.size]);
      assert r == r[..|r| - 1] + [x] && s == s[..|s| - 1] + [y];
    }
  }

  /** How often t repeats at the end of w. */
  ghost function Trailing(w: seq<nat>, t: nat): nat {
    if w == [] || w[|w| - 1] != t then 0 else 1 + Trailing(w[..|w| - 1], t)
  }

  lemma {:induction false} TrailingRepeat(w: seq<nat>, t: nat, k: nat)
    requires w == [] || w[|w| - 1] != t
    ensures Trailing(w + Repeat(t, k), t) == k
  {
    if k == 0 {
      assert w + Repeat(t, 0) == w;
    } else {
      TrailingRepeat(w, t, k - 1);
      assert (w + Repeat(t, k))[..|w| + k - 1] == w + Repeat(t, k - 1);
    }
  }

  /** The last run is everything that repeats at the end. */
  lemma LastRun(r: seq<SlotRun>, w: seq<nat>)
    requires AreRuns(r, w) && r != []
    ensures var x := r[|r| - 1];
            0 < x.size <= |w| && w[|w| - 1] == x.target && Trailing(w, x.target) == x.size
  {
    var front, x := r[..|r| - 1], r[|r| - 1];
    if front != [] {
      var p := front[|front| - 1];
      assert Maximal(front) && p.size > 0;
      assert Flatten(front) == Flatten(front[..|front| - 1]) + Repeat(p.target, p.size);
    }
    TrailingRepeat(Flatten(front), x.target, x.size);
  }

  lemma AppendRun(runs: seq<SlotRun>, w: seq<nat>, r: SlotRun)
    requires AreRuns(runs, w) && r.size > 0 && (runs != [] ==> runs[|runs| - 1].target != r.target)
    ensures AreRuns(runs + [r], w + Repeat(r.target, r.size))
  {
    assert (runs + [r])[..|runs|] == runs;
  }

  lemma AppendMaybe(runs: seq<SlotRun>, w: seq<nat>, x: nat, k: nat)
    requires AreRuns(runs, w) && (runs != [] ==> runs[|runs| - 1].target != x)
    ensures AreRuns(runs + if k > 0 then [SlotRun(x, k)] else [], w + Repeat(x, k))
  {
    if k > 0 {
      AppendRun(runs, w, SlotRun(x, k));
    } else {
      assert runs + [] == runs && w + Repeat(x, 0) == w;
    }
  }

  lemma {:induction false} ExpandRuns(counts: seq<nat>, m: nat)
    requires m <= |counts|
    ensures AreRuns(RunsOf(counts, m), Expand(counts, m))
  {
    if m > 0 {
      ExpandRuns(counts, m - 1);
      AppendMaybe(RunsOf(counts, m - 1), Expand(counts, m - 1), m - 1, counts[m - 1]);
    }
  }

  /** The slot list after interleaving. */
  function Spread(counts: seq<nat>): (w: seq<nat>)
    ensures |w| == Sum(counts)
    ensures forall j :: 0 <= j < |w| ==> w[j] < |counts| && counts[w[j]] > 0
    ensures forall t :: 0 <= t < |counts| && counts[t] > 0 ==> w != []
  {
    var runs := RunsOf(counts, |counts|);
    SizesSum(counts, |counts|);
    assert forall t :: 0 <= t < |counts| ==> counts[t] <= Sum(counts) by {
      forall t | 0 <= t < |counts| ensures counts[t] <= Sum(counts) { SumAtLeast(counts, t, |counts|); }
    }
    Relabel(runs, Picks(Sizes(runs), Sum(counts)))
  }

  function Relabel(runs: seq<SlotRun>, picks: seq<nat>): (w: seq<nat>)
    requires forall j :: 0 <= j < |picks| ==> picks[j] < |runs|
    ensures |w| == |picks| && forall j :: 0 <= j < |w| ==> w[j] == runs[picks[j]].target
  {
    seq(|picks|, j requires 0 <= j < |picks| => runs[picks[j]].target)
  }

  lemma {:induction false} SizesSum(counts: seq<nat>, m: nat)
    requires m <= |counts|
    ensures Sum(Sizes(RunsOf(counts, m))) == SumTo(counts, m)
  {
    if m > 0 {
      SizesSum(counts, m - 1);
      var c := Sizes(RunsOf(counts, m - 1));
      if counts[m - 1] == 0 {
        assert RunsOf(counts, m) == RunsOf(counts, m - 1);
      } else {
        assert Sizes(RunsOf(counts, m)) == c + [counts[m - 1]];
        SumPrefix(c, [counts[m - 1]], |c|);
      }
    }
  }

  lemma {:induction false} SumPrefix(c: seq<nat>, d: seq<nat>, m: nat)
    requires m <= |c|
    ensures SumTo(c + d, m) == SumTo(c, m)
  {
    if m > 0 { SumPrefix(c, d, m - 1); }
  }

  /** With at most one run there is nothing to interleave. */
  lemma SpreadOfOneRun(counts: seq<nat>)
    requires |RunsOf(counts, |counts|)| <= 1
    ensures Spread(counts) == Expand(counts, |counts|)
  {
    var w := Expand(counts, |counts|);
    forall j | 0 <= j < |w| ensures w[j] == Spread(counts)[j] {
      var g := EveryTargetRuns(counts, |counts|, w[j]);
    }
  }

  lemma {:induction false} EveryTargetRuns(counts: seq<nat>, m: nat, t: nat) returns (g: nat)
    requires t < m <= |counts| && counts[t] > 0
    ensures g < |RunsOf(counts, m)| && RunsOf(counts, m)[g].target == t
  {
    if t == m - 1 {
      g := |RunsOf(counts, m)| - 1;
    } else {
      g := EveryTargetRuns(counts, m - 1, t);
    }
  }

  lemma {:induction false} CountRelabelled(runs: seq<SlotRun>, picks: seq<nat>, g: nat)
    requires forall j :: 0 <= j < |picks| ==> picks[j] < |runs|
    requires Increasing(runs)
    requires g < |runs|
    ensures Count(Relabel(runs, picks), runs[g].target) == Count(picks, g)
  {
    if picks != [] {
      var front := picks[..|picks| - 1];
      CountRelabelled(runs, front, g);
      assert Relabel(runs, picks)[..|picks| - 1] == Relabel(runs, front);
    }
  }

  lemma {:induction false} CountAbsent(w: seq<nat>, t: nat)
    requires t !in w
    ensures Count(w, t) == 0
  {
    if w != [] { CountAbsent(w[..|w| - 1], t); }
  }

  // ---- main results ----

  /** Interleaving permutes: target t keeps exactly its slots. */
  lemma SpreadKeepsSlots(counts: seq<nat>, t: nat)
    requires t < |counts|
    ensures Count(Spread(counts), t) == counts[t]
  {
    if counts[t] == 0 {
      CountAbsent(Spread(counts), t);
    } else {
      var runs := RunsOf(counts, |counts|);
      var g := EveryTargetRuns(counts, |counts|, t);
      SizesSum(counts, |counts|);
      RunsIncrease(counts, |counts|);
      CountRelabelled(runs, Picks(Sizes(runs), Sum(counts)), g);
      PicksArePermutation(Sizes(runs), g);
    }
  }

  /** How many targets share the slot list. */
  function Groups(counts: seq<nat>): nat {
    |RunsOf(counts, |counts|)|
  }

  /** In every prefix of length k, twice n times the distance of target t from its
      proportional share k*c/n is at most n + (groups - 2)*c. */
  lemma SpreadFair(counts: seq<nat>, k: nat, t: nat)
    requires t < |counts| && counts[t] > 0 && k <= Sum(counts)
    ensures Fair(Sum(counts), Groups(counts), counts[t], k, Count(Spread(counts)[..k], t))
  {
    var runs := RunsOf(counts, |counts|);
    var g := EveryTargetRuns(counts, |counts|, t);
    SizesSum(counts, |counts|);
    var picks := Picks(Sizes(runs), Sum(counts));
    RunsIncrease(counts, |counts|);
    assert Spread(counts)[..k] == Relabel(runs, picks[..k]);
    CountRelabelled(runs, picks[..k], g);
    PrefixFair(Sizes(runs), k, g);
  }
}
