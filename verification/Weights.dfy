/** From fixed and dynamic weights to slot counts (src/route/table.rs, lines 107-211).
    Weights are exact reals; `fs` holds the fixed weight of every target of a route, in order. */
module Weights {
  import opened Interleaving

  const SLOTS := 1000

  function MaxReal(x: real, y: real): real { if x < y then y else x }

  /** f64::clamp(0.0, 1000.0). */
  function Clamp(w: real): real { if w < 0.0 then 0.0 else if w > 1000.0 then 1000.0 else w }

  /** f64::round, half away from zero, on a value that is not negative. */
  function Round(x: real): nat
    requires x >= 0.0
  {
    (x + 0.5).Floor
  }

  predicate HasFixed(fs: seq<real>) {
    exists i :: 0 <= i < |fs| && fs[i] > 0.0
  }

  predicate HasDynamic(fs: seq<real>) {
    exists i :: 0 <= i < |fs| && fs[i] <= 0.0
  }

  /** Sum of the positive entries. */
  function FixedTotal(fs: seq<real>): (r: real)
    ensures r >= 0.0 && (r > 0.0 <==> HasFixed(fs))
  {
    if fs == [] then 0.0
    else
      assert HasFixed(fs) <==> HasFixed(fs[..|fs| - 1]) || fs[|fs| - 1] > 0.0;
      FixedTotal(fs[..|fs| - 1]) + MaxReal(fs[|fs| - 1], 0.0)
  }

  function DynamicCount(fs: seq<real>): (r: nat)
    ensures r > 0 <==> HasDynamic(fs)
    ensures r <= |fs| && (r == |fs| <==> !HasFixed(fs))
  {
    if fs == [] then 0
    else
      var front := fs[..|fs| - 1];
      assert HasFixed(fs) <==> HasFixed(front) || fs[|fs| - 1] > 0.0;
      assert HasDynamic(fs) <==> HasDynamic(front) || fs[|fs| - 1] <= 0.0;
      DynamicCount(front) + if fs[|fs| - 1] <= 0.0 then 1 else 0
  }

  /** What each dynamic target gets: an equal part of what the fixed weights leave of 1. */
  function DynamicShare(fs: seq<real>): (r: real)
    ensures r >= 0.0
    ensures Times(r, DynamicCount(fs)) == if HasDynamic(fs) then MaxReal(1.0 - FixedTotal(fs), 0.0) else 0.0
    ensures !HasFixed(fs) && fs != [] ==> r == 1.0 / |fs| as real && r > 0.0
  {
    if DynamicCount(fs) > 0 then
      Quotient(MaxReal(1.0 - FixedTotal(fs), 0.0), DynamicCount(fs));
      MaxReal(1.0 - FixedTotal(fs), 0.0) / DynamicCount(fs) as real
    else 0.0
  }

  /** x added up d times. */
  function Times(x: real, d: nat): real {
    if d == 0 then 0.0 else Times(x, d - 1) + x
  }

  lemma {:induction false} TimesIsProduct(x: real, d: nat)
    ensures Times(x, d) == x * d as real
  {
    if d > 0 {
      TimesIsProduct(x, d - 1);
      var e := (d - 1) as real;
      assert d as real == e + 1.0;
      assert x * (e + 1.0) == x * e + x;
    }
  }

  lemma Quotient(x: real, d: nat)
    requires x >= 0.0 && d > 0
    ensures x / d as real >= 0.0 && Times(x / d as real, d) == x && (x > 0.0 ==> x / d as real > 0.0)
  {
    TimesIsProduct(x / d as real, d);
  }

  function WeightOf(fs: seq<real>, i: nat): (w: real)
    requires i < |fs|
    ensures w >= 0.0
  {
    if fs[i] > 0.0 then fs[i] else DynamicShare(fs)
  }

  function SlotsFor(w: real): nat {
    var count := Round(Clamp(w) * SLOTS as real);
    if count == 0 && w > 0.0 then 1 else count
  }

  function WeightsOf(fs: seq<real>): (ws: seq<real>)
    ensures |ws| == |fs|
  {
    seq(|fs|, i requires 0 <= i < |fs| => WeightOf(fs, i))
  }

  function SlotCounts(fs: seq<real>): (c: seq<nat>)
    ensures |c| == |fs|
  {
    seq(|fs|, i requires 0 <= i < |fs| => SlotsFor(WeightOf(fs, i)))
  }

  function SumReal(ws: seq<real>): real {
    if ws == [] then 0.0 else SumReal(ws[..|ws| - 1]) + ws[|ws| - 1]
  }

  // ---- what the sizing promises ----

  /** `ws` gives every fixed target its own weight and every dynamic one `share`. */
  ghost predicate Shared(fs: seq<real>, share: real, ws: seq<real>) {
    |ws| == |fs| && forall i :: 0 <= i < |fs| ==> ws[i] == if fs[i] > 0.0 then fs[i] else share
  }

  lemma {:induction false} SharedSum(fs: seq<real>, share: real, ws: seq<real>)
    requires Shared(fs, share, ws)
    ensures SumReal(ws) == FixedTotal(fs) + Times(share, DynamicCount(fs))
  {
    if fs != [] {
      SharedSum(fs[..|fs| - 1], share, ws[..|fs| - 1]);
    }
  }

  /** Computed weights sum to the fixed total when every target is fixed, and to
      max(1, fixed total) as soon as one target is dynamic. */
  lemma WeightsSum(fs: seq<real>)
    ensures SumReal(WeightsOf(fs)) == if HasDynamic(fs) then MaxReal(1.0, FixedTotal(fs)) else FixedTotal(fs)
  {
    SharedSum(fs, DynamicShare(fs), WeightsOf(fs));
  }

  /** A slot count misses 1000 * min(weight, 1000) by less than one slot, and is positive
      exactly for a positive weight. */
  lemma SlotsForWeight(w: real)
    requires w >= 0.0
    ensures -1.0 < SlotsFor(w) as real - SLOTS as real * Clamp(w) < 1.0
    ensures SlotsFor(w) > 0 <==> w > 0.0
    ensures 0.0005 <= w <= 1000.0 ==> -0.5 < SlotsFor(w) as real - 1000.0 * w <= 0.5
    ensures 0.0 < w < 0.0005 ==> SlotsFor(w) == 1
    ensures w > 1000.0 ==> SlotsFor(w) == 1_000_000
    ensures SlotsFor(w) <= 1_000_000
  {
  }

  /** Some target has a slot, so the fallback for an empty slot list is never taken. */
  lemma SomeSlot(fs: seq<real>)
    requires fs != []
    ensures exists i :: 0 <= i < |fs| && SlotCounts(fs)[i] > 0
  {
    var i :| 0 <= i < |fs| && (fs[i] > 0.0 || !HasFixed(fs));
    SlotsForWeight(WeightOf(fs, i));
    assert SlotCounts(fs)[i] > 0;
  }
}
