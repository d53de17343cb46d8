/** How many slots a weight is worth, and how often a route serves its targets, in plain numbers
    (src/route/table.rs, 181-198). */
module SlotSizing {
  import opened Prelude
  import opened Interleaving
  import opened Weights
  import opened Slots
  import opened Routes
  import opened Pickers

  /** n is what the weight w is worth: the whole number nearest to 1000*w, but at least one for any
      positive weight and at most a million. */
  predicate Worth(w: real, n: nat) {
    if w == 0.0 then n == 0
    else if w < 0.0005 then n == 1
    else if w > 1000.0 then n == 1_000_000
    else -0.5 < n as real - 1000.0 * w <= 0.5
  }

  /** The slot count is exactly that. */
  lemma SlotsForIsWorth(w: real)
    requires w >= 0.0
    ensures Worth(w, SlotsFor(w))
    ensures forall n: nat :: Worth(w, n) ==> n == SlotsFor(w)
  {
  }

  /** What is left of 1 for each of the targets without a fixed weight. */
  predicate EqualShare(ts: seq<Target>, share: real) {
    var fs := FixedWeights(ts);
    share >= 0.0 && Times(share, DynamicCount(fs)) == if FixedTotal(fs) < 1.0 then 1.0 - FixedTotal(fs) else 0.0
  }

  /** End to end: one full turn of the counter serves a target with a fixed weight as often as that
      weight is worth, and every other target as often as an equal share of what is left of 1 is. */
  lemma TurnServesWorth(ts: seq<Target>, start: nat, t: nat)
    requires t < |ts| && start < U64 && InPhase(|SlotsOf(ts)|, start, |SlotsOf(ts)|)
    ensures var served := Count(Picked(SlotsOf(ts), start, |SlotsOf(ts)|), t);
            if ts[t].fixedWeight > 0.0 then Worth(ts[t].fixedWeight, served)
            else exists share :: EqualShare(ts, share) && Worth(share, served)
  {
    var fs := FixedWeights(ts);
    RouteServesByWeight(ts, start, t);
    hide Worth;
    SlotsForIsWorth(WeightOf(fs, t));
    if ts[t].fixedWeight <= 0.0 {
      assert HasDynamic(fs) by { assert fs[t] <= 0.0; }
      assert EqualShare(ts, DynamicShare(fs));
    }
  }

  /** Two targets of weights 0.7 and 0.3 are served 700 and 300 times in a turn of 1000. */
  lemma SevenToThree()
    ensures SlotsFor(0.7) == 700 && SlotsFor(0.3) == 300
  {
    SlotsForIsWorth(0.7);
    SlotsForIsWorth(0.3);
  }
}
