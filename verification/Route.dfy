/** A route and its targets (src/route/table.rs, lines 34-288; src/route/definition.rs). */
module Routes {
  import opened Prelude
  import opened Interleaving
  import opened Weights
  import opened Slots

  datatype Source = Static | ConsulKv | ConsulService

  datatype Target = Target(
    service: string,
    url: string,
    fixedWeight: real,
    weight: real,
    tags: seq<string>,
    source: Source)

  /** An immutable route as stored in the table. `wTargets` holds positions of `targets`. */
  datatype RouteView = RouteView(host: string, path: string, targets: seq<Target>, wTargets: seq<nat>)

  function FixedWeights(ts: seq<Target>): (fs: seq<real>)
    ensures |fs| == |ts|
  {
    seq(|ts|, i requires 0 <= i < |ts| => ts[i].fixedWeight)
  }

  /** The targets with their weights computed. */
  function Weighed(ts: seq<Target>): (us: seq<Target>)
    ensures |us| == |ts|
    ensures FixedWeights(us) == FixedWeights(ts)
  {
    seq(|ts|, i requires 0 <= i < |ts| => ts[i].(weight := WeightOf(FixedWeights(ts), i)))
  }

  /** The slot list a target list must have. */
  function SlotsOf(ts: seq<Target>): (w: seq<nat>)
    ensures w == [] <==> ts == []
  {
    if ts != [] then SomeSlot(FixedWeights(ts)); Spread(SlotCounts(FixedWeights(ts)))
    else Spread(SlotCounts(FixedWeights(ts)))
  }

  /** The pair the de-duplication of `add_target` compares. */
  predicate SameTarget(t: Target, u: Target) {
    t.service == u.service && t.url == u.url && t.fixedWeight == u.fixedWeight && t.source == u.source
  }

  function Added(ts: seq<Target>, t: Target): seq<Target> {
    if exists u :: u in ts && SameTarget(u, t) then ts else ts + [t]
  }

  /** What a del command selects: every given criterion must hold. */
  predicate Selected(service: string, tags: seq<string>, t: Target) {
    (service == "" || t.service == service) && forall tag :: tag in tags ==> tag in t.tags
  }

  predicate Removable(service: string, tags: seq<string>, url: Option<string>, t: Target) {
    Selected(service, tags, t) && (url.Some? ==> t.url == url.value)
  }

  function Kept(ts: seq<Target>, service: string, tags: seq<string>, url: Option<string>): (us: seq<Target>)
    ensures forall t :: t in us <==> t in ts && !Removable(service, tags, url, t)
  {
    if ts == [] then []
    else
      var front, last := ts[..|ts| - 1], ts[|ts| - 1];
      assert ts == front + [last];
      Kept(front, service, tags, url) + if Removable(service, tags, url, last) then [] else [last]
  }

  /** The working copy of a route that the table commands change and then store. */
  class Route {
    const host: string
    const path: string
    var targets: seq<Target>
    var wTargets: seq<nat>

    constructor (host: string, path: string)
      ensures View() == RouteView(host, path, [], [])
    {
      this.host, this.path := host, path;
      targets, wTargets := [], [];
    }

    constructor CloneOf(v: RouteView)
      ensures View() == v
    {
      host, path := v.host, v.path;
      targets, wTargets := v.targets, v.wTargets;
    }

    function View(): RouteView
      reads this
    {
      RouteView(host, path, targets, wTargets)
    }

    method AddTarget(target: Target)
      modifies this`targets
      ensures targets == Added(old(targets), target)
    {
      var exists_ := exists u :: u in targets && SameTarget(u, target);
      if !exists_ {
        targets := targets + [target];
      }
    }

    method RemoveTargets(service: string, tags: seq<string>, url: Option<string>)
      modifies this`targets
      ensures targets == Kept(old(targets), service, tags, url)
    {
      var kept := [];
      for i := 0 to |targets|
        invariant targets == old(targets) && kept == Kept(targets[..i], service, tags, url)
      {
        assert targets[..i + 1][..i] == targets[..i];
        if !Removable(service, tags, url, targets[i]) {
          kept := kept + [targets[i]];
        }
      }
      assert targets[..|targets|] == targets;
      targets := kept;
    }

    /** Sum of the positive fixed weights and number of the other targets. */
    method FixedAndDynamic() returns (total: real, dynamic: nat)
      ensures total == FixedTotal(FixedWeights(targets)) && dynamic == DynamicCount(FixedWeights(targets))
    {
      ghost var fs := FixedWeights(targets);
      total, dynamic := 0.0, 0;
      for i := 0 to |targets|
        invariant total == FixedTotal(fs[..i]) && dynamic == DynamicCount(fs[..i])
      {
        assert fs[..i + 1][..i] == fs[..i];
        if targets[i].fixedWeight > 0.0 {
          total := total + targets[i].fixedWeight;
        } else {
          dynamic := dynamic + 1;
        }
      }
      assert fs[..|fs|] == fs;
    }

    /** What each target without a fixed weight gets. */
    method Share() returns (share: real)
      requires targets != []
      ensures share == DynamicShare(FixedWeights(targets))
    {
      ghost var fs := FixedWeights(targets);
      var total, dynamic := FixedAndDynamic();
      share := 0.0;
      if exists t :: t in targets && t.fixedWeight > 0.0 {
        assert HasFixed(fs) by {
          var t :| t in targets && t.fixedWeight > 0.0;
          var i :| 0 <= i < |targets| && targets[i] == t;
          assert fs[i] > 0.0;
        }
        if dynamic > 0 {
          share := MaxReal(1.0 - total, 0.0) / dynamic as real;
        }
      } else {
        assert forall i :: 0 <= i < |fs| ==> targets[i] in targets;
        share := 1.0 / |targets| as real;
      }
    }

    /** Gives every target its weight. */
    method AssignWeights()
      requires targets != []
      modifies this`targets
      ensures targets == Weighed(old(targets))
    {
      var share := Share();
      for i := 0 to |targets|
        invariant |targets| == |old(targets)|
        invariant forall j :: 0 <= j < i ==> targets[j] == Weighed(old(targets))[j]
        invariant forall j :: i <= j < |targets| ==> targets[j] == old(targets)[j]
      {
        var t := targets[i];
        targets := targets[i := t.(weight := if t.fixedWeight > 0.0 then t.fixedWeight else share)];
      }
    }

    /** The slots before interleaving: target after target. */
    method FillSlots() returns (w: seq<nat>)
      requires targets == Weighed(targets)
      ensures w == Expand(SlotCounts(FixedWeights(targets)), |targets|)
    {
      ghost var counts := SlotCounts(FixedWeights(targets));
      w := [];
      for i := 0 to |targets|
        invariant w == Expand(counts, i)
      {
        assert targets[i] == Weighed(targets)[i];
        w := AddSlots(w, i, targets[i].weight);
      }
    }

    /** The slots of one target: at least one if its weight is positive. */
    method AddSlots(before: seq<nat>, i: nat, weight: real) returns (w: seq<nat>)
      requires weight >= 0.0
      ensures w == before + Repeat(i, SlotsFor(weight))
    {
      var count := Round(Clamp(weight) * SLOTS as real);
      w := before;
      if count == 0 && weight > 0.0 {
        w := w + [i];
        assert [i] == Repeat(i, 1);
      } else {
        for j := 0 to count
          invariant w == before + Repeat(i, j)
        {
          w := w + [i];
        }
      }
    }

    /** Groups the slots into runs and spreads them. */
    method SpreadSlots(w: seq<nat>, ghost counts: seq<nat>) returns (r: seq<nat>)
      requires w == Expand(counts, |counts|)
      ensures r == Spread(counts)
    {
      var runs := GroupRuns(w);
      ExpandRuns(counts, |counts|);
      RunsUnique(runs, RunsOf(counts, |counts|), w);
      if |runs| > 1 {
        SizesSum(counts, |counts|);
        var picks := Interleave(Sizes(runs));
        r := Relabel(runs, picks);
      } else {
        SpreadOfOneRun(counts);
        r := w;
      }
    }

    /** Recomputes weights and slots from the current targets.  The branch that would give every
        target equal slots when no target has a slot is shown to be unreachable. */
    method ComputeWeights()
      modifies this
      ensures targets == Weighed(old(targets)) && wTargets == SlotsOf(old(targets))
    {
      if targets == [] {
        wTargets := [];
        return;
      }
      AssignWeights();
      ghost var counts := SlotCounts(FixedWeights(targets));
      var w := FillSlots();
      if w == [] {
        SomeSlot(FixedWeights(targets));
        ghost var i :| 0 <= i < |counts| && counts[i] > 0;
        SumAtLeast(counts, i, |counts|);
        assert false;
      }
      wTargets := w;
      if |targets| > 1 {
        wTargets := SpreadSlots(w, counts);
      } else {
        assert |RunsOf(counts, |counts|)| <= 1;
        SpreadOfOneRun(counts);
      }
    }
  }
}
