/** What the commands do to the targets of a host and path, field by field
    (src/route/table.rs, 80-108 and 456-631; src/route/definition.rs, 52-60). */
module CommandEffects {
  import opened Prelude
  import opened Weights
  import opened Routes
  import opened RouteTables
  import opened SlotSizing

  // ---- where a command applies ----

  /** The source is the host h alone, or h, a slash and p. */
  predicate SourceIs(d: RouteDef, h: string, p: string) {
    '/' !in h && ((d.src == h && p == "") || d.src == h + "/" + p)
  }

  lemma SourceSplits(d: RouteDef, h: string, p: string)
    requires SourceIs(d, h, p)
    ensures SrcHost(d) == h && SrcPath(d) == p
  {
    assert forall j :: 0 <= j < |h| ==> h[j] in h;
    if d.src != h {
      assert d.src[|h|] == '/' && d.src[..|h|] == h && d.src[|h| + 1..] == p;
      assert forall j :: 0 <= j < |h| ==> d.src[j] == h[j];
    }
  }

  /** The key is the host in lower case. */
  predicate KeyOfHost(h: string, key: string) {
    SameUpToCase(h, key) && forall i :: 0 <= i < |key| ==> !('A' <= key[i] <= 'Z')
  }

  lemma LowerIsKey(h: string, key: string)
    ensures key == Lower(h) <==> KeyOfHost(h, key)
  {
    if KeyOfHost(h, key) { assert forall i :: 0 <= i < |h| ==> SameLetter(h[i], key[i]); }
  }

  /** Add and weight commands apply to one host and path, the root if they name no path. A del without
      a path applies to every path of its host, and with tags and without a host to every host. */
  lemma ScopeExactly(d: RouteDef, h: string, p: string, key: string, path: string)
    requires SourceIs(d, h, p)
    ensures d.cmd != Del ==> (InScope(d, key, path) <==> KeyOfHost(h, key) && path == "/" + p)
    ensures d.cmd == Del ==> (InScope(d, key, path) <==>
              && (KeyOfHost(h, key) || (d.tags != [] && h == "" && p == ""))
              && (p == "" || path == "/" + p))
  {
    SourceSplits(d, h, p);
    LowerIsKey(h, key);
    hide Lower, KeyOfHost, SrcHost, SrcPath;
    assert Lower(h) == "" <==> h == "" by { assert |Lower(h)| == |h|; }
  }

  // ---- what it does there ----

  /** A target without its computed weight. */
  function Bare(t: Target): Target { t.(weight := 0.0) }

  function Bares(ts: seq<Target>): (us: seq<Target>)
    ensures |us| == |ts| && forall i :: 0 <= i < |ts| ==> us[i] == Bare(ts[i])
  {
    seq(|ts|, i requires 0 <= i < |ts| => Bare(ts[i]))
  }

  lemma WeighedBares(ts: seq<Target>)
    ensures Bares(Weighed(ts)) == Bares(ts)
  {
    WeighedKeeps(ts);
  }

  /** Some target has the service, URL, fixed weight and source that the command gives. */
  ghost predicate Present(ts: seq<Target>, d: RouteDef) {
    exists i :: 0 <= i < |ts| && ts[i].service == d.service && ts[i].url == d.dst && ts[i].fixedWeight == d.weight
                && ts[i].source == d.source
  }

  /** An add appends one target with the given fields, unless such a one is there. */
  lemma AddExactly(ts: seq<Target>, d: RouteDef)
    requires d.cmd == Add
    ensures Bares(Effect(d, ts)) ==
              if Present(ts, d) then Bares(ts)
              else Bares(ts) + [Target(d.service, d.dst, d.weight, 0.0, d.tags, d.source)]
  {
    var t := TargetOf(d);
    WeighedBares(Added(ts, t));
    assert Present(ts, d) <==> exists u :: u in ts && SameTarget(u, t) by {
      if u :| u in ts && SameTarget(u, t) {
        var i :| 0 <= i < |ts| && ts[i] == u;
        assert ts[i].service == d.service;
      }
      if i :| 0 <= i < |ts| && ts[i].service == d.service && ts[i].url == d.dst && ts[i].fixedWeight == d.weight
              && ts[i].source == d.source {
        assert ts[i] in ts && SameTarget(ts[i], t);
      }
    }
    hide Present, Weighed;
  }

  /** The target meets the criteria that the command gives, an empty one being none. */
  predicate Meets(t: Target, d: RouteDef) {
    (d.service == "" || t.service == d.service) && forall tag :: tag in d.tags ==> tag in t.tags
  }

  predicate Goes(t: Target, d: RouteDef) {
    Meets(t, d) && (d.dst == "" || t.url == d.dst)
  }

  lemma BaresPush(ts: seq<Target>, t: Target)
    ensures Bares(ts + [t]) == Bares(ts) + [Bare(t)]
  {
  }

  lemma GoesIsRemovable(t: Target, d: RouteDef)
    ensures Removable(d.service, d.tags, UrlScope(d), t) <==> Goes(t, d)
    ensures Goes(Bare(t), d) <==> Goes(t, d)
  {
  }

  lemma {:induction false} KeptCount(ts: seq<Target>, d: RouteDef, t: Target)
    ensures multiset(Bares(Kept(ts, d.service, d.tags, UrlScope(d))))[t] == if Goes(t, d) then 0 else multiset(Bares(ts))[t]
  {
    hide Goes, Removable, Bares;
    if ts != [] {
      var front, last := ts[..|ts| - 1], ts[|ts| - 1];
      var kept := Kept(front, d.service, d.tags, UrlScope(d));
      assert ts == front + [last] && kept + [] == kept;
      KeptCount(front, d, t);
      BaresPush(front, last);
      BaresPush(kept, last);
      GoesIsRemovable(last, d);
    } else {
      assert Bares([]) == [];
    }
  }

  /** A del takes away every target that meets the criteria and has the URL, where these are given, and
      leaves all others as often as they were there. */
  lemma DelExactly(ts: seq<Target>, d: RouteDef, t: Target)
    requires d.cmd == Del
    ensures multiset(Bares(Effect(d, ts)))[t] == if Goes(t, d) then 0 else multiset(Bares(ts))[t]
  {
    WeighedBares(Kept(ts, d.service, d.tags, UrlScope(d)));
    KeptCount(ts, d, t);
    hide Goes, Kept, Weighed, Bares;
  }

  ghost function Meeting(ts: seq<Target>, d: RouteDef): set<nat> {
    set i | 0 <= i < |ts| && Meets(ts[i], d)
  }

  lemma {:induction false} SelectedIsMeeting(ts: seq<Target>, d: RouteDef)
    ensures SelectedCount(ts, d) == |Meeting(ts, d)|
  {
    if ts != [] {
      var n := |ts| - 1;
      SelectedIsMeeting(ts[..n], d);
      assert Selected(d.service, d.tags, ts[n]) <==> Meets(ts[n], d);
      hide Selected, Meets;
      if Meets(ts[n], d) {
        assert Meeting(ts, d) == Meeting(ts[..n], d) + {n};
      } else {
        assert Meeting(ts, d) == Meeting(ts[..n], d);
      }
    }
  }

  /** A weight command divides its weight equally among the targets that meet the criteria and leaves
      everything else. */
  lemma WeightExactly(ts: seq<Target>, d: RouteDef, i: nat)
    requires d.cmd == Weight && i < |ts|
    ensures |Effect(d, ts)| == |ts| && (Meets(ts[i], d) ==> |Meeting(ts, d)| > 0)
    ensures Bare(Effect(d, ts)[i]) ==
              if Meets(ts[i], d) then Bare(ts[i]).(fixedWeight := d.weight / |Meeting(ts, d)| as real) else Bare(ts[i])
  {
    SelectedIsMeeting(ts, d);
    var n := SelectedCount(ts, d);
    assert Selected(d.service, d.tags, ts[i]) <==> Meets(ts[i], d);
    if Meets(ts[i], d) { assert i in Meeting(ts, d); }
    hide Selected, Meets, Meeting, SelectedCount;
    if n > 0 { WeighedKeeps(Reweighted(ts, d, d.weight / n as real)); }
    hide Weighed;
  }

  // ---- what is stored ----

  /** Every stored route has up-to-date weights: the fixed one where there is one, else an equal share;
      and its slots are those of its targets. */
  lemma StoredWeights(host: string, v: RouteView, i: nat)
    requires RouteOk(host, v) && i < |v.targets|
    ensures v.wTargets == SlotsOf(v.targets)
    ensures if v.targets[i].fixedWeight > 0.0 then v.targets[i].weight == v.targets[i].fixedWeight
            else EqualShare(v.targets, v.targets[i].weight)
  {
    var fs := FixedWeights(v.targets);
    assert v.targets[i] == Weighed(v.targets)[i];
    if v.targets[i].fixedWeight <= 0.0 {
      assert HasDynamic(fs) by { assert fs[i] <= 0.0; }
      assert v.targets[i].weight == DynamicShare(fs);
    }
    hide SlotsOf;
  }
}
