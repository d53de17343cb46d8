/** The routing table that the commands change in place (src/route/table.rs, lines 293-658). */
module Tables {
  import opened Prelude
  import opened Routes
  import opened RouteTables
  import opened RouteLookup

  class Table {
    var routes: map<string, seq<RouteView>>
    var allTargets: seq<Target>  // one target for each upstream URL, for health checks

    constructor ()
      ensures routes == map[] && allTargets == []
    {
      routes, allTargets := map[], [];
    }

    /** Builds the table: every command in order, then the sort. */
    constructor FromDefinitions(ds: seq<RouteDef>)
      ensures routes == BuildTable(ds) && OnePerUrl(routes, allTargets)
    {
      routes, allTargets := map[], [];
      new;
      for i := 0 to |ds|
        invariant routes == ApplyAll(map[], ds[..i])
      {
        assert ds[..i + 1][..i] == ds[..i];
        Apply(ds[i]);
      }
      assert ds[..|ds|] == ds;
      Finalize();
    }

    method Apply(d: RouteDef)
      modifies this`routes
      ensures routes == RouteTables.Apply(old(routes), d)
    {
      match d.cmd
      case Add => ApplyAdd(d);
      case Del => ApplyDel(d);
      case Weight => ApplyWeight(d);
    }

    method ApplyAdd(d: RouteDef)
      modifies this`routes
      ensures routes == RouteTables.ApplyAdd(old(routes), d)
    {
      hide AddIn;
      var host, path := HostKey(d), PathKey(d);
      var rs := AddTo(if host in routes then routes[host] else [], host, path, TargetOf(d));
      routes := routes[host := rs];
    }

    method ApplyDel(d: RouteDef)
      modifies this`routes
      ensures routes == RouteTables.ApplyDel(old(routes), d)
    {
      var host, path := HostKey(d), PathScope(d);
      if d.tags != [] && host == "" && path.None? {
        DelEverywhere(d);
      } else {
        if host in routes {
          var rs := DelFrom(routes[host], path, d);
          routes := routes[host := rs];
        }
        if host in routes && routes[host] == [] {
          routes := routes - {host};
        }
        hide DelIn;
        assert routes == RouteTables.ApplyDel(old(routes), d);
      }
    }

    /** A del with tags and no source pattern goes through every host, in no particular order. */
    method DelEverywhere(d: RouteDef)
      requires Everywhere(d)
      modifies this`routes
      ensures routes == RouteTables.ApplyDel(old(routes), d)
    {
      hide DelIn;
      var todo := routes.Keys;
      while todo != {}
        invariant todo <= old(routes).Keys && routes.Keys == old(routes).Keys
        invariant forall h :: h in todo ==> routes[h] == old(routes)[h]
        invariant forall h :: h in routes && h !in todo ==> routes[h] == DelIn(old(routes)[h], None, d)
        decreases todo
      {
        var h :| h in todo;
        var rs := DelFrom(routes[h], None, d);
        routes := routes[h := rs];
        todo := todo - {h};
      }
      routes := map h | h in routes && routes[h] != [] :: routes[h];
    }

    method ApplyWeight(d: RouteDef)
      modifies this`routes
      ensures routes == RouteTables.ApplyWeight(old(routes), d)
    {
      var host := HostKey(d);
      if host in routes {
        var rs := WeightOn(routes[host], d);
        routes := routes[host := rs];
      }
    }

    /** Sorts every bucket, the longest paths first, and notes one target for each URL. */
    method Finalize()
      modifies this
      ensures routes == Finalized(old(routes)) && OnePerUrl(routes, allTargets)
    {
      hide Sorted;
      var todo := routes.Keys;
      while todo != {}
        invariant todo <= old(routes).Keys && routes.Keys == old(routes).Keys
        invariant forall h :: h in todo ==> routes[h] == old(routes)[h]
        invariant forall h :: h in routes && h !in todo ==> routes[h] == Sorted(old(routes)[h])
        decreases todo
      {
        var h :| h in todo;
        routes := routes[h := Sorted(routes[h])];
        todo := todo - {h};
      }
      allTargets := CollectTargets(routes);
    }

    method LookupRoute(host: string, path: string, matcher: Matcher, glob: (string, string) -> bool)
      returns (r: Option<RouteView>)
      ensures r == Lookup(routes, host, path, matcher, glob)
    {
      NothingMatches(path, matcher, glob);
      hide FirstMatch, Lower;
      var key := Lower(host);
      r := None;
      if key in routes {
        r := FindMatchingRoute(routes[key], path, matcher, glob);
      }
      if r.None? && "" in routes {
        r := FindMatchingRoute(routes[""], path, matcher, glob);
      }
    }

    method MatchingRoutes(host: string, path: string, matcher: Matcher, glob: (string, string) -> bool)
      returns (results: seq<RouteView>)
      ensures results == Matching(routes, host, path, matcher, glob)
    {
      NothingMatches(path, matcher, glob);
      hide AllMatches, Lower;
      var key := Lower(host);
      results := [];
      if key in routes {
        results := CollectMatchingRoutes(routes[key], path, matcher, glob, results);
      }
      if key != "" && "" in routes {
        results := CollectMatchingRoutes(routes[""], path, matcher, glob, results);
      }
    }
  }

  // ---- one target for each URL ----

  function Urls(ts: seq<Target>): set<string> {
    set t | t in ts :: t.url
  }

  ghost predicate DistinctUrls(ts: seq<Target>) {
    forall i, j :: 0 <= i < j < |ts| ==> ts[i].url != ts[j].url
  }

  function AllOf(rs: seq<RouteView>): (ts: seq<Target>)
    ensures forall t :: t in ts <==> exists v :: v in rs && t in v.targets
  {
    if rs == [] then []
    else
      assert rs == rs[..|rs| - 1] + [rs[|rs| - 1]];
      AllOf(rs[..|rs| - 1]) + rs[|rs| - 1].targets
  }

  /** Every URL of the table occurs once, with a target of the table. */
  ghost predicate OnePerUrl(m: map<string, seq<RouteView>>, all: seq<Target>) {
    && DistinctUrls(all)
    && (forall h :: h in m ==> Urls(AllOf(m[h])) <= Urls(all))
    && (forall t :: t in all ==> exists h :: h in m && t in AllOf(m[h]))
  }

  method AddUnseen(ts: seq<Target>, all: seq<Target>, seen: set<string>) returns (r: seq<Target>, now: set<string>)
    requires DistinctUrls(all) && seen == Urls(all)
    ensures DistinctUrls(r) && now == Urls(r) == Urls(all) + Urls(ts)
    ensures forall t :: t in r ==> t in all || t in ts
  {
    r, now := all, seen;
    for i := 0 to |ts|
      invariant DistinctUrls(r) && now == Urls(r) == Urls(all) + Urls(ts[..i])
      invariant forall t :: t in r ==> t in all || t in ts
    {
      assert ts[..i + 1] == ts[..i] + [ts[i]];
      if ts[i].url !in now {
        assert forall u :: u in r ==> u.url in Urls(r);
        r, now := r + [ts[i]], now + {ts[i].url};
      }
    }
    assert ts[..|ts|] == ts;
  }

  method AddRoutes(rs: seq<RouteView>, all: seq<Target>, seen: set<string>) returns (r: seq<Target>, now: set<string>)
    requires DistinctUrls(all) && seen == Urls(all)
    ensures DistinctUrls(r) && now == Urls(r) == Urls(all) + Urls(AllOf(rs))
    ensures forall t :: t in r ==> t in all || t in AllOf(rs)
  {
    r, now := all, seen;
    for i := 0 to |rs|
      invariant DistinctUrls(r) && now == Urls(r) == Urls(all) + Urls(AllOf(rs[..i]))
      invariant forall t :: t in r ==> t in all || t in AllOf(rs[..i])
    {
      assert rs[..i + 1][..i] == rs[..i];
      r, now := AddUnseen(rs[i].targets, r, now);
    }
    assert rs[..|rs|] == rs;
  }

  /** Goes through the hosts in no particular order. */
  method CollectTargets(m: map<string, seq<RouteView>>) returns (all: seq<Target>)
    ensures OnePerUrl(m, all)
  {
    hide AllOf;
    var seen: set<string> := {};
    all := [];
    var todo := m.Keys;
    while todo != {}
      invariant todo <= m.Keys && DistinctUrls(all) && seen == Urls(all)
      invariant forall h :: h in m && h !in todo ==> Urls(AllOf(m[h])) <= Urls(all)
      invariant forall t :: t in all ==> exists h :: h in m && t in AllOf(m[h])
      decreases todo
    {
      var h :| h in todo;
      all, seen := AddRoutes(m[h], all, seen);
      todo := todo - {h};
    }
  }

  // ---- a route is cloned, changed and stored again ----

  method AddedTo(v: RouteView, t: Target) returns (u: RouteView)
    ensures u == Refreshed(v, Added(v.targets, t))
  {
    var route := new Route.CloneOf(v);
    route.AddTarget(t);
    route.ComputeWeights();
    u := route.View();
  }

  /** Finds the route of the path, or makes one, and stores it with the target added. */
  method AddTo(rs: seq<RouteView>, host: string, path: string, t: Target) returns (us: seq<RouteView>)
    ensures us == AddIn(rs, host, path, t)
  {
    hide SlotsOf, Weighed, Added;
    var k := 0;
    while k < |rs| && rs[k].path != path
      invariant k <= |rs| && forall j :: 0 <= j < k ==> rs[j].path != path
    {
      k := k + 1;
    }
    assert k == FirstIndex(rs, path);
    var view := AddedTo(if k < |rs| then rs[k] else RouteView(host, path, [], []), t);
    us := if k < |rs| then rs[k := view] else rs + [view];
  }

  /** The targets leave the routes in scope; then the routes without targets leave the bucket. */
  method DelFrom(rs: seq<RouteView>, scope: Option<string>, d: RouteDef) returns (us: seq<RouteView>)
    ensures us == DelIn(rs, scope, d)
  {
    hide SlotsOf, Weighed, Kept;
    var all := rs;
    for i := 0 to |rs|
      invariant |all| == |rs|
      invariant forall j :: 0 <= j < i ==> all[j] == Removed(rs[j], scope, d)
      invariant forall j :: i <= j < |rs| ==> all[j] == rs[j]
    {
      if scope.None? || all[i].path == scope.value {
        var route := new Route.CloneOf(all[i]);
        route.RemoveTargets(d.service, d.tags, UrlScope(d));
        route.ComputeWeights();
        all := all[i := route.View()];
      }
    }
    us := [];
    for i := 0 to |all|
      invariant us == DelIn(rs[..i], scope, d)
    {
      assert rs[..i + 1][..i] == rs[..i];
      if all[i].targets != [] {
        us := us + [all[i]];
      }
    }
    assert rs[..|rs|] == rs;
  }

  method WeightOn(rs: seq<RouteView>, d: RouteDef) returns (us: seq<RouteView>)
    ensures us == WeightIn(rs, d)
  {
    us := rs;
    for i := 0 to |rs|
      invariant |us| == |rs|
      invariant forall j :: 0 <= j < i ==> us[j] == WeightIn(rs, d)[j]
      invariant forall j :: i <= j < |rs| ==> us[j] == rs[j]
    {
      if us[i].path == PathKey(d) {
        var v := Reshared(us[i], d);
        us := us[i := v];
      }
    }
  }

  /** Divides the weight of the command among the targets it selects. */
  method Reshared(v: RouteView, d: RouteDef) returns (u: RouteView)
    ensures u == Shared(v, d)
  {
    var count := 0;
    for i := 0 to |v.targets|
      invariant count == SelectedCount(v.targets[..i], d)
    {
      assert v.targets[..i + 1][..i] == v.targets[..i];
      if Selected(d.service, d.tags, v.targets[i]) {
        count := count + 1;
      }
    }
    assert v.targets[..|v.targets|] == v.targets;
    if count == 0 {
      return v;
    }
    var share := d.weight / count as real;
    var route := new Route.CloneOf(v);
    for i := 0 to |v.targets|
      invariant route.View() == v.(targets := route.targets) && |route.targets| == |v.targets|
      invariant forall j :: 0 <= j < i ==> route.targets[j] == Reweighted(v.targets, d, share)[j]
      invariant forall j :: i <= j < |v.targets| ==> route.targets[j] == v.targets[j]
    {
      var t := route.targets[i];
      if Selected(d.service, d.tags, t) {
        route.targets := route.targets[i := t.(fixedWeight := share)];
      }
    }
    assert route.targets == Reweighted(v.targets, d, share);
    route.ComputeWeights();
    u := route.View();
  }

  // ---- search ----

  lemma NothingMatches(path: string, matcher: Matcher, glob: (string, string) -> bool)
    ensures FirstMatch([], path, matcher, glob) == None && AllMatches([], path, matcher, glob) == []
  {
  }

  lemma {:induction false} FirstMatchExtends(rs: seq<RouteView>, i: nat, path: string, matcher: Matcher, glob: (string, string) -> bool)
    requires i <= |rs| && FirstMatch(rs[..i], path, matcher, glob).Some?
    ensures FirstMatch(rs, path, matcher, glob) == FirstMatch(rs[..i], path, matcher, glob)
  {
    if i == |rs| {
      assert rs[..i] == rs;
    } else {
      assert rs[..|rs| - 1][..i] == rs[..i];
      FirstMatchExtends(rs[..|rs| - 1], i, path, matcher, glob);
    }
  }

  method FindMatchingRoute(rs: seq<RouteView>, path: string, matcher: Matcher, glob: (string, string) -> bool)
    returns (r: Option<RouteView>)
    ensures r == FirstMatch(rs, path, matcher, glob)
  {
    hide Answers;
    for i := 0 to |rs|
      invariant FirstMatch(rs[..i], path, matcher, glob) == None
    {
      assert rs[..i + 1][..i] == rs[..i];
      if Answers(matcher, glob, rs[i], path) {
        FirstMatchExtends(rs, i + 1, path, matcher, glob);
        return Some(rs[i]);
      }
    }
    assert rs[..|rs|] == rs;
    r := None;
  }

  method CollectMatchingRoutes(
    rs: seq<RouteView>, path: string, matcher: Matcher, glob: (string, string) -> bool, before: seq<RouteView>)
    returns (results: seq<RouteView>)
    ensures results == before + AllMatches(rs, path, matcher, glob)
  {
    hide Answers;
    results := before;
    for i := 0 to |rs|
      invariant results == before + AllMatches(rs[..i], path, matcher, glob)
    {
      assert rs[..i + 1][..i] == rs[..i];
      if Answers(matcher, glob, rs[i], path) {
        results := results + [rs[i]];
      }
    }
    assert rs[..|rs|] == rs;
  }
}
