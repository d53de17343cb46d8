/** The routing table as a value: what each command makes of it (src/route/table.rs, lines 336-658;
    src/route/definition.rs).  Strings are sequences of bytes written as characters. */
module RouteTables {
  import opened Prelude
  import opened Weights
  import opened Routes

  datatype Command = Add | Del | Weight

  datatype RouteDef = RouteDef(
    cmd: Command,
    service: string,
    src: string,
    dst: string,
    weight: real,
    tags: seq<string>,
    source: Source)

  type Table = map<string, seq<RouteView>>

  // ---- source patterns ----

  /** Where the first slash is, or the length. */
  function Slash(s: string): (k: nat)
    ensures k <= |s| && (k < |s| ==> s[k] == '/') && forall j :: 0 <= j < k ==> s[j] != '/'
  {
    if s == [] then 0 else if s[0] == '/' then 0 else 1 + Slash(s[1..])
  }

  function SrcHost(d: RouteDef): string { d.src[..Slash(d.src)] }

  function SrcPath(d: RouteDef): string {
    if Slash(d.src) < |d.src| then d.src[Slash(d.src) + 1..] else ""
  }

  function HostKey(d: RouteDef): string { Lower(SrcHost(d)) }

  /** Add and weight commands name the root when they give no path. */
  function PathKey(d: RouteDef): string { "/" + SrcPath(d) }

  /** A del command without a path means every path. */
  function PathScope(d: RouteDef): Option<string> {
    if SrcPath(d) == "" then None else Some(PathKey(d))
  }

  function UrlScope(d: RouteDef): Option<string> {
    if d.dst == "" then None else Some(d.dst)
  }

  function TargetOf(d: RouteDef): Target {
    Target(d.service, d.dst, d.weight, 0.0, d.tags, d.source)
  }

  // ---- one bucket: the routes of one host ----

  /** The route with other targets, their weights and slots recomputed. */
  function Refreshed(v: RouteView, ts: seq<Target>): RouteView {
    RouteView(v.host, v.path, Weighed(ts), SlotsOf(ts))
  }

  /** The first route with this path, or the length. */
  function FirstIndex(rs: seq<RouteView>, path: string): (k: nat)
    ensures k <= |rs| && (k < |rs| ==> rs[k].path == path)
    ensures forall j :: 0 <= j < k ==> rs[j].path != path
  {
    if rs == [] then 0
    else
      var front := rs[..|rs| - 1];
      var k := FirstIndex(front, path);
      if k < |front| || rs[|rs| - 1].path == path then k else |rs|
  }

  function TargetsOf(rs: seq<RouteView>, path: string): seq<Target> {
    var k := FirstIndex(rs, path);
    if k < |rs| then rs[k].targets else []
  }

  function AddIn(rs: seq<RouteView>, host: string, path: string, t: Target): seq<RouteView> {
    var k := FirstIndex(rs, path);
    if k < |rs| then rs[k := Refreshed(rs[k], Added(rs[k].targets, t))]
    else rs + [Refreshed(RouteView(host, path, [], []), Added([], t))]
  }

  predicate InPath(scope: Option<string>, path: string) {
    scope.Some? ==> path == scope.value
  }

  function Removed(v: RouteView, scope: Option<string>, d: RouteDef): RouteView {
    if InPath(scope, v.path) then Refreshed(v, Kept(v.targets, d.service, d.tags, UrlScope(d))) else v
  }

  /** Remove the targets, then the routes that have none left. */
  function DelIn(rs: seq<RouteView>, scope: Option<string>, d: RouteDef): seq<RouteView> {
    if rs == [] then []
    else
      var v := Removed(rs[|rs| - 1], scope, d);
      DelIn(rs[..|rs| - 1], scope, d) + if v.targets == [] then [] else [v]
  }

  function SelectedCount(ts: seq<Target>, d: RouteDef): nat {
    if ts == [] then 0
    else SelectedCount(ts[..|ts| - 1], d) + if Selected(d.service, d.tags, ts[|ts| - 1]) then 1 else 0
  }

  /** Every selected target gets the same share. */
  function Reweighted(ts: seq<Target>, d: RouteDef, share: real): (us: seq<Target>)
    ensures |us| == |ts|
  {
    seq(|ts|, i requires 0 <= i < |ts| =>
      if Selected(d.service, d.tags, ts[i]) then ts[i].(fixedWeight := share) else ts[i])
  }

  function Shared(v: RouteView, d: RouteDef): RouteView {
    var n := SelectedCount(v.targets, d);
    if n == 0 then v else Refreshed(v, Reweighted(v.targets, d, d.weight / n as real))
  }

  function WeightIn(rs: seq<RouteView>, d: RouteDef): (us: seq<RouteView>)
    ensures |us| == |rs|
  {
    seq(|rs|, i requires 0 <= i < |rs| => if rs[i].path == PathKey(d) then Shared(rs[i], d) else rs[i])
  }

  // ---- the commands ----

  function Bucket(m: Table, host: string): seq<RouteView> { if host in m then m[host] else [] }

  /** Replaces a bucket; an empty one disappears. */
  function WithBucket(m: Table, host: string, rs: seq<RouteView>): Table {
    if rs == [] then m - {host} else m[host := rs]
  }

  /** Tags without host and path select in every bucket. */
  predicate Everywhere(d: RouteDef) {
    d.tags != [] && HostKey(d) == "" && PathScope(d) == None
  }

  function ApplyAdd(m: Table, d: RouteDef): Table {
    m[HostKey(d) := AddIn(Bucket(m, HostKey(d)), HostKey(d), PathKey(d), TargetOf(d))]
  }

  function ApplyDel(m: Table, d: RouteDef): Table {
    if Everywhere(d) then map h | h in m && DelIn(m[h], None, d) != [] :: DelIn(m[h], None, d)
    else if HostKey(d) in m then WithBucket(m, HostKey(d), DelIn(m[HostKey(d)], PathScope(d), d))
    else m
  }

  function ApplyWeight(m: Table, d: RouteDef): Table {
    if HostKey(d) in m then m[HostKey(d) := WeightIn(m[HostKey(d)], d)] else m
  }

  function Apply(m: Table, d: RouteDef): Table {
    match d.cmd
    case Add => ApplyAdd(m, d)
    case Del => ApplyDel(m, d)
    case Weight => ApplyWeight(m, d)
  }

  function ApplyAll(m: Table, ds: seq<RouteDef>): Table {
    if ds == [] then m else Apply(ApplyAll(m, ds[..|ds| - 1]), ds[|ds| - 1])
  }

  // ---- the invariant ----

  predicate RouteOk(host: string, v: RouteView) {
    v.host == host && v.targets != [] && v.path != "" && v.path[0] == '/' && v == Refreshed(v, v.targets)
  }

  ghost predicate UniquePaths(rs: seq<RouteView>) {
    forall i, j :: 0 <= i < j < |rs| ==> rs[i].path != rs[j].path
  }

  ghost predicate RoutesOk(host: string, rs: seq<RouteView>) {
    UniquePaths(rs) && forall i :: 0 <= i < |rs| ==> RouteOk(host, rs[i])
  }

  /** Lower-case hosts, no empty bucket, one route per path, no route without targets, and slots
      that belong to the current targets. */
  ghost predicate TableOk(m: Table) {
    forall h :: h in m ==> Lower(h) == h && m[h] != [] && RoutesOk(h, m[h])
  }

  /** The targets a host and path lead to; none when there is no such route. */
  function TargetsAt(m: Table, host: string, path: string): seq<Target> {
    TargetsOf(Bucket(m, host), path)
  }

  lemma LowerTwice(s: string)
    ensures Lower(Lower(s)) == Lower(s)
  {
  }

  /** Recomputing is idempotent. */
  lemma RefreshedIsFixed(v: RouteView, ts: seq<Target>)
    ensures var r := Refreshed(v, ts); r == Refreshed(r, r.targets)
  {
    assert FixedWeights(Weighed(ts)) == FixedWeights(ts);
    assert Weighed(Weighed(ts)) == Weighed(ts);
  }

  lemma AddInOk(rs: seq<RouteView>, host: string, path: string, t: Target)
    requires RoutesOk(host, rs) && path != "" && path[0] == '/'
    ensures RoutesOk(host, AddIn(rs, host, path, t)) && AddIn(rs, host, path, t) != []
  {
    hide SlotsOf, Weighed, Kept;
    var k := FirstIndex(rs, path);
    if k < |rs| {
      RefreshedIsFixed(rs[k], Added(rs[k].targets, t));
    } else {
      RefreshedIsFixed(RouteView(host, path, [], []), Added([], t));
    }
  }

  lemma SamePathsSameIndex(rs: seq<RouteView>, us: seq<RouteView>, q: string)
    requires |us| == |rs| && forall i :: 0 <= i < |rs| ==> us[i].path == rs[i].path
    ensures FirstIndex(us, q) == FirstIndex(rs, q)
  {
    var k, l := FirstIndex(rs, q), FirstIndex(us, q);
    assert k < |rs| ==> us[k].path == q;
    assert l < |us| ==> rs[l].path == q;
  }

  lemma ReplacedTargets(rs: seq<RouteView>, k: nat, v: RouteView, q: string)
    requires UniquePaths(rs) && k < |rs| && v.path == rs[k].path
    ensures TargetsOf(rs[k := v], q) == if q == v.path then v.targets else TargetsOf(rs, q)
  {
    SamePathsSameIndex(rs, rs[k := v], q);
    assert q == v.path ==> FirstIndex(rs, q) == k;
  }

  /** What an add changes: the targets at one host and path. */
  lemma AddInTargets(rs: seq<RouteView>, host: string, path: string, t: Target, q: string)
    requires UniquePaths(rs)
    ensures TargetsOf(AddIn(rs, host, path, t), q) ==
              if q == path then Weighed(Added(TargetsOf(rs, path), t)) else TargetsOf(rs, q)
  {
    var k := FirstIndex(rs, path);
    hide SlotsOf, Weighed, Added, FirstIndex, UniquePaths;
    if k < |rs| {
      ReplacedTargets(rs, k, Refreshed(rs[k], Added(rs[k].targets, t)), q);
    } else {
      TargetsOfAppend(rs, Refreshed(RouteView(host, path, [], []), Added([], t)), q);
    }
  }

  lemma {:induction false} DelInOk(host: string, rs: seq<RouteView>, scope: Option<string>, d: RouteDef)
    requires RoutesOk(host, rs)
    ensures RoutesOk(host, DelIn(rs, scope, d))
    ensures forall i :: 0 <= i < |DelIn(rs, scope, d)| ==>
              exists j :: 0 <= j < |rs| && rs[j].path == DelIn(rs, scope, d)[i].path
  {
    hide SlotsOf, Weighed, Kept;
    if rs != [] {
      var front, last := rs[..|rs| - 1], rs[|rs| - 1];
      DelInOk(host, front, scope, d);
      RefreshedIsFixed(last, Kept(last.targets, d.service, d.tags, UrlScope(d)));
      var us := DelIn(front, scope, d);
      forall i | 0 <= i < |us| ensures us[i].path != last.path && exists j :: 0 <= j < |rs| && rs[j].path == us[i].path {
        var j :| 0 <= j < |front| && front[j].path == us[i].path;
        assert rs[j].path == us[i].path;
      }
    }
  }

  lemma TargetsOfAppend(rs: seq<RouteView>, v: RouteView, q: string)
    ensures v.path != q ==> TargetsOf(rs + [v], q) == TargetsOf(rs, q)
    ensures v.path == q && FirstIndex(rs, q) == |rs| ==> TargetsOf(rs + [v], q) == v.targets
    ensures FirstIndex(rs, q) == |rs| ==> TargetsOf(rs, q) == []
  {
    hide SlotsOf, Weighed;
    assert (rs + [v])[..|rs|] == rs;
  }

  lemma RemovedFacts(v: RouteView, scope: Option<string>, d: RouteDef)
    ensures var u := Removed(v, scope, d);
            && u.path == v.path
            && u.targets == if InPath(scope, v.path) then Weighed(Kept(v.targets, d.service, d.tags, UrlScope(d))) else v.targets
    ensures Weighed(Kept([], d.service, d.tags, UrlScope(d))) == []
  {
    hide SlotsOf;
  }

  lemma NoSuchPath(host: string, front: seq<RouteView>, last: RouteView, scope: Option<string>, d: RouteDef)
    requires RoutesOk(host, front + [last])
    ensures RoutesOk(host, front) && FirstIndex(front, last.path) == |front|
    ensures FirstIndex(DelIn(front, scope, d), last.path) == |DelIn(front, scope, d)|
  {
    hide RouteOk, DelIn;
    var rs := front + [last];
    assert forall i :: 0 <= i < |front| ==> front[i] == rs[i] && rs[i].path != rs[|front|].path;
    DelInOk(host, front, scope, d);
  }

  /** What a del changes: it filters the targets of the paths in scope. */
  lemma {:induction false} DelInTargets(host: string, rs: seq<RouteView>, scope: Option<string>, d: RouteDef, q: string)
    requires RoutesOk(host, rs)
    ensures TargetsOf(DelIn(rs, scope, d), q) ==
              if InPath(scope, q) then Weighed(Kept(TargetsOf(rs, q), d.service, d.tags, UrlScope(d)))
              else TargetsOf(rs, q)
  {
    hide SlotsOf, Weighed, Kept, RoutesOk, FirstIndex, Removed, TargetsOf;
    if rs != [] {
      var front, last := rs[..|rs| - 1], rs[|rs| - 1];
      var us, v := DelIn(front, scope, d), Removed(last, scope, d);
      assert rs == front + [last];
      NoSuchPath(host, front, last, scope, d);
      DelInTargets(host, front, scope, d, q);
      TargetsOfAppend(front, last, q);
      TargetsOfAppend(us, v, q);
      RemovedFacts(last, scope, d);
      assert us + [] == us;
    } else {
      TargetsOfNone(q);
      RemovedFacts(RouteView(host, q, [], []), scope, d);
    }
  }

  lemma TargetsOfNone(q: string)
    ensures TargetsOf([], q) == []
  {
  }

  // ---- weight commands ----

  function SharedTargets(ts: seq<Target>, d: RouteDef): seq<Target> {
    var n := SelectedCount(ts, d);
    if n == 0 then ts else Weighed(Reweighted(ts, d, d.weight / n as real))
  }

  /** Sum of the fixed weights of the selected targets. */
  function SelectedTotal(ts: seq<Target>, d: RouteDef): real {
    if ts == [] then 0.0
    else SelectedTotal(ts[..|ts| - 1], d)
         + if Selected(d.service, d.tags, ts[|ts| - 1]) then ts[|ts| - 1].fixedWeight else 0.0
  }

  lemma {:induction false} ReweightedTotal(ts: seq<Target>, us: seq<Target>, d: RouteDef, share: real)
    requires |us| == |ts|
    requires forall i :: 0 <= i < |ts| ==>
      us[i] == Reweighted(ts, d, share)[i].(weight := us[i].weight)
    ensures SelectedTotal(us, d) == Times(share, SelectedCount(ts, d))
  {
    hide SlotsOf, WeightOf;
    if ts != [] {
      ReweightedTotal(ts[..|ts| - 1], us[..|us| - 1], d, share);
    }
  }

  /** Weighing changes nothing but the weights. */
  lemma WeighedKeeps(ts: seq<Target>)
    ensures forall i :: 0 <= i < |ts| ==> Weighed(ts)[i] == ts[i].(weight := Weighed(ts)[i].weight)
  {
    hide WeightOf;
  }

  lemma PartsAddUp(x: real, n: nat)
    requires n > 0
    ensures Times(x / n as real, n) == x
  {
    TimesIsProduct(x / n as real, n);
  }

  /** A weight command with a match leaves the selected fixed weights summing to the given weight. */
  lemma WeightIsShared(ts: seq<Target>, d: RouteDef)
    requires SelectedCount(ts, d) > 0
    ensures SelectedTotal(SharedTargets(ts, d), d) == d.weight
  {
    var n := SelectedCount(ts, d);
    PartsAddUp(d.weight, n);
    WeighedKeeps(Reweighted(ts, d, d.weight / n as real));
    hide Weighed, Reweighted, SelectedCount, SelectedTotal, Times;
    ReweightedTotal(ts, SharedTargets(ts, d), d, d.weight / n as real);
  }

  lemma WeightInOk(host: string, rs: seq<RouteView>, d: RouteDef)
    requires RoutesOk(host, rs)
    ensures RoutesOk(host, WeightIn(rs, d))
  {
    forall i | 0 <= i < |rs| ensures RouteOk(host, WeightIn(rs, d)[i]) && WeightIn(rs, d)[i].path == rs[i].path {
      SharedOk(host, rs[i], d);
    }
  }

  lemma SharedOk(host: string, v: RouteView, d: RouteDef)
    requires RouteOk(host, v)
    ensures RouteOk(host, Shared(v, d)) && Shared(v, d).path == v.path
    ensures Shared(v, d).targets == SharedTargets(v.targets, d)
  {
    var n := SelectedCount(v.targets, d);
    if n > 0 {
      RefreshedIsFixed(v, Reweighted(v.targets, d, d.weight / n as real));
    }
  }

  lemma WeightInTargets(host: string, rs: seq<RouteView>, d: RouteDef, q: string)
    requires RoutesOk(host, rs)
    ensures TargetsOf(WeightIn(rs, d), q) ==
              if q == PathKey(d) then SharedTargets(TargetsOf(rs, q), d) else TargetsOf(rs, q)
  {
    hide SlotsOf, Weighed, RouteOk, FirstIndex, Shared, SharedTargets;
    var us := WeightIn(rs, d);
    forall i | 0 <= i < |rs| ensures us[i].path == rs[i].path { SharedOk(host, rs[i], d); }
    SamePathsSameIndex(rs, us, q);
    var k := FirstIndex(rs, q);
    if k < |rs| { SharedOk(host, rs[k], d); } else { SharedNone(d); }
  }

  lemma SharedNone(d: RouteDef)
    ensures SharedTargets([], d) == []
  {
  }

  // ---- every command ----

  /** The hosts and paths a command can change. */
  predicate InScope(d: RouteDef, host: string, path: string) {
    match d.cmd
    case Del => (Everywhere(d) || host == HostKey(d)) && InPath(PathScope(d), path)
    case _ => host == HostKey(d) && path == PathKey(d)
  }

  /** What the command makes of the targets at one host and path in its scope. */
  function Effect(d: RouteDef, ts: seq<Target>): seq<Target> {
    match d.cmd
    case Add => Weighed(Added(ts, TargetOf(d)))
    case Del => Weighed(Kept(ts, d.service, d.tags, UrlScope(d)))
    case Weight => SharedTargets(ts, d)
  }

  lemma PathKeyRooted(d: RouteDef)
    ensures PathKey(d) != "" && PathKey(d)[0] == '/'
  {
  }

  lemma BucketOk(m: Table, host: string)
    requires TableOk(m)
    ensures RoutesOk(host, Bucket(m, host))
  {
    hide RouteOk;
  }

  lemma ReplacedOk(m: Table, host: string, rs: seq<RouteView>)
    requires TableOk(m) && Lower(host) == host && rs != [] && RoutesOk(host, rs)
    ensures TableOk(m[host := rs])
  {
    hide RoutesOk, Lower;
  }

  lemma AddOk(m: Table, d: RouteDef)
    requires TableOk(m)
    ensures TableOk(ApplyAdd(m, d))
  {
    LowerTwice(SrcHost(d));
    PathKeyRooted(d);
    BucketOk(m, HostKey(d));
    hide TableOk, RoutesOk, AddIn, Lower, PathKey, TargetOf, Bucket;
    AddInOk(Bucket(m, HostKey(d)), HostKey(d), PathKey(d), TargetOf(d));
    ReplacedOk(m, HostKey(d), AddIn(Bucket(m, HostKey(d)), HostKey(d), PathKey(d), TargetOf(d)));
  }

  lemma DelOk(m: Table, d: RouteDef)
    requires TableOk(m)
    ensures TableOk(ApplyDel(m, d))
  {
    hide RouteOk, DelIn, UniquePaths;
    forall h | h in m ensures RoutesOk(h, DelIn(m[h], None, d)) && RoutesOk(h, DelIn(m[h], PathScope(d), d)) {
      DelInOk(h, m[h], None, d);
      DelInOk(h, m[h], PathScope(d), d);
    }
  }

  lemma WeightOk(m: Table, d: RouteDef)
    requires TableOk(m)
    ensures TableOk(ApplyWeight(m, d))
  {
    hide RouteOk;
    if HostKey(d) in m { WeightInOk(HostKey(d), m[HostKey(d)], d); }
  }

  lemma ApplyOk(m: Table, d: RouteDef)
    requires TableOk(m)
    ensures TableOk(Apply(m, d))
  {
    match d.cmd
    case Add => AddOk(m, d);
    case Del => DelOk(m, d);
    case Weight => WeightOk(m, d);
  }

  lemma AddEffect(m: Table, d: RouteDef, host: string, path: string)
    requires TableOk(m) && d.cmd == Add
    ensures TargetsAt(ApplyAdd(m, d), host, path) ==
              if InScope(d, host, path) then Effect(d, TargetsAt(m, host, path)) else TargetsAt(m, host, path)
  {
    hide SlotsOf, Weighed, RouteOk;
    AddInTargets(Bucket(m, HostKey(d)), HostKey(d), PathKey(d), TargetOf(d), path);
  }

  lemma BucketAfterDel(m: Table, d: RouteDef, host: string)
    ensures Bucket(ApplyDel(m, d), host) ==
              if Everywhere(d) || host == HostKey(d) then DelIn(Bucket(m, host), PathScope(d), d) else Bucket(m, host)
  {
    hide Removed;
  }

  lemma DelEffect(m: Table, d: RouteDef, host: string, path: string)
    requires TableOk(m) && d.cmd == Del
    ensures TargetsAt(ApplyDel(m, d), host, path) ==
              if InScope(d, host, path) then Effect(d, TargetsAt(m, host, path)) else TargetsAt(m, host, path)
  {
    hide SlotsOf, Weighed, RouteOk, Selected, DelIn, ApplyDel;
    BucketAfterDel(m, d, host);
    DelInTargets(host, Bucket(m, host), PathScope(d), d, path);
  }

  lemma WeightEffect(m: Table, d: RouteDef, host: string, path: string)
    requires TableOk(m) && d.cmd == Weight
    ensures TargetsAt(ApplyWeight(m, d), host, path) ==
              if InScope(d, host, path) then Effect(d, TargetsAt(m, host, path)) else TargetsAt(m, host, path)
  {
    hide SlotsOf, Weighed, RouteOk, Selected;
    if HostKey(d) in m { WeightInTargets(HostKey(d), m[HostKey(d)], d, path); }
  }

  /** A command changes the targets in its scope as `Effect` says, and no others. */
  lemma ApplyEffect(m: Table, d: RouteDef, host: string, path: string)
    requires TableOk(m)
    ensures TargetsAt(Apply(m, d), host, path) ==
              if InScope(d, host, path) then Effect(d, TargetsAt(m, host, path)) else TargetsAt(m, host, path)
  {
    match d.cmd
    case Add => AddEffect(m, d, host, path);
    case Del => DelEffect(m, d, host, path);
    case Weight => WeightEffect(m, d, host, path);
  }

  /** What a list of commands does to a single host and path, without any table. */
  function Replay(ds: seq<RouteDef>, host: string, path: string): seq<Target> {
    if ds == [] then []
    else
      var ts, d := Replay(ds[..|ds| - 1], host, path), ds[|ds| - 1];
      if InScope(d, host, path) then Effect(d, ts) else ts
  }

  /** After any commands the table is in order, and every host and path holds exactly the targets
      that replaying the commands for that host and path alone would leave. */
  lemma {:induction false} TableReplays(ds: seq<RouteDef>, host: string, path: string)
    ensures TableOk(ApplyAll(map[], ds))
    ensures TargetsAt(ApplyAll(map[], ds), host, path) == Replay(ds, host, path)
  {
    hide RouteOk;
    if ds != [] {
      var m := ApplyAll(map[], ds[..|ds| - 1]);
      TableReplays(ds[..|ds| - 1], host, path);
      ApplyOk(m, ds[|ds| - 1]);
      ApplyEffect(m, ds[|ds| - 1], host, path);
    }
  }

  lemma KeptWeighed(ts: seq<Target>, d: RouteDef, t: Target)
    requires t in Weighed(Kept(ts, d.service, d.tags, UrlScope(d)))
    ensures !Removable(d.service, d.tags, UrlScope(d), t)
  {
    var kept := Kept(ts, d.service, d.tags, UrlScope(d));
    WeighedKeeps(kept);
    hide Weighed, Kept;
    var i :| 0 <= i < |kept| && Weighed(kept)[i] == t;
    assert kept[i] in kept;
  }

  /** After a del no target in its scope matches it. */
  lemma DelLeavesNoMatch(m: Table, d: RouteDef, host: string, path: string, t: Target)
    requires TableOk(m) && d.cmd == Del && InScope(d, host, path)
    requires t in TargetsAt(Apply(m, d), host, path)
    ensures !Removable(d.service, d.tags, UrlScope(d), t)
  {
    hide TableOk, Apply, TargetsAt, Weighed, Kept, Removable, InScope;
    ApplyEffect(m, d, host, path);
    KeptWeighed(TargetsAt(m, host, path), d, t);
  }

  // ---- repeated commands ----

  lemma AddedTwice(ts: seq<Target>, t: Target)
    ensures var us := Weighed(Added(ts, t)); Weighed(Added(us, t)) == us
  {
    hide WeightOf;
    var us := Added(ts, t);
    var i :| 0 <= i < |us| && SameTarget(us[i], t);
    assert Weighed(us)[i] in Weighed(us) && SameTarget(Weighed(us)[i], t);
    WeighedTwice(us);
  }

  lemma WeighedTwice(ts: seq<Target>)
    ensures Weighed(Weighed(ts)) == Weighed(ts)
  {
  }

  lemma {:induction false} KeptAll(ts: seq<Target>, d: RouteDef)
    requires forall t :: t in ts ==> !Removable(d.service, d.tags, UrlScope(d), t)
    ensures Kept(ts, d.service, d.tags, UrlScope(d)) == ts
  {
    hide Removable;
    if ts != [] {
      assert ts == ts[..|ts| - 1] + [ts[|ts| - 1]];
      KeptAll(ts[..|ts| - 1], d);
    }
  }

  lemma DeletedTwice(ts: seq<Target>, d: RouteDef)
    ensures var us := Weighed(Kept(ts, d.service, d.tags, UrlScope(d)));
            Weighed(Kept(us, d.service, d.tags, UrlScope(d))) == us
  {
    hide WeightOf;
    var kept := Kept(ts, d.service, d.tags, UrlScope(d));
    forall t | t in Weighed(kept) ensures !Removable(d.service, d.tags, UrlScope(d), t) {
      var i :| 0 <= i < |kept| && Weighed(kept)[i] == t;
      assert kept[i] in kept;
    }
    KeptAll(Weighed(kept), d);
    WeighedTwice(kept);
  }

  /** Weights do not influence what a command selects. */
  lemma {:induction false} SameCount(ts: seq<Target>, us: seq<Target>, d: RouteDef, e: RouteDef)
    requires |us| == |ts| && e == d.(weight := e.weight)
    requires forall i :: 0 <= i < |ts| ==> us[i].service == ts[i].service && us[i].tags == ts[i].tags
    ensures SelectedCount(us, e) == SelectedCount(ts, d)
  {
    if ts != [] { SameCount(ts[..|ts| - 1], us[..|us| - 1], d, e); }
  }

  /** Of two weight commands that differ only in the weight the second alone counts. */
  lemma LastWeightWins(ts: seq<Target>, d: RouteDef, w: real)
    ensures SharedTargets(SharedTargets(ts, d), d.(weight := w)) == SharedTargets(ts, d.(weight := w))
  {
    hide WeightOf;
    var e := d.(weight := w);
    var n := SelectedCount(ts, d);
    SameCount(ts, ts, d, e);
    SameCount(ts, SharedTargets(ts, d), d, e);
    if n > 0 {
      var share := w / n as real;
      var a, b := Reweighted(SharedTargets(ts, d), e, share), Reweighted(ts, e, share);
      assert FixedWeights(a) == FixedWeights(b);
      assert Weighed(a) == Weighed(b);
    }
  }

  /** Giving a command twice in a row leaves every host and path as giving it once does. */
  lemma CommandTwice(m: Table, d: RouteDef, host: string, path: string)
    requires TableOk(m)
    ensures TargetsAt(Apply(Apply(m, d), d), host, path) == TargetsAt(Apply(m, d), host, path)
  {
    ApplyOk(m, d);
    ApplyEffect(m, d, host, path);
    ApplyEffect(Apply(m, d), d, host, path);
    hide TableOk, Apply, TargetsAt, Weighed, Added, Kept, SharedTargets, InScope;
    var ts := TargetsAt(m, host, path);
    match d.cmd
    case Add => AddedTwice(ts, TargetOf(d));
    case Del => DeletedTwice(ts, d);
    case Weight => LastWeightWins(ts, d, d.weight);
  }
}
