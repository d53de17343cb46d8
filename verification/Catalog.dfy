/** From health checks to the catalog entries that get routes (src/consul/watcher.rs, 128-234 and
    315-331). Turning the tags of an admitted entry into commands is not part of this model. */
module Catalog {
  import opened Prelude
  import opened Health

  datatype CatalogService = CatalogService(id: string, node: string)

  predicate Relevant(c: HealthCheck, tagPrefix: string) {
    || c.checkId == "serfHealth" || c.checkId == "_node_maintenance" || StartsWith(c.checkId, MAINTENANCE)
    || exists t :: t in c.serviceTags && StartsWith(t, tagPrefix)
  }

  function RelevantChecks(cs: seq<HealthCheck>, tagPrefix: string): (r: seq<HealthCheck>)
    ensures forall c :: c in r <==> c in cs && Relevant(c, tagPrefix)
  {
    if cs == [] then []
    else
      assert cs == cs[..|cs| - 1] + [cs[|cs| - 1]];
      RelevantChecks(cs[..|cs| - 1], tagPrefix) + if Relevant(cs[|cs| - 1], tagPrefix) then [cs[|cs| - 1]] else []
  }

  /** A whitelist that is not empty decides alone. */
  predicate Allowed(name: string, whitelist: seq<string>, blacklist: seq<string>) {
    if whitelist != [] then name in whitelist else name !in blacklist
  }

  method FilterServices(services: map<string, seq<string>>, whitelist: seq<string>, blacklist: seq<string>)
    returns (r: map<string, seq<string>>)
    ensures forall s :: s in r <==> s in services && if whitelist != [] then s in whitelist else s !in blacklist
    ensures forall s :: s in r ==> r[s] == services[s]
  {
    if whitelist != [] {
      r := map s | s in services && s in whitelist :: services[s];
    } else {
      r := map s | s in services && s !in blacklist :: services[s];
    }
  }

  /** A passing instance of the service has this joined name. */
  ghost predicate Named(cs: seq<HealthCheck>, includeWarning: bool, service: string, name: string) {
    exists i :: Passing(cs, i, includeWarning) && i.service == service && name == Join(i.node, i.id)
  }

  ghost predicate Live(cs: seq<HealthCheck>, includeWarning: bool, service: string) {
    exists i :: Passing(cs, i, includeWarning) && i.service == service
  }

  /** The entries among `all` whose joined name is listed. */
  method AdmittedOf(service: string, names: seq<string>, all: seq<CatalogService>)
    returns (r: seq<(string, CatalogService)>)
    ensures forall s, e :: (s, e) in r <==> s == service && e in all && Join(e.node, e.id) in names
  {
    r := [];
    for k := 0 to |all|
      invariant forall s, e :: (s, e) in r <==> s == service && e in all[..k] && Join(e.node, e.id) in names
    {
      assert all[..k + 1] == all[..k] + [all[k]];
      if Join(all[k].node, all[k].id) in names {
        r := r + [(service, all[k])];
      }
    }
    assert all[..|all|] == all;
  }

  predicate Admits(services: map<string, seq<string>>, catalog: string -> Option<seq<CatalogService>>, s: string, e: CatalogService) {
    s in services && catalog(s).Some? && e in catalog(s).value && Join(e.node, e.id) in services[s]
  }

  /** Looks every service up, in no particular order. */
  method Collect(services: map<string, seq<string>>, catalog: string -> Option<seq<CatalogService>>)
    returns (failures: seq<string>, config: seq<(string, CatalogService)>)
    ensures forall s :: s in failures <==> s in services && catalog(s).None?
    ensures forall s, e :: (s, e) in config <==> Admits(services, catalog, s, e)
  {
    hide Join;
    config, failures := [], [];
    var todo := services.Keys;
    while todo != {}
      invariant todo <= services.Keys
      invariant forall s :: s in failures <==> s in services && s !in todo && catalog(s).None?
      invariant forall s, e :: (s, e) in config <==> s !in todo && Admits(services, catalog, s, e)
      decreases todo
    {
      var s :| s in todo;
      todo := todo - {s};
      match catalog(s)
      case None => failures := failures + [s];
      case Some(all) =>
        var admitted := AdmittedOf(s, services[s], all);
        config := config + admitted;
    }
  }

  /** What processing the checks must give. `catalog` answers one look-up per service, or fails. Any
      failure keeps everything back; otherwise exactly the entries with the joined name of a passing
      instance are admitted. */
  ghost predicate Processed(
    checks: seq<HealthCheck>, tagPrefix: string, includeWarning: bool,
    whitelist: seq<string>, blacklist: seq<string>, catalog: string -> Option<seq<CatalogService>>,
    r: Option<seq<(string, CatalogService)>>)
  {
    var cs := RelevantChecks(checks, tagPrefix);
    && (r.None? <==> exists s :: Live(cs, includeWarning, s) && Allowed(s, whitelist, blacklist) && catalog(s).None?)
    && (r.Some? ==> forall s, e :: (s, e) in r.value <==>
          && Allowed(s, whitelist, blacklist) && catalog(s).Some? && e in catalog(s).value
          && Named(cs, includeWarning, s, Join(e.node, e.id)))
  }

  method ProcessChecks(
    checks: seq<HealthCheck>, tagPrefix: string, includeWarning: bool,
    whitelist: seq<string>, blacklist: seq<string>, catalog: string -> Option<seq<CatalogService>>)
    returns (r: Option<seq<(string, CatalogService)>>)
    ensures Processed(checks, tagPrefix, includeWarning, whitelist, blacklist, catalog, r)
  {
    var relevant := RelevantChecks(checks, tagPrefix);
    hide Passing, Join, Live, Named, Published, RelevantChecks;
    var passing := PassingServiceIds(relevant, includeWarning);
    PublishedMeans(relevant, includeWarning, passing);
    var services := FilterServices(passing, whitelist, blacklist);
    if |services| == 0 {
      return Some([]);
    }
    var failures, config := Collect(services, catalog);
    if failures != [] {
      assert failures[0] in failures;
      r := None;
    } else {
      r := Some(config);
    }
  }

  lemma PublishedMeans(cs: seq<HealthCheck>, includeWarning: bool, names: map<string, seq<string>>)
    requires Published(cs, includeWarning, names)
    ensures forall s :: s in names <==> Live(cs, includeWarning, s)
    ensures forall s, x :: s in names && x in names[s] <==> Named(cs, includeWarning, s, x)
  {
    hide Passing, Join;
    forall s | s in names ensures Live(cs, includeWarning, s) {
      assert names[s][0] in names[s];
    }
  }

  // ---- joined names are not always different ----

  /** One node name is the other with a dot and more after it. */
  predicate Dotted(m: string, n: string) {
    StartsWith(m, n + ".") || StartsWith(n, m + ".")
  }

  lemma SameJoin(m: string, i: string, n: string, j: string)
    requires Join(m, i) == Join(n, j)
    ensures (m == n && i == j) || Dotted(m, n)
  {
    var x := Join(m, i);
    assert x[..|m|] == m && x[..|m| + 1] == m + "." && x[|m| + 1..] == i;
    assert x[..|n|] == n && x[..|n| + 1] == n + "." && x[|n| + 1..] == j;
    if |m| > |n| {
      assert m[..|n| + 1] == x[..|n| + 1];
    } else if |m| < |n| {
      assert n[..|m| + 1] == x[..|m| + 1];
    }
  }

  /** What follows the longer node name's dot is where the shorter one's service id begins. */
  lemma DottedJoin(m: string, n: string, id: string)
    requires StartsWith(m, n + ".")
    ensures Join(m, id) == Join(n, m[|n| + 1..] + "." + id)
  {
    assert m == n + "." + m[|n| + 1..];
  }

  /** Services of two nodes, each with an id, can share a joined name exactly when one node's name
      extends the other's by a dot. */
  lemma JoinCollides(m: string, n: string)
    requires m != n
    ensures (exists i, j :: i != "" && j != "" && Join(m, i) == Join(n, j)) <==> Dotted(m, n)
  {
    if i, j :| i != "" && j != "" && Join(m, i) == Join(n, j) {
      SameJoin(m, i, n, j);
    }
    if StartsWith(m, n + ".") {
      DottedJoin(m, n, "x");
    } else if StartsWith(n, m + ".") {
      DottedJoin(n, m, "x");
    }
  }

  /** Unless some checked node's name and the entry's are so related, an entry is admitted exactly
      when its own instance passes. */
  lemma AdmittedIsPassing(cs: seq<HealthCheck>, includeWarning: bool, service: string, e: CatalogService)
    requires forall c :: c in cs ==> !Dotted(c.node, e.node)
    ensures Named(cs, includeWarning, service, Join(e.node, e.id)) <==>
              Passing(cs, Instance(e.node, service, e.id), includeWarning)
  {
    forall i | Passing(cs, i, includeWarning) && i.service == service && Join(e.node, e.id) == Join(i.node, i.id)
      ensures i == Instance(e.node, service, e.id)
    {
      var c :| c in cs && IsServiceCheck(c) && InstanceOf(c) == i;
      SameJoin(i.node, i.id, e.node, e.id);
    }
  }

  /** Processing these checks, all of the nodes m and n, admits an entry of one of them for the service
      although a relevant service check of its own instance is bad. */
  ghost predicate FailingAdmitted(
    checks: seq<HealthCheck>, tagPrefix: string, includeWarning: bool, whitelist: seq<string>, blacklist: seq<string>,
    catalog: string -> Option<seq<CatalogService>>, r: Option<seq<(string, CatalogService)>>,
    service: string, e: CatalogService, m: string, n: string)
  {
    && (forall c :: c in checks ==> c.node == m || c.node == n) && (e.node == m || e.node == n)
    && Processed(checks, tagPrefix, includeWarning, whitelist, blacklist, catalog, r)
    && r.Some? && (service, e) in r.value
    && BadCheck(RelevantChecks(checks, tagPrefix), Instance(e.node, service, e.id), includeWarning)
  }

  ghost predicate BadCheck(cs: seq<HealthCheck>, i: Instance, includeWarning: bool) {
    exists c :: c in cs && IsServiceCheck(c) && InstanceOf(c) == i && !GoodStatus(c, includeWarning)
  }

  lemma GoodAndBad(cs: seq<HealthCheck>, good: HealthCheck, bad: HealthCheck, includeWarning: bool)
    requires forall c :: c in cs <==> c == good || c == bad
    requires good.checkId == bad.checkId == "check" && good.status == "passing" && bad.status == "critical"
    requires good.serviceId != "" && bad.serviceId != "" && InstanceOf(good) != InstanceOf(bad)
    ensures Passing(cs, InstanceOf(good), includeWarning) && BadCheck(cs, InstanceOf(bad), includeWarning)
  {
    assert |"check"| == 5 && |"serfHealth"| == 10 && |"_node_maintenance"| == 17;
    assert "critical"[0] != "passing"[0] && "critical"[0] != "warning"[0];
    assert good in cs && bad in cs;
  }

  /** With tagged checks, "x" on the longer node is critical; the instance of the shorter node with the
      same joined name passes, and so the failing one is admitted. */
  lemma DottedNodeAdmitsFailing(
    m: string, n: string, tagPrefix: string, includeWarning: bool, whitelist: seq<string>, blacklist: seq<string>, service: string)
    requires StartsWith(m, n + ".") && Allowed(service, whitelist, blacklist)
    ensures exists checks, catalog, r, e ::
      FailingAdmitted(checks, tagPrefix, includeWarning, whitelist, blacklist, catalog, r, service, e, m, n)
  {
    var good := HealthCheck(n, "check", "passing", service, m[|n| + 1..] + "." + "x", [tagPrefix]);
    var bad := HealthCheck(m, "check", "critical", service, "x", [tagPrefix]);
    var checks, e := [good, bad], CatalogService("x", m);
    var cs := RelevantChecks(checks, tagPrefix);
    assert Relevant(good, tagPrefix) && Relevant(bad, tagPrefix) by {
      assert tagPrefix in good.serviceTags && tagPrefix in bad.serviceTags && StartsWith(tagPrefix, tagPrefix);
    }
    hide Relevant, RelevantChecks;
    DottedJoin(m, n, "x");
    GoodAndBad(cs, good, bad, includeWarning);
    var catalog := s => Some(if s == service then [e] else []);
    var r := Some([(service, e)]);
    hide Passing, Allowed, Join, BadCheck;
    assert Named(cs, includeWarning, service, Join(m, "x"));
    assert Processed(checks, tagPrefix, includeWarning, whitelist, blacklist, catalog, r);
    assert FailingAdmitted(checks, tagPrefix, includeWarning, whitelist, blacklist, catalog, r, service, e, m, n);
  }

  /** Without dotted names what is admitted passes, so it has no bad check. */
  lemma AdmittedHasNoBadCheck(cs: seq<HealthCheck>, includeWarning: bool, service: string, e: CatalogService)
    requires forall c :: c in cs ==> !Dotted(c.node, e.node)
    requires Named(cs, includeWarning, service, Join(e.node, e.id))
    ensures !BadCheck(cs, Instance(e.node, service, e.id), includeWarning)
  {
    AdmittedIsPassing(cs, includeWarning, service, e);
  }

  /** For every tag prefix and every service the lists allow: two nodes can lead to a failing instance
      being admitted if and only if one's name extends the other's by a dot. */
  lemma FailingAdmittedExactly(
    m: string, n: string, tagPrefix: string, includeWarning: bool, whitelist: seq<string>, blacklist: seq<string>, service: string)
    requires m != n && Allowed(service, whitelist, blacklist)
    ensures (exists checks, catalog, r, e ::
               FailingAdmitted(checks, tagPrefix, includeWarning, whitelist, blacklist, catalog, r, service, e, m, n))
            <==> Dotted(m, n)
  {
    if StartsWith(m, n + ".") {
      DottedNodeAdmitsFailing(m, n, tagPrefix, includeWarning, whitelist, blacklist, service);
    } else if StartsWith(n, m + ".") {
      DottedNodeAdmitsFailing(n, m, tagPrefix, includeWarning, whitelist, blacklist, service);
      var checks, catalog, r, e :|
        FailingAdmitted(checks, tagPrefix, includeWarning, whitelist, blacklist, catalog, r, service, e, n, m);
      assert FailingAdmitted(checks, tagPrefix, includeWarning, whitelist, blacklist, catalog, r, service, e, m, n);
    } else if checks, catalog, r, e :|
      FailingAdmitted(checks, tagPrefix, includeWarning, whitelist, blacklist, catalog, r, service, e, m, n)
    {
      hide Named, BadCheck;
      AdmittedHasNoBadCheck(RelevantChecks(checks, tagPrefix), includeWarning, service, e);
      assert false;
    }
  }

  // ---- in Consul's words ----

  /** The check counts: it is about a node or a maintenance, or its service has a tag with the prefix. */
  ghost predicate Counts(c: HealthCheck, tagPrefix: string) {
    || c.checkId == "serfHealth" || c.checkId == "_node_maintenance" || StartsWith(c.checkId, "_service_maintenance:")
    || exists t :: t in c.serviceTags && |tagPrefix| <= |t| && t[..|tagPrefix|] == tagPrefix
  }

  /** Of the checks that count, those of the instance are at least one and all good, and neither its node
      nor it itself is out. */
  ghost predicate WellReported(checks: seq<HealthCheck>, tagPrefix: string, includeWarning: bool, i: Instance) {
    && !NodeOut(checks, i.node) && !ServiceOut(checks, i.node, i.id)
    && (exists c :: c in checks && Counts(c, tagPrefix) && Own(c, i))
    && (forall c :: c in checks && Counts(c, tagPrefix) && Own(c, i) ==>
          c.status == "passing" || (includeWarning && c.status == "warning"))
  }

  lemma RelevantPassing(checks: seq<HealthCheck>, tagPrefix: string, includeWarning: bool, i: Instance)
    ensures Passing(RelevantChecks(checks, tagPrefix), i, includeWarning) <==> WellReported(checks, tagPrefix, includeWarning, i)
  {
    var cs := RelevantChecks(checks, tagPrefix);
    PassingExactly(cs, i, includeWarning);
    forall c ensures c in cs <==> c in checks && Counts(c, tagPrefix) {
      assert Relevant(c, tagPrefix) <==> Counts(c, tagPrefix);
    }
    NodesCount(checks, cs, tagPrefix, i);
    hide Passing, RelevantChecks, NodeOut, ServiceOut, Counts, Own;
  }

  lemma NodesCount(checks: seq<HealthCheck>, cs: seq<HealthCheck>, tagPrefix: string, i: Instance)
    requires forall c :: c in cs <==> c in checks && Counts(c, tagPrefix)
    ensures NodeOut(cs, i.node) <==> NodeOut(checks, i.node)
    ensures ServiceOut(cs, i.node, i.id) <==> ServiceOut(checks, i.node, i.id)
  {
    if c, k: nat :| c in checks && c.node == i.node && c.status == "critical" && k > 0 && c.checkId == Prefixes(k) + i.id
                    && !StartsWith(i.id, "_service_maintenance:") {
      UnprefixedOf(k, i.id);
      assert Counts(c, tagPrefix);
    }
  }

  /** What processing admits, said of the raw checks: an entry of a listed service that shares its joined
      name with an instance of the service that is well reported. */
  lemma ProcessedExactly(
    checks: seq<HealthCheck>, tagPrefix: string, includeWarning: bool,
    whitelist: seq<string>, blacklist: seq<string>, catalog: string -> Option<seq<CatalogService>>,
    r: Option<seq<(string, CatalogService)>>, s: string, e: CatalogService)
    requires Processed(checks, tagPrefix, includeWarning, whitelist, blacklist, catalog, r) && r.Some?
    ensures (s, e) in r.value <==>
              && (if whitelist != [] then s in whitelist else s !in blacklist)
              && catalog(s).Some? && e in catalog(s).value
              && exists i :: WellReported(checks, tagPrefix, includeWarning, i) && i.service == s && e.node + "." + e.id == i.node + "." + i.id
  {
    forall i ensures Passing(RelevantChecks(checks, tagPrefix), i, includeWarning) <==> WellReported(checks, tagPrefix, includeWarning, i) {
      RelevantPassing(checks, tagPrefix, includeWarning, i);
    }
    hide Passing, RelevantChecks, WellReported, Live;
  }
}
