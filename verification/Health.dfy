/** Which service instances Consul's checks let through (src/consul/watcher.rs, 127-331 and
    372-377). */
module Health {
  import opened Prelude

  datatype HealthCheck = HealthCheck(
    node: string,
    checkId: string,
    status: string,
    serviceName: string,
    serviceId: string,
    serviceTags: seq<string>)

  datatype Instance = Instance(node: string, service: string, id: string)

  const MAINTENANCE := "_service_maintenance:"

  // ---- what the checks say ----

  /** k maintenance prefixes. */
  function Prefixes(k: nat): string {
    if k == 0 then "" else MAINTENANCE + Prefixes(k - 1)
  }

  ghost predicate IsPrefixed(checkId: string, r: string) {
    exists k :: checkId == Prefixes(k) + r
  }

  lemma OnePrefixMore(rest: string, r: string)
    requires IsPrefixed(rest, r)
    ensures IsPrefixed(MAINTENANCE + rest, r)
  {
    var k: nat :| rest == Prefixes(k) + r;
    assert MAINTENANCE + (Prefixes(k) + r) == Prefixes(k + 1) + r;
  }

  lemma NoPrefix(checkId: string)
    ensures IsPrefixed(checkId, checkId)
  {
    assert checkId == Prefixes(0) + checkId;
  }

  /** All leading prefixes go and nothing else. */
  function Unprefixed(checkId: string): (r: string)
    ensures !StartsWith(r, MAINTENANCE) && IsPrefixed(checkId, r)
    decreases |checkId|
  {
    if StartsWith(checkId, MAINTENANCE) then
      var rest := checkId[|MAINTENANCE|..];
      assert checkId == MAINTENANCE + rest;
      var r := Unprefixed(rest);
      OnePrefixMore(rest, r);
      r
    else
      NoPrefix(checkId);
      checkId
  }

  predicate IsServiceCheck(c: HealthCheck) {
    c.serviceId != "" && c.checkId != "serfHealth" && c.checkId != "_node_maintenance"
    && !StartsWith(c.checkId, MAINTENANCE)
  }

  function InstanceOf(c: HealthCheck): Instance { Instance(c.node, c.serviceName, c.serviceId) }

  predicate DownCheck(c: HealthCheck) { c.checkId == "serfHealth" && c.status == "critical" }

  predicate NodeMaintenanceCheck(c: HealthCheck) { c.checkId == "_node_maintenance" }

  predicate ServiceMaintenanceCheck(c: HealthCheck) {
    StartsWith(c.checkId, MAINTENANCE) && c.status == "critical"
  }

  function DownNodes(cs: seq<HealthCheck>): set<string> {
    set c | c in cs && DownCheck(c) :: c.node
  }

  function MaintainedNodes(cs: seq<HealthCheck>): set<string> {
    set c | c in cs && NodeMaintenanceCheck(c) :: c.node
  }

  function MaintainedServices(cs: seq<HealthCheck>): set<(string, string)> {
    set c | c in cs && ServiceMaintenanceCheck(c) :: (c.node, Unprefixed(c.checkId))
  }

  predicate GoodStatus(c: HealthCheck, includeWarning: bool) {
    c.status == "passing" || (includeWarning && c.status == "warning")
  }

  ghost predicate ChecksOut(cs: seq<HealthCheck>, i: Instance, includeWarning: bool) {
    && (exists c :: c in cs && IsServiceCheck(c) && InstanceOf(c) == i)
    && (forall c :: c in cs && IsServiceCheck(c) && InstanceOf(c) == i ==> GoodStatus(c, includeWarning))
  }

  predicate Blocked(cs: seq<HealthCheck>, i: Instance) {
    i.node in DownNodes(cs) || i.node in MaintainedNodes(cs) || (i.node, i.id) in MaintainedServices(cs)
  }

  /** The instance may receive traffic: its node is up and neither is in maintenance, it has a
      service check and all its service checks are good. */
  ghost predicate Passing(cs: seq<HealthCheck>, i: Instance, includeWarning: bool) {
    !Blocked(cs, i) && ChecksOut(cs, i, includeWarning)
  }

  /** Only which checks there are matters, not their order or repetition. */
  lemma PassingIgnoresOrder(cs: seq<HealthCheck>, ds: seq<HealthCheck>, i: Instance, includeWarning: bool)
    requires forall c :: c in cs <==> c in ds
    ensures Passing(cs, i, includeWarning) <==> Passing(ds, i, includeWarning)
  {
    assert DownNodes(cs) == DownNodes(ds);
    assert MaintainedNodes(cs) == MaintainedNodes(ds);
    assert MaintainedServices(cs) == MaintainedServices(ds);
  }

  // ---- the grouping loop ----

  /** The service checks of one instance. */
  function ChecksOf(cs: seq<HealthCheck>, i: Instance): (r: seq<HealthCheck>)
    ensures forall c :: c in r <==> c in cs && IsServiceCheck(c) && InstanceOf(c) == i
  {
    if cs == [] then []
    else
      assert cs == cs[..|cs| - 1] + [cs[|cs| - 1]];
      var c := cs[|cs| - 1];
      ChecksOf(cs[..|cs| - 1], i) + if IsServiceCheck(c) && InstanceOf(c) == i then [c] else []
  }

  datatype Groups = Groups(
    services: map<Instance, seq<HealthCheck>>,
    nodeDown: map<string, bool>,
    nodeMaintenance: map<string, bool>,
    serviceMaintenance: map<(string, string), bool>)

  ghost predicate Grouped(cs: seq<HealthCheck>, g: Groups) {
    && g.nodeDown.Keys == DownNodes(cs)
    && g.nodeMaintenance.Keys == MaintainedNodes(cs)
    && g.serviceMaintenance.Keys == MaintainedServices(cs)
    && (forall i :: i in g.services <==> ChecksOf(cs, i) != [])
    && (forall i :: i in g.services ==> g.services[i] == ChecksOf(cs, i))
  }

  /** Where one check goes. */
  function Filed(g: Groups, c: HealthCheck): Groups {
    if DownCheck(c) then g.(nodeDown := g.nodeDown[c.node := true])
    else if NodeMaintenanceCheck(c) then g.(nodeMaintenance := g.nodeMaintenance[c.node := true])
    else if ServiceMaintenanceCheck(c) then
      g.(serviceMaintenance := g.serviceMaintenance[(c.node, Unprefixed(c.checkId)) := true])
    else if IsServiceCheck(c) then
      var i := InstanceOf(c);
      g.(services := g.services[i := (if i in g.services then g.services[i] else []) + [c]])
    else g
  }

  lemma Kinds(c: HealthCheck)
    ensures !(DownCheck(c) && NodeMaintenanceCheck(c))
    ensures ServiceMaintenanceCheck(c) ==> !DownCheck(c) && !NodeMaintenanceCheck(c)
    ensures IsServiceCheck(c) ==> !DownCheck(c) && !NodeMaintenanceCheck(c) && !ServiceMaintenanceCheck(c)
  {
  }

  lemma FiledKeepsServices(cs: seq<HealthCheck>, g: Groups, c: HealthCheck)
    requires Grouped(cs, g)
    ensures var h := Filed(g, c);
            && (forall i :: i in h.services <==> ChecksOf(cs + [c], i) != [])
            && (forall i :: i in h.services ==> h.services[i] == ChecksOf(cs + [c], i))
  {
    Kinds(c);
    hide DownCheck, NodeMaintenanceCheck, ServiceMaintenanceCheck, IsServiceCheck, DownNodes, MaintainedNodes, MaintainedServices;
    assert (cs + [c])[..|cs|] == cs;
    forall i ensures ChecksOf(cs + [c], i) ==
                       ChecksOf(cs, i) + if IsServiceCheck(c) && InstanceOf(c) == i then [c] else []
    {
    }
  }

  lemma SetsGrow(cs: seq<HealthCheck>, c: HealthCheck)
    ensures DownNodes(cs + [c]) == DownNodes(cs) + if DownCheck(c) then {c.node} else {}
    ensures MaintainedNodes(cs + [c]) == MaintainedNodes(cs) + if NodeMaintenanceCheck(c) then {c.node} else {}
    ensures MaintainedServices(cs + [c]) ==
              MaintainedServices(cs) + if ServiceMaintenanceCheck(c) then {(c.node, Unprefixed(c.checkId))} else {}
  {
    hide DownCheck, NodeMaintenanceCheck, ServiceMaintenanceCheck, Unprefixed;
    assert forall d :: d in cs + [c] <==> d in cs || d == c;
  }

  lemma FiledKeepsSets(cs: seq<HealthCheck>, g: Groups, c: HealthCheck)
    requires Grouped(cs, g)
    ensures var h := Filed(g, c);
            && h.nodeDown.Keys == DownNodes(cs + [c])
            && h.nodeMaintenance.Keys == MaintainedNodes(cs + [c])
            && h.serviceMaintenance.Keys == MaintainedServices(cs + [c])
  {
    Kinds(c);
    SetsGrow(cs, c);
    hide DownCheck, NodeMaintenanceCheck, ServiceMaintenanceCheck, IsServiceCheck, DownNodes, MaintainedNodes,
         MaintainedServices, ChecksOf, Unprefixed;
  }

  lemma FiledKeepsGrouping(cs: seq<HealthCheck>, g: Groups, c: HealthCheck)
    requires Grouped(cs, g)
    ensures Grouped(cs + [c], Filed(g, c))
  {
    FiledKeepsSets(cs, g, c);
    FiledKeepsServices(cs, g, c);
    hide Filed, DownNodes, MaintainedNodes, MaintainedServices, ChecksOf;
  }

  method GroupChecks(checks: seq<HealthCheck>) returns (g: Groups)
    ensures Grouped(checks, g)
  {
    var services: map<Instance, seq<HealthCheck>> := map[];
    var nodeDown: map<string, bool> := map[];
    var nodeMaintenance: map<string, bool> := map[];
    var serviceMaintenance: map<(string, string), bool> := map[];
    for k := 0 to |checks|
      invariant Grouped(checks[..k], Groups(services, nodeDown, nodeMaintenance, serviceMaintenance))
    {
      var c := checks[k];
      FiledKeepsGrouping(checks[..k], Groups(services, nodeDown, nodeMaintenance, serviceMaintenance), c);
      assert checks[..k + 1] == checks[..k] + [c];
      hide Grouped;
      if c.checkId == "serfHealth" && c.status == "critical" {
        nodeDown := nodeDown[c.node := true];
      } else if c.checkId == "_node_maintenance" {
        nodeMaintenance := nodeMaintenance[c.node := true];
      } else if StartsWith(c.checkId, MAINTENANCE) && c.status == "critical" {
        serviceMaintenance := serviceMaintenance[(c.node, Unprefixed(c.checkId)) := true];
      } else if IsServiceCheck(c) {
        var i := InstanceOf(c);
        services := services[i := (if i in services then services[i] else []) + [c]];
      }
    }
    assert checks[..|checks|] == checks;
    g := Groups(services, nodeDown, nodeMaintenance, serviceMaintenance);
  }

  method CountStatus(cs: seq<HealthCheck>, status: string) returns (n: nat)
    ensures n == StatusCount(cs, status)
  {
    n := 0;
    for k := 0 to |cs|
      invariant n == StatusCount(cs[..k], status)
    {
      assert cs[..k + 1][..k] == cs[..k];
      if cs[k].status == status { n := n + 1; }
    }
    assert cs[..|cs|] == cs;
  }

  function StatusCount(cs: seq<HealthCheck>, status: string): nat {
    if cs == [] then 0
    else StatusCount(cs[..|cs| - 1], status) + if cs[|cs| - 1].status == status then 1 else 0
  }

  function HealthyCount(cs: seq<HealthCheck>, includeWarning: bool): nat {
    StatusCount(cs, "passing") + if includeWarning then StatusCount(cs, "warning") else 0
  }

  /** Counting tells whether all checks are good. */
  lemma {:induction false} CountsDecide(cs: seq<HealthCheck>, includeWarning: bool)
    ensures HealthyCount(cs, includeWarning) <= |cs|
    ensures HealthyCount(cs, includeWarning) == |cs| <==> forall c :: c in cs ==> GoodStatus(c, includeWarning)
  {
    if cs != [] {
      var front, last := cs[..|cs| - 1], cs[|cs| - 1];
      assert cs == front + [last];
      CountsDecide(front, includeWarning);
      assert "passing"[0] != "warning"[0];
      assert HealthyCount(cs, includeWarning) ==
             HealthyCount(front, includeWarning) + if GoodStatus(last, includeWarning) then 1 else 0;
      assert last in cs;
    }
  }

  method AllGood(svcChecks: seq<HealthCheck>, includeWarning: bool) returns (ok: bool)
    ensures ok <==> svcChecks != [] && forall c :: c in svcChecks ==> GoodStatus(c, includeWarning)
  {
    var total := |svcChecks|;
    var passing := CountStatus(svcChecks, "passing");
    var warning := CountStatus(svcChecks, "warning");
    var healthy := if includeWarning then passing + warning else passing;
    CountsDecide(svcChecks, includeWarning);
    ok := !(healthy == 0 || total != healthy);
  }

  // ---- the result by service name ----

  function Join(node: string, id: string): string { node + "." + id }

  /** `names` lists, by service, the joined names of exactly the instances in `seen` that pass. */
  ghost predicate Lists(cs: seq<HealthCheck>, includeWarning: bool, seen: set<Instance>, names: map<string, seq<string>>) {
    && (forall i :: i in seen && Passing(cs, i, includeWarning) ==>
          i.service in names && Join(i.node, i.id) in names[i.service])
    && (forall s, x :: s in names && x in names[s] ==>
          exists i :: i in seen && Passing(cs, i, includeWarning) && i.service == s && x == Join(i.node, i.id))
    && (forall s :: s in names ==> names[s] != [])
  }

  ghost predicate Published(cs: seq<HealthCheck>, includeWarning: bool, names: map<string, seq<string>>) {
    && (forall i :: Passing(cs, i, includeWarning) ==> i.service in names && Join(i.node, i.id) in names[i.service])
    && (forall s, x :: s in names && x in names[s] ==>
          exists i :: Passing(cs, i, includeWarning) && i.service == s && x == Join(i.node, i.id))
    && (forall s :: s in names ==> names[s] != [])
  }

  /** Adds the name of an instance to those of its service. */
  function Noted(names: map<string, seq<string>>, i: Instance): map<string, seq<string>> {
    names[i.service := (if i.service in names then names[i.service] else []) + [Join(i.node, i.id)]]
  }

  /** The names of exactly the passing instances, under their services; a service without one is
      absent. */
  method PassingServiceIds(checks: seq<HealthCheck>, includeWarning: bool) returns (result: map<string, seq<string>>)
    ensures Published(checks, includeWarning, result)
  {
    var g := GroupChecks(checks);
    result := map[];
    var todo := g.services.Keys;
    assert g.services.Keys - todo == {};
    while todo != {}
      invariant todo <= g.services.Keys
      invariant Lists(checks, includeWarning, g.services.Keys - todo, result)
      decreases todo
    {
      hide Passing, Lists, Grouped, Noted;
      var i :| i in todo;
      var ok := AllGood(g.services[i], includeWarning);
      GroupDecides(checks, g, i, includeWarning, ok);
      ListsStep(checks, includeWarning, g.services.Keys - todo, i, result);
      assert g.services.Keys - (todo - {i}) == (g.services.Keys - todo) + {i};
      todo := todo - {i};
      if i.node in g.nodeDown || i.node in g.nodeMaintenance || (i.node, i.id) in g.serviceMaintenance || !ok {
        continue;
      }
      result := Noted(result, i);
    }
    hide Passing;
    forall i | Passing(checks, i, includeWarning) ensures i in g.services.Keys - todo {
      GroupHasPassing(checks, g, i, includeWarning);
    }
  }

  lemma GroupDecides(cs: seq<HealthCheck>, g: Groups, i: Instance, includeWarning: bool, ok: bool)
    requires Grouped(cs, g) && i in g.services
    requires ok <==> g.services[i] != [] && forall c :: c in g.services[i] ==> GoodStatus(c, includeWarning)
    ensures Passing(cs, i, includeWarning) <==>
              i.node !in g.nodeDown && i.node !in g.nodeMaintenance && (i.node, i.id) !in g.serviceMaintenance && ok
  {
    hide DownNodes, MaintainedNodes, MaintainedServices, IsServiceCheck, GoodStatus, InstanceOf;
    var own := g.services[i];
    assert ChecksOut(cs, i, includeWarning) <==> ok by {
      if own != [] { assert own[0] in own; }
    }
  }

  lemma GroupHasPassing(cs: seq<HealthCheck>, g: Groups, i: Instance, includeWarning: bool)
    requires Grouped(cs, g) && Passing(cs, i, includeWarning)
    ensures i in g.services
  {
    hide DownNodes, MaintainedNodes, MaintainedServices, IsServiceCheck, GoodStatus, InstanceOf, Blocked;
    var c :| c in cs && IsServiceCheck(c) && InstanceOf(c) == i;
    assert c in ChecksOf(cs, i);
  }

  lemma ListsStep(cs: seq<HealthCheck>, includeWarning: bool, seen: set<Instance>, i: Instance, names: map<string, seq<string>>)
    requires Lists(cs, includeWarning, seen, names)
    ensures Lists(cs, includeWarning, seen + {i}, if Passing(cs, i, includeWarning) then Noted(names, i) else names)
  {
    hide Passing, Join;
  }

  /** The listing says the same of every service whatever the order and repetition of the checks, and
      whatever the order in which the groups are visited. */
  lemma ListingIgnoresOrder(
    cs: seq<HealthCheck>, ds: seq<HealthCheck>, includeWarning: bool,
    a: map<string, seq<string>>, b: map<string, seq<string>>)
    requires forall c :: c in cs <==> c in ds
    requires Published(cs, includeWarning, a) && Published(ds, includeWarning, b)
    ensures a.Keys == b.Keys && forall s, x :: s in a ==> (x in a[s] <==> x in b[s])
  {
    forall i ensures Passing(cs, i, includeWarning) <==> Passing(ds, i, includeWarning) {
      PassingIgnoresOrder(cs, ds, i, includeWarning);
    }
    hide Passing, Join;
    ListingContained(cs, ds, includeWarning, a, b);
    ListingContained(ds, cs, includeWarning, b, a);
  }

  lemma ListingContained(
    cs: seq<HealthCheck>, ds: seq<HealthCheck>, includeWarning: bool,
    a: map<string, seq<string>>, b: map<string, seq<string>>)
    requires forall i :: Passing(cs, i, includeWarning) ==> Passing(ds, i, includeWarning)
    requires Published(cs, includeWarning, a) && Published(ds, includeWarning, b)
    ensures forall s :: s in a ==> s in b && forall x :: x in a[s] ==> x in b[s]
  {
    hide Passing, Join;
    forall s | s in a ensures s in b && forall x :: x in a[s] ==> x in b[s] {
      assert a[s][0] in a[s];
    }
  }

  // ---- in Consul's words ----

  /** The node of the instance is reported dead, or it has any maintenance check. */
  ghost predicate NodeOut(cs: seq<HealthCheck>, node: string) {
    exists c :: c in cs && c.node == node && ((c.checkId == "serfHealth" && c.status == "critical") || c.checkId == "_node_maintenance")
  }

  /** A critical check has the maintenance prefix, any number of times, before the service's id. */
  ghost predicate ServiceOut(cs: seq<HealthCheck>, node: string, id: string) {
    exists c, k :: c in cs && c.node == node && c.status == "critical" && k > 0 && c.checkId == Prefixes(k) + id
                   && !StartsWith(id, "_service_maintenance:")
  }

  /** A check of the instance itself: none of the node's, and no maintenance. */
  predicate Own(c: HealthCheck, i: Instance) {
    && c.node == i.node && c.serviceName == i.service && c.serviceId == i.id && c.serviceId != ""
    && c.checkId != "serfHealth" && c.checkId != "_node_maintenance" && !StartsWith(c.checkId, "_service_maintenance:")
  }

  lemma BlockedExactly(cs: seq<HealthCheck>, i: Instance)
    ensures Blocked(cs, i) <==> NodeOut(cs, i.node) || ServiceOut(cs, i.node, i.id)
  {
    MaintainedExactly(cs, i);
    hide MaintainedServices, ServiceOut;
    if c :| c in cs && c.node == i.node && DownCheck(c) { assert i.node in DownNodes(cs); }
    if c :| c in cs && c.node == i.node && NodeMaintenanceCheck(c) { assert i.node in MaintainedNodes(cs); }
  }

  lemma MaintainedExactly(cs: seq<HealthCheck>, i: Instance)
    ensures (i.node, i.id) in MaintainedServices(cs) <==> ServiceOut(cs, i.node, i.id)
  {
    if c :| c in cs && ServiceMaintenanceCheck(c) && c.node == i.node && Unprefixed(c.checkId) == i.id {
      var k: nat :| c.checkId == Prefixes(k) + i.id;
      assert k == 0 ==> c.checkId == i.id;
    }
    if c, k: nat :| c in cs && c.node == i.node && c.status == "critical" && k > 0 && c.checkId == Prefixes(k) + i.id
                    && !StartsWith(i.id, "_service_maintenance:") {
      UnprefixedOf(k, i.id);
      assert StartsWith(c.checkId, MAINTENANCE);
      assert ServiceMaintenanceCheck(c) && c in cs;
    }
  }

  /** Stripping undoes any number of prefixes. */
  lemma {:induction false} UnprefixedOf(k: nat, id: string)
    requires !StartsWith(id, MAINTENANCE)
    ensures Unprefixed(Prefixes(k) + id) == id
    ensures k > 0 ==> StartsWith(Prefixes(k) + id, MAINTENANCE)
  {
    if k > 0 {
      UnprefixedOf(k - 1, id);
      assert (Prefixes(k) + id)[|MAINTENANCE|..] == Prefixes(k - 1) + id;
    } else {
      assert Prefixes(0) + id == id;
    }
  }

  /** An instance passes if and only if its node and it itself are not out, it has a check of its own,
      and all of those are passing, or warning where that is accepted. */
  lemma PassingExactly(cs: seq<HealthCheck>, i: Instance, includeWarning: bool)
    ensures Passing(cs, i, includeWarning) <==>
              && !NodeOut(cs, i.node) && !ServiceOut(cs, i.node, i.id)
              && (exists c :: c in cs && Own(c, i))
              && (forall c :: c in cs && Own(c, i) ==> c.status == "passing" || (includeWarning && c.status == "warning"))
  {
    BlockedExactly(cs, i);
    forall c ensures IsServiceCheck(c) && InstanceOf(c) == i <==> Own(c, i) { OwnExactly(c, i); }
    hide Blocked, NodeOut, ServiceOut, Own, IsServiceCheck, InstanceOf;
  }

  lemma OwnExactly(c: HealthCheck, i: Instance)
    ensures IsServiceCheck(c) && InstanceOf(c) == i <==> Own(c, i)
  {
  }
}
