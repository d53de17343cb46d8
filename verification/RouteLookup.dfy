/** Ordering the routes of a host and finding the one for a request (src/route/table.rs, 336-453,
    636-665 and 919-923). */
module RouteLookup {
  import opened Prelude
  import opened Routes
  import opened RouteTables

  // ---- the order of finalize: longer paths first, then the greater path ----

  predicate Less(a: string, b: string) {
    b != [] && (a == [] || a[0] < b[0] || (a[0] == b[0] && Less(a[1..], b[1..])))
  }

  predicate PathPrecedes(p: string, q: string) {
    |p| > |q| || (|p| == |q| && Less(q, p))
  }

  predicate Precedes(a: RouteView, b: RouteView) { PathPrecedes(a.path, b.path) }

  /** Inserts after everything that is not preceded by v, so equal routes keep their order. */
  function Inserted(rs: seq<RouteView>, v: RouteView): (us: seq<RouteView>)
    ensures multiset(us) == multiset(rs) + multiset{v}
  {
    if rs == [] then [v]
    else
      var front, last := rs[..|rs| - 1], rs[|rs| - 1];
      assert rs == front + [last];
      if Precedes(v, last) then Inserted(front, v) + [last] else rs + [v]
  }

  /** The stable sort of the standard library. */
  function Sorted(rs: seq<RouteView>): (us: seq<RouteView>)
    ensures multiset(us) == multiset(rs)
  {
    if rs == [] then []
    else
      assert rs == rs[..|rs| - 1] + [rs[|rs| - 1]];
      Inserted(Sorted(rs[..|rs| - 1]), rs[|rs| - 1])
  }

  function Finalized(m: Table): Table {
    map h | h in m :: Sorted(m[h])
  }

  function BuildTable(ds: seq<RouteDef>): Table {
    Finalized(ApplyAll(map[], ds))
  }

  // ---- matching ----

  datatype Matcher = Prefix | IgnoreCasePrefix | Glob | Exact

  /** `glob(pattern, path)` stands for the compiled pattern of a route. */
  predicate Matches(matcher: Matcher, glob: (string, string) -> bool, pattern: string, path: string) {
    match matcher
    case Prefix => StartsWith(path, pattern) || pattern == "/"
    case IgnoreCasePrefix => StartsWith(Lower(path), Lower(pattern)) || pattern == "/"
    case Glob => pattern == "/" || glob(pattern, path)
    case Exact => path == pattern
  }

  predicate Answers(matcher: Matcher, glob: (string, string) -> bool, v: RouteView, path: string) {
    Matches(matcher, glob, v.path, path) && v.targets != []
  }

  function FirstMatch(rs: seq<RouteView>, path: string, matcher: Matcher, glob: (string, string) -> bool): Option<RouteView> {
    if rs == [] then None
    else
      var f := FirstMatch(rs[..|rs| - 1], path, matcher, glob);
      if f.Some? then f
      else if Answers(matcher, glob, rs[|rs| - 1], path) then Some(rs[|rs| - 1]) else None
  }

  function AllMatches(rs: seq<RouteView>, path: string, matcher: Matcher, glob: (string, string) -> bool): seq<RouteView> {
    if rs == [] then []
    else AllMatches(rs[..|rs| - 1], path, matcher, glob)
         + if Answers(matcher, glob, rs[|rs| - 1], path) then [rs[|rs| - 1]] else []
  }

  function Lookup(m: Table, host: string, path: string, matcher: Matcher, glob: (string, string) -> bool): Option<RouteView> {
    var f := FirstMatch(Bucket(m, Lower(host)), path, matcher, glob);
    if f.Some? then f else FirstMatch(Bucket(m, ""), path, matcher, glob)
  }

  function Matching(m: Table, host: string, path: string, matcher: Matcher, glob: (string, string) -> bool): seq<RouteView> {
    AllMatches(Bucket(m, Lower(host)), path, matcher, glob)
    + if Lower(host) == "" then [] else AllMatches(Bucket(m, ""), path, matcher, glob)
  }

  function Head(vs: seq<RouteView>): Option<RouteView> {
    if vs == [] then None else Some(vs[0])
  }

  lemma {:induction false} FirstOfAll(rs: seq<RouteView>, path: string, matcher: Matcher, glob: (string, string) -> bool)
    ensures FirstMatch(rs, path, matcher, glob) == Head(AllMatches(rs, path, matcher, glob))
  {
    hide Answers;
    if rs != [] { FirstOfAll(rs[..|rs| - 1], path, matcher, glob); }
  }

  /** The single look-up is the head of the full list, whatever the matcher. */
  lemma LookupIsHeadOfMatching(m: Table, host: string, path: string, matcher: Matcher, glob: (string, string) -> bool)
    ensures Lookup(m, host, path, matcher, glob) == Head(Matching(m, host, path, matcher, glob))
  {
    FirstOfAll(Bucket(m, Lower(host)), path, matcher, glob);
    FirstOfAll(Bucket(m, ""), path, matcher, glob);
  }

  // ---- longest prefix ----

  lemma {:induction false} LessTotal(a: string, b: string)
    ensures a == b || Less(a, b) || Less(b, a)
    ensures !(Less(a, b) && Less(b, a)) && !Less(a, a)
  {
    if a != [] && b != [] {
      LessTotal(a[1..], b[1..]);
      assert a[0] == b[0] && a[1..] == b[1..] ==> a == b by {
        assert a == [a[0]] + a[1..] && b == [b[0]] + b[1..];
      }
    }
    if a != [] { LessTotal(a[1..], a[1..]); }
  }

  /** Less is a weak order: whatever lies between two strings is above the lower or below the upper. */
  lemma {:induction false} LessBetween(a: string, b: string, c: string)
    requires Less(a, c)
    ensures Less(a, b) || Less(b, c)
  {
    if a != [] && b != [] && a[0] == c[0] { LessBetween(a[1..], b[1..], c[1..]); }
  }

  /** Nothing stands before a route that precedes it. */
  ghost predicate Ordered(rs: seq<RouteView>) {
    forall i, j :: 0 <= i < j < |rs| ==> !Precedes(rs[j], rs[i])
  }

  lemma PrecedesFacts(a: RouteView, b: RouteView, c: RouteView)
    ensures !(Precedes(a, b) && Precedes(b, a))
    ensures Precedes(a, c) ==> Precedes(a, b) || Precedes(b, c)
  {
    LessTotal(a.path, b.path);
    if Less(c.path, a.path) { LessBetween(c.path, b.path, a.path); }
  }

  lemma {:induction false} InsertedOrdered(rs: seq<RouteView>, v: RouteView)
    requires Ordered(rs)
    ensures Ordered(Inserted(rs, v))
  {
    hide Precedes;
    if rs != [] {
      var front, last := rs[..|rs| - 1], rs[|rs| - 1];
      InsertedOrdered(front, v);
      InsertedMembers(front, v);
      PrecedesFacts(v, last, v);
      forall x ensures Precedes(v, x) ==> Precedes(v, last) || Precedes(last, x) {
        PrecedesFacts(v, last, x);
      }
    }
  }

  lemma InsertedMembers(rs: seq<RouteView>, v: RouteView)
    ensures |Inserted(rs, v)| == |rs| + 1
    ensures forall i :: 0 <= i < |Inserted(rs, v)| ==> Inserted(rs, v)[i] == v || Inserted(rs, v)[i] in rs
  {
    var us := Inserted(rs, v);
    assert |multiset(us)| == |rs| + 1;
    forall i | 0 <= i < |us| ensures us[i] == v || us[i] in rs {
      assert us[i] in multiset(us);
    }
  }

  /** The sort orders every bucket. */
  lemma {:induction false} SortedOrdered(rs: seq<RouteView>)
    ensures Ordered(Sorted(rs))
  {
    hide Precedes;
    if rs != [] {
      SortedOrdered(rs[..|rs| - 1]);
      InsertedOrdered(Sorted(rs[..|rs| - 1]), rs[|rs| - 1]);
    }
  }

  lemma PathsOrder(a: RouteView, b: RouteView)
    requires a.path != b.path
    ensures Precedes(a, b) || Precedes(b, a)
  {
    LessTotal(a.path, b.path);
  }

  lemma SameLast(us: seq<RouteView>, vs: seq<RouteView>)
    requires us != [] && Ordered(us) && Ordered(vs) && UniquePaths(us) && multiset(us) == multiset(vs)
    ensures |us| == |vs| && us[|us| - 1] == vs[|vs| - 1]
  {
    hide Precedes;
    assert |multiset(us)| == |us| && |multiset(vs)| == |vs|;
    var n := |us| - 1;
    assert us[n] in multiset(vs) && vs[n] in multiset(us);
    var i :| 0 <= i <= n && us[i] == vs[n];
    var j :| 0 <= j <= n && vs[j] == us[n];
    if us[n] != us[i] { PathsOrder(us[n], us[i]); }
  }

  /** Any correct sort of routes with distinct paths gives the same list. */
  lemma {:induction false} SortUnique(us: seq<RouteView>, vs: seq<RouteView>)
    requires Ordered(us) && Ordered(vs) && UniquePaths(us) && multiset(us) == multiset(vs)
    ensures us == vs
  {
    hide Ordered, UniquePaths;
    if us != [] {
      SameLast(us, vs);
      var n := |us| - 1;
      WithoutLast(us);
      WithoutLast(vs);
      SortUnique(us[..n], vs[..n]);
    } else {
      assert |multiset(vs)| == |vs|;
    }
  }

  lemma WithoutLast(us: seq<RouteView>)
    requires us != []
    ensures us == us[..|us| - 1] + [us[|us| - 1]]
    ensures multiset(us[..|us| - 1]) == multiset(us) - multiset{us[|us| - 1]}
    ensures Ordered(us) ==> Ordered(us[..|us| - 1])
    ensures UniquePaths(us) ==> UniquePaths(us[..|us| - 1])
  {
    hide Precedes;
    assert us == us[..|us| - 1] + [us[|us| - 1]];
  }

  lemma SameMembers(rs: seq<RouteView>)
    ensures forall v :: v in Sorted(rs) <==> v in rs
  {
    assert forall v :: v in Sorted(rs) <==> v in multiset(Sorted(rs));
    assert forall v :: v in rs <==> v in multiset(rs);
  }

  /** Route v is the best answer of a bucket: it covers the path, and every other route that covers
      it has a shorter path. */
  ghost predicate Longest(rs: seq<RouteView>, path: string, v: RouteView) {
    && v in rs && Covers(v.path, path)
    && forall u :: u in rs && Covers(u.path, path) ==> u == v || |u.path| < |v.path|
  }

  predicate Covers(prefix: string, path: string) {
    StartsWith(path, prefix) || prefix == "/"
  }

  ghost predicate NoCover(rs: seq<RouteView>, path: string) {
    forall u :: u in rs ==> !Covers(u.path, path)
  }

  lemma {:induction false} FirstIsEarliest(rs: seq<RouteView>, path: string, matcher: Matcher, glob: (string, string) -> bool) returns (k: nat)
    ensures k <= |rs|
    ensures forall j :: 0 <= j < k ==> !Answers(matcher, glob, rs[j], path)
    ensures FirstMatch(rs, path, matcher, glob) == if k < |rs| then Some(rs[k]) else None
    ensures k < |rs| ==> Answers(matcher, glob, rs[k], path)
  {
    hide Answers;
    if rs == [] {
      k := 0;
    } else {
      k := FirstIsEarliest(rs[..|rs| - 1], path, matcher, glob);
      if k == |rs| - 1 && !Answers(matcher, glob, rs[k], path) { k := k + 1; }
    }
  }

  /** Two routes that cover one path and have paths of one length have one path. */
  lemma SameLengthSamePath(p: string, q: string, path: string)
    requires Covers(p, path) && Covers(q, path) && |p| == |q|
    requires p != "" && p[0] == '/' && q != "" && q[0] == '/'
    ensures p == q
  {
  }

  /** In a sorted bucket the first match is the longest. */
  lemma BucketLongest(host: string, rs: seq<RouteView>, path: string, glob: (string, string) -> bool)
    requires RoutesOk(host, rs)
    ensures match FirstMatch(Sorted(rs), path, Prefix, glob)
            case Some(v) => Longest(rs, path, v)
            case None => NoCover(rs, path)
  {
    hide Refreshed;
    var us := Sorted(rs);
    SortedOrdered(rs);
    SameMembers(rs);
    var k := FirstIsEarliest(us, path, Prefix, glob);
    forall u | u in rs && Covers(u.path, path)
      ensures k < |us| && (u == us[k] || |u.path| < |us[k].path|)
    {
      var j :| 0 <= j < |us| && us[j] == u;
      assert Answers(Prefix, glob, us[j], path);
      if j != k && |u.path| == |us[k].path| {
        assert us[k] in rs;
        SameLengthSamePath(u.path, us[k].path, path);
        SamePathSameRoute(rs, u, us[k]);
      }
    }
  }

  lemma SamePathSameRoute(rs: seq<RouteView>, u: RouteView, v: RouteView)
    requires UniquePaths(rs) && u in rs && v in rs && u.path == v.path
    ensures u == v
  {
    var i :| 0 <= i < |rs| && rs[i] == u;
    var j :| 0 <= j < |rs| && rs[j] == v;
  }

  /** Longest prefix wins: for a table built from any commands, prefix look-up returns the unique
      longest covering route of the request's host, else of the catch-all host, else nothing. */
  lemma LongestPrefixWins(ds: seq<RouteDef>, host: string, path: string, glob: (string, string) -> bool)
    ensures var m := ApplyAll(map[], ds);
            match Lookup(BuildTable(ds), host, path, Prefix, glob)
            case Some(v) =>
              || Longest(Bucket(m, Lower(host)), path, v)
              || (NoCover(Bucket(m, Lower(host)), path) && Longest(Bucket(m, ""), path, v))
            case None => NoCover(Bucket(m, Lower(host)), path) && NoCover(Bucket(m, ""), path)
  {
    hide ApplyAll, FirstMatch, Longest, BuildTable, Bucket, NoCover;
    var m := ApplyAll(map[], ds);
    BuiltBucket(ds, Lower(host));
    BuiltBucket(ds, "");
    BucketLongest(Lower(host), Bucket(m, Lower(host)), path, glob);
    BucketLongest("", Bucket(m, ""), path, glob);
  }

  lemma BuiltBucket(ds: seq<RouteDef>, host: string)
    ensures Bucket(BuildTable(ds), host) == Sorted(Bucket(ApplyAll(map[], ds), host))
    ensures RoutesOk(host, Bucket(ApplyAll(map[], ds), host))
  {
    hide RouteOk, ApplyAll;
    TableReplays(ds, host, "");
  }

  // ---- the best answer, for every matcher ----

  /** Route v answers, and it precedes every other route that does: among the answers it has a longest
      path, and the greatest of those. */
  ghost predicate BestAnswer(rs: seq<RouteView>, path: string, matcher: Matcher, glob: (string, string) -> bool, v: RouteView) {
    && v in rs && Answers(matcher, glob, v, path)
    && forall u :: u in rs && Answers(matcher, glob, u, path) ==> u == v || Precedes(v, u)
  }

  ghost predicate NoAnswer(rs: seq<RouteView>, path: string, matcher: Matcher, glob: (string, string) -> bool) {
    forall u :: u in rs ==> !Answers(matcher, glob, u, path)
  }

  /** What stands later in an ordered list of routes with distinct paths is preceded. */
  lemma LaterIsPreceded(rs: seq<RouteView>, us: seq<RouteView>, k: nat, j: nat)
    requires UniquePaths(rs) && Ordered(us) && k <= j < |us| && us[k] in rs && us[j] in rs
    ensures us[j] == us[k] || Precedes(us[k], us[j])
  {
    hide Precedes, UniquePaths;
    if us[j] != us[k] {
      SamePathDifferent(rs, us[j], us[k]);
      PathsOrder(us[k], us[j]);
    }
  }

  /** In a sorted bucket the first match is the best. */
  lemma BucketBest(host: string, rs: seq<RouteView>, path: string, matcher: Matcher, glob: (string, string) -> bool)
    requires RoutesOk(host, rs)
    ensures match FirstMatch(Sorted(rs), path, matcher, glob)
            case Some(v) => BestAnswer(rs, path, matcher, glob, v)
            case None => NoAnswer(rs, path, matcher, glob)
  {
    var us := Sorted(rs);
    SortedOrdered(rs);
    SameMembers(rs);
    var k := FirstIsEarliest(us, path, matcher, glob);
    hide Precedes, Answers, RouteOk, UniquePaths, Ordered, Sorted, FirstMatch;
    forall u | u in rs && Answers(matcher, glob, u, path)
      ensures k < |us| && (u == us[k] || Precedes(us[k], u))
    {
      var j :| 0 <= j < |us| && us[j] == u;
      LaterIsPreceded(rs, us, k, j);
    }
  }

  lemma SamePathDifferent(rs: seq<RouteView>, u: RouteView, v: RouteView)
    requires UniquePaths(rs) && u in rs && v in rs && u != v
    ensures u.path != v.path
  {
    if u.path == v.path { SamePathSameRoute(rs, u, v); }
  }

  /** For a table built from any commands and for every matcher, look-up returns the best answer of
      the request's host, else of the catch-all host, else nothing. */
  lemma BestAnswerWins(ds: seq<RouteDef>, host: string, path: string, matcher: Matcher, glob: (string, string) -> bool)
    ensures var m := ApplyAll(map[], ds);
            match Lookup(BuildTable(ds), host, path, matcher, glob)
            case Some(v) =>
              || BestAnswer(Bucket(m, Lower(host)), path, matcher, glob, v)
              || (NoAnswer(Bucket(m, Lower(host)), path, matcher, glob) && BestAnswer(Bucket(m, ""), path, matcher, glob, v))
            case None =>
              NoAnswer(Bucket(m, Lower(host)), path, matcher, glob) && NoAnswer(Bucket(m, ""), path, matcher, glob)
  {
    hide ApplyAll, FirstMatch, BestAnswer, BuildTable, Bucket, NoAnswer;
    var m := ApplyAll(map[], ds);
    BuiltBucket(ds, Lower(host));
    BuiltBucket(ds, "");
    BucketBest(Lower(host), Bucket(m, Lower(host)), path, matcher, glob);
    BucketBest("", Bucket(m, ""), path, matcher, glob);
  }

  // ---- the order of adds does not matter ----

  predicate AddOnly(ds: seq<RouteDef>) {
    forall i :: 0 <= i < |ds| ==> ds[i].cmd == Add
  }

  /** The hosts and paths the commands name. */
  ghost function Keys(ds: seq<RouteDef>): set<(string, string)> {
    set i | 0 <= i < |ds| :: (HostKey(ds[i]), PathKey(ds[i]))
  }

  lemma AddStep(ds: seq<RouteDef>, d: RouteDef, host: string, path: string)
    requires d.cmd == Add
    ensures Replay(ds + [d], host, path) != [] <==>
              Replay(ds, host, path) != [] || (host, path) == (HostKey(d), PathKey(d))
  {
    hide SlotsOf;
    assert (ds + [d])[..|ds|] == ds;
  }

  lemma {:induction false} AddedKeys(ds: seq<RouteDef>, host: string, path: string)
    requires AddOnly(ds)
    ensures Replay(ds, host, path) != [] <==> (host, path) in Keys(ds)
  {
    hide Effect, HostKey, PathKey, InScope;
    if ds != [] {
      var front, last := ds[..|ds| - 1], ds[|ds| - 1];
      assert ds == front + [last];
      AddedKeys(front, host, path);
      AddStep(front, last, host, path);
      assert Keys(ds) == Keys(front) + {(HostKey(last), PathKey(last))};
    }
  }

  lemma HasRoute(host: string, rs: seq<RouteView>, v: RouteView)
    requires RoutesOk(host, rs) && v in rs
    ensures TargetsOf(rs, v.path) == v.targets != []
  {
    hide Refreshed;
    var i :| 0 <= i < |rs| && rs[i] == v;
    assert FirstIndex(rs, v.path) == i;
  }

  lemma PathIsRoute(rs: seq<RouteView>, q: string)
    requires TargetsOf(rs, q) != []
    ensures exists v :: v in rs && v.path == q
  {
    var k := FirstIndex(rs, q);
    assert rs[k] in rs;
  }

  lemma KeyIsRoute(ds: seq<RouteDef>, host: string, q: string)
    requires AddOnly(ds) && (host, q) in Keys(ds)
    ensures exists v :: v in Bucket(ApplyAll(map[], ds), host) && v.path == q
  {
    hide ApplyAll, Replay, Keys, TableOk, TargetsOf, Bucket;
    TableReplays(ds, host, q);
    AddedKeys(ds, host, q);
    PathIsRoute(Bucket(ApplyAll(map[], ds), host), q);
  }

  lemma RouteIsKey(ds: seq<RouteDef>, host: string, v: RouteView)
    requires AddOnly(ds) && v in Bucket(ApplyAll(map[], ds), host)
    ensures (host, v.path) in Keys(ds) && v.host == host && v.targets != []
  {
    hide ApplyAll, Replay, Keys, TableOk, TargetsOf, Refreshed;
    var rs := Bucket(ApplyAll(map[], ds), host);
    BuiltBucket(ds, host);
    TableReplays(ds, host, v.path);
    hide Bucket;
    HasRoute(host, rs, v);
    AddedKeys(ds, host, v.path);
  }

  /** What the best answer is, said of the commands alone. */
  ghost predicate TopKey(ds: seq<RouteDef>, host: string, path: string, matcher: Matcher, glob: (string, string) -> bool, p: string) {
    && (host, p) in Keys(ds) && Matches(matcher, glob, p, path)
    && forall q :: (host, q) in Keys(ds) && Matches(matcher, glob, q, path) ==> q == p || PathPrecedes(p, q)
  }

  ghost predicate NoKey(ds: seq<RouteDef>, host: string, path: string, matcher: Matcher, glob: (string, string) -> bool) {
    forall q :: (host, q) in Keys(ds) ==> !Matches(matcher, glob, q, path)
  }

  lemma NoAnswerNoKey(ds: seq<RouteDef>, host: string, path: string, matcher: Matcher, glob: (string, string) -> bool)
    requires AddOnly(ds) && NoAnswer(Bucket(ApplyAll(map[], ds), host), path, matcher, glob)
    ensures NoKey(ds, host, path, matcher, glob)
  {
    hide ApplyAll, Bucket, Keys, Matches, AddOnly;
    forall q | (host, q) in Keys(ds) ensures !Matches(matcher, glob, q, path) {
      KeyIsRoute(ds, host, q);
      var v :| v in Bucket(ApplyAll(map[], ds), host) && v.path == q;
      RouteIsKey(ds, host, v);
    }
  }

  lemma BestAnswerTopKey(ds: seq<RouteDef>, host: string, path: string, matcher: Matcher, glob: (string, string) -> bool, v: RouteView)
    requires AddOnly(ds) && BestAnswer(Bucket(ApplyAll(map[], ds), host), path, matcher, glob, v)
    ensures v.host == host && TopKey(ds, host, path, matcher, glob, v.path)
  {
    hide ApplyAll, Bucket, Keys, Matches, AddOnly, PathPrecedes;
    RouteIsKey(ds, host, v);
    forall q | (host, q) in Keys(ds) && Matches(matcher, glob, q, path) ensures q == v.path || PathPrecedes(v.path, q) {
      KeyIsRoute(ds, host, q);
      var u :| u in Bucket(ApplyAll(map[], ds), host) && u.path == q;
      RouteIsKey(ds, host, u);
    }
  }

  function KeyOf(v: Option<RouteView>): Option<(string, string)> {
    match v case None => None case Some(r) => Some((r.host, r.path))
  }

  /** The host and path a request must be sent to: the best in its own host, else the best in the
      catch-all host. */
  ghost predicate BestKey(
    ds: seq<RouteDef>, host: string, path: string, matcher: Matcher, glob: (string, string) -> bool, k: Option<(string, string)>)
  {
    match k
    case Some((h, p)) =>
      || (h == Lower(host) && TopKey(ds, h, path, matcher, glob, p))
      || (h == "" && NoKey(ds, Lower(host), path, matcher, glob) && TopKey(ds, h, path, matcher, glob, p))
    case None => NoKey(ds, Lower(host), path, matcher, glob) && NoKey(ds, "", path, matcher, glob)
  }

  lemma LookupKey(ds: seq<RouteDef>, host: string, path: string, matcher: Matcher, glob: (string, string) -> bool)
    requires AddOnly(ds)
    ensures BestKey(ds, host, path, matcher, glob, KeyOf(Lookup(BuildTable(ds), host, path, matcher, glob)))
  {
    hide Lookup, BuildTable, TopKey, NoKey, BestAnswer, NoAnswer, Lower, Bucket, ApplyAll, Keys, AddOnly;
    BestAnswerWins(ds, host, path, matcher, glob);
    var m := ApplyAll(map[], ds);
    if NoAnswer(Bucket(m, Lower(host)), path, matcher, glob) { NoAnswerNoKey(ds, Lower(host), path, matcher, glob); }
    if NoAnswer(Bucket(m, ""), path, matcher, glob) { NoAnswerNoKey(ds, "", path, matcher, glob); }
    var r := Lookup(BuildTable(ds), host, path, matcher, glob);
    if r.Some? {
      if BestAnswer(Bucket(m, Lower(host)), path, matcher, glob, r.value) {
        BestAnswerTopKey(ds, Lower(host), path, matcher, glob, r.value);
      } else {
        BestAnswerTopKey(ds, "", path, matcher, glob, r.value);
      }
    }
  }

  lemma PathOrderStrict(p: string, q: string)
    ensures !(PathPrecedes(p, q) && PathPrecedes(q, p))
  {
    LessTotal(p, q);
  }

  lemma TopKeyUnique(ds: seq<RouteDef>, host: string, path: string, matcher: Matcher, glob: (string, string) -> bool, p: string, q: string)
    requires TopKey(ds, host, path, matcher, glob, p) && TopKey(ds, host, path, matcher, glob, q)
    ensures p == q
  {
    hide Keys, Matches, PathPrecedes;
    PathOrderStrict(p, q);
  }

  lemma TopKeyIsKey(ds: seq<RouteDef>, host: string, path: string, matcher: Matcher, glob: (string, string) -> bool)
    ensures !(NoKey(ds, host, path, matcher, glob) && exists p :: TopKey(ds, host, path, matcher, glob, p))
  {
    hide Keys, Matches;
  }

  lemma BestKeyUnique(
    ds: seq<RouteDef>, host: string, path: string, matcher: Matcher, glob: (string, string) -> bool,
    k: Option<(string, string)>, l: Option<(string, string)>)
    requires BestKey(ds, host, path, matcher, glob, k) && BestKey(ds, host, path, matcher, glob, l)
    ensures k == l
  {
    hide TopKey, NoKey, Lower;
    TopKeyIsKey(ds, Lower(host), path, matcher, glob);
    TopKeyIsKey(ds, "", path, matcher, glob);
    if k.Some? && l.Some? && k.value.0 == l.value.0 {
      TopKeyUnique(ds, k.value.0, path, matcher, glob, k.value.1, l.value.1);
    }
  }

  /** Any two lists of adds that name the same hosts and paths, such as permutations of each other,
      send every request to the same host and path, with every matcher. */
  lemma AddOrderIrrelevant(
    ds: seq<RouteDef>, es: seq<RouteDef>, host: string, path: string, matcher: Matcher, glob: (string, string) -> bool)
    requires AddOnly(ds) && AddOnly(es) && Keys(ds) == Keys(es)
    ensures KeyOf(Lookup(BuildTable(ds), host, path, matcher, glob)) ==
            KeyOf(Lookup(BuildTable(es), host, path, matcher, glob))
  {
    var k := KeyOf(Lookup(BuildTable(ds), host, path, matcher, glob));
    var l := KeyOf(Lookup(BuildTable(es), host, path, matcher, glob));
    hide Lookup, BuildTable, Keys, KeyOf, Lower, Matches;
    LookupKey(ds, host, path, matcher, glob);
    LookupKey(es, host, path, matcher, glob);
    assert BestKey(ds, host, path, matcher, glob, l);
    BestKeyUnique(ds, host, path, matcher, glob, k, l);
  }
}
