/** What each matcher finds, in terms of the characters of the path (src/route/table.rs, 336-453 and
    636-644). */
module RouteMatching {
  import opened Prelude
  import opened Routes
  import opened RouteTables
  import opened RouteLookup

  // ---- the order of routes ----

  /** p is below q in dictionary order: it is a proper beginning of q, or smaller where they first differ. */
  ghost predicate DictionaryBelow(p: string, q: string) {
    exists k :: 0 <= k <= |p| && k < |q| && p[..k] == q[..k] && (k == |p| || p[k] < q[k])
  }

  lemma {:induction false} LessIsDictionary(p: string, q: string)
    ensures Less(p, q) <==> DictionaryBelow(p, q)
  {
    if q != [] && p == [] {
      assert p[..0] == q[..0];
    } else if q != [] && p[0] != q[0] {
      if p[0] < q[0] { assert p[..0] == q[..0]; }
      if k :| 0 <= k <= |p| && k < |q| && p[..k] == q[..k] && (k == |p| || p[k] < q[k]) {
        EqualFronts(p, q, k);
      }
    } else if q != [] {
      LessIsDictionary(p[1..], q[1..]);
      OneCharacterMore(p, q);
    }
  }

  lemma EqualFronts(p: string, q: string, k: nat)
    requires k <= |p| && k < |q| && p[..k] == q[..k]
    ensures k > 0 ==> p[0] == q[0]
  {
    if k > 0 { assert p[..k][0] == q[..k][0]; }
  }

  lemma OneCharacterMore(p: string, q: string)
    requires p != [] && q != [] && p[0] == q[0]
    ensures DictionaryBelow(p[1..], q[1..]) <==> DictionaryBelow(p, q)
  {
    if k :| 0 <= k <= |p[1..]| && k < |q[1..]| && p[1..][..k] == q[1..][..k] && (k == |p[1..]| || p[1..][k] < q[1..][k]) {
      assert p[..k + 1] == [p[0]] + p[1..][..k] && q[..k + 1] == [q[0]] + q[1..][..k];
    }
    if k :| 0 <= k <= |p| && k < |q| && p[..k] == q[..k] && (k == |p| || p[k] < q[k]) {
      assert k > 0;
      assert p[1..][..k - 1] == p[..k][1..] && q[1..][..k - 1] == q[..k][1..];
    }
  }

  /** Route v comes first among the routes of rs whose path fits: the longest, and of those of one
      length the last in dictionary order. */
  ghost predicate FirstThatFits(rs: seq<RouteView>, fits: string -> bool, v: RouteView) {
    && v in rs && fits(v.path)
    && forall u :: u in rs && fits(u.path) && u != v ==>
         |u.path| < |v.path| || (|u.path| == |v.path| && DictionaryBelow(u.path, v.path))
  }

  ghost predicate NoneFits(rs: seq<RouteView>, fits: string -> bool) {
    forall u :: u in rs ==> !fits(u.path)
  }

  /** Look-up finds v if and only if v comes first in the request's host, or nothing fits there and v
      comes first in the catch-all host. */
  ghost predicate Finds(m: map<string, seq<RouteView>>, host: string, fits: string -> bool, found: Option<RouteView>, v: RouteView) {
    found == Some(v) <==>
      || FirstThatFits(Bucket(m, Lower(host)), fits, v)
      || (NoneFits(Bucket(m, Lower(host)), fits) && FirstThatFits(Bucket(m, ""), fits, v))
  }

  lemma BestFits(host: string, rs: seq<RouteView>, path: string, matcher: Matcher, glob: (string, string) -> bool, fits: string -> bool, v: RouteView)
    requires RoutesOk(host, rs) && forall p :: fits(p) <==> Matches(matcher, glob, p, path)
    ensures BestAnswer(rs, path, matcher, glob, v) <==> FirstThatFits(rs, fits, v)
    ensures NoAnswer(rs, path, matcher, glob) <==> NoneFits(rs, fits)
  {
    hide Matches, Refreshed, Less, DictionaryBelow, UniquePaths;
    forall u: RouteView ensures Less(u.path, v.path) <==> DictionaryBelow(u.path, v.path) { LessIsDictionary(u.path, v.path); }
    forall u | u in rs ensures u.targets != [] {
      var i :| 0 <= i < |rs| && rs[i] == u;
      assert RouteOk(host, rs[i]);
    }
  }

  lemma FirstIsOne(rs: seq<RouteView>, fits: string -> bool, u: RouteView, v: RouteView)
    requires FirstThatFits(rs, fits, u) && FirstThatFits(rs, fits, v)
    ensures u == v
  {
    hide DictionaryBelow;
    LessIsDictionary(u.path, v.path);
    LessIsDictionary(v.path, u.path);
    LessTotal(u.path, v.path);
  }

  /** Look-up in any table built from commands, for a matcher that accepts what fits. */
  lemma LookupFinds(
    ds: seq<RouteDef>, host: string, path: string, matcher: Matcher, glob: (string, string) -> bool, fits: string -> bool, v: RouteView)
    requires forall p :: fits(p) <==> Matches(matcher, glob, p, path)
    ensures Finds(ApplyAll(map[], ds), host, fits, Lookup(BuildTable(ds), host, path, matcher, glob), v)
  {
    var m, found := ApplyAll(map[], ds), Lookup(BuildTable(ds), host, path, matcher, glob);
    BestAnswerWins(ds, host, path, matcher, glob);
    BuiltBucket(ds, Lower(host));
    BuiltBucket(ds, "");
    hide ApplyAll, BuildTable, Lookup, Bucket, Lower, BestAnswer, NoAnswer, RoutesOk, Matches, FirstThatFits, NoneFits;
    var own, rest := Bucket(m, Lower(host)), Bucket(m, "");
    BestFits(Lower(host), own, path, matcher, glob, fits, v);
    BestFits("", rest, path, matcher, glob, fits, v);
    if found.Some? {
      BestFits(Lower(host), own, path, matcher, glob, fits, found.value);
      BestFits("", rest, path, matcher, glob, fits, found.value);
      OnlyOneFound(own, rest, fits, found.value, v);
    } else {
      NoneIsFirst(own, fits, v);
      NoneIsFirst(rest, fits, v);
    }
  }

  lemma NoneIsFirst(rs: seq<RouteView>, fits: string -> bool, v: RouteView)
    ensures NoneFits(rs, fits) ==> !FirstThatFits(rs, fits, v)
  {
  }

  lemma OnlyOneFound(own: seq<RouteView>, rest: seq<RouteView>, fits: string -> bool, u: RouteView, v: RouteView)
    requires FirstThatFits(own, fits, u) || (NoneFits(own, fits) && FirstThatFits(rest, fits, u))
    ensures u == v <==> FirstThatFits(own, fits, v) || (NoneFits(own, fits) && FirstThatFits(rest, fits, v))
  {
    NoneIsFirst(own, fits, u);
    NoneIsFirst(own, fits, v);
    hide FirstThatFits, NoneFits;
    if FirstThatFits(own, fits, u) && FirstThatFits(own, fits, v) { FirstIsOne(own, fits, u, v); }
    if FirstThatFits(rest, fits, u) && FirstThatFits(rest, fits, v) { FirstIsOne(rest, fits, u, v); }
  }

  // ---- one law for each matcher ----

  /** prefix: the route's path is the root or a literal beginning of the request's. */
  lemma PrefixFinds(ds: seq<RouteDef>, host: string, path: string, glob: (string, string) -> bool, v: RouteView)
    ensures Finds(ApplyAll(map[], ds), host, p => p == "/" || (|p| <= |path| && path[..|p|] == p),
                  Lookup(BuildTable(ds), host, path, Prefix, glob), v)
  {
    var fits := p => p == "/" || (|p| <= |path| && path[..|p|] == p);
    LookupFinds(ds, host, path, Prefix, glob, fits, v);
  }

  /** The characters of p agree with the first ones of the path up to ASCII case. */
  predicate BeginsUpToCase(path: string, p: string) {
    |p| <= |path| && forall i :: 0 <= i < |p| ==> SameLetter(path[i], p[i])
  }

  lemma LowerBegins(path: string, p: string)
    ensures StartsWith(Lower(path), Lower(p)) <==> BeginsUpToCase(path, p)
  {
    if |p| <= |path| {
      LowerForgetsCase(path[..|p|], p);
      assert Lower(path)[..|p|] == Lower(path[..|p|]);
      hide Lower, SameLetter;
    }
  }

  /** iprefix: the root, or a beginning of the request's path up to ASCII case. */
  lemma IgnoreCasePrefixFinds(ds: seq<RouteDef>, host: string, path: string, glob: (string, string) -> bool, v: RouteView)
    ensures Finds(ApplyAll(map[], ds), host, p => p == "/" || BeginsUpToCase(path, p),
                  Lookup(BuildTable(ds), host, path, IgnoreCasePrefix, glob), v)
  {
    var fits := p => p == "/" || BeginsUpToCase(path, p);
    forall p ensures fits(p) <==> Matches(IgnoreCasePrefix, glob, p, path) { LowerBegins(path, p); }
    LookupFinds(ds, host, path, IgnoreCasePrefix, glob, fits, v);
  }

  /** glob: the root, or a pattern that accepts the request's path. */
  lemma GlobFinds(ds: seq<RouteDef>, host: string, path: string, glob: (string, string) -> bool, v: RouteView)
    ensures Finds(ApplyAll(map[], ds), host, p => p == "/" || glob(p, path),
                  Lookup(BuildTable(ds), host, path, Glob, glob), v)
  {
    LookupFinds(ds, host, path, Glob, glob, p => p == "/" || glob(p, path), v);
  }

  /** exact: the one route whose path is the request's, of the request's host, or of the catch-all host
      if the request's host has none. The root answers nothing but the root. */
  lemma ExactFinds(ds: seq<RouteDef>, host: string, path: string, glob: (string, string) -> bool, v: RouteView)
    ensures var m := ApplyAll(map[], ds);
            var own, rest := Bucket(m, Lower(host)), Bucket(m, "");
            Lookup(BuildTable(ds), host, path, Exact, glob) == Some(v) <==>
              || (v in own && v.path == path)
              || ((forall u :: u in own ==> u.path != path) && v in rest && v.path == path)
  {
    var m, fits := ApplyAll(map[], ds), (p: string) => p == path;
    var own, rest := Bucket(m, Lower(host)), Bucket(m, "");
    LookupFinds(ds, host, path, Exact, glob, fits, v);
    BuiltBucket(ds, Lower(host));
    BuiltBucket(ds, "");
    hide ApplyAll, BuildTable, Lookup, Bucket, Lower, RouteOk;
    FirstOfOnePath(own, path, v);
    FirstOfOnePath(rest, path, v);
    assert NoneFits(own, fits) <==> forall u :: u in own ==> u.path != path;
  }

  lemma FirstOfOnePath(rs: seq<RouteView>, path: string, v: RouteView)
    requires UniquePaths(rs)
    ensures FirstThatFits(rs, (p: string) => p == path, v) <==> v in rs && v.path == path
  {
    if v in rs && v.path == path {
      forall u | u in rs && u.path == path ensures u == v { SamePathSameRoute(rs, u, v); }
    }
    hide UniquePaths, DictionaryBelow;
  }

  lemma {:induction false} AllMatchesMembers(rs: seq<RouteView>, path: string, matcher: Matcher, glob: (string, string) -> bool, v: RouteView)
    ensures v in AllMatches(rs, path, matcher, glob) <==> v in rs && Answers(matcher, glob, v, path)
  {
    hide Answers;
    if rs != [] {
      assert rs == rs[..|rs| - 1] + [rs[|rs| - 1]];
      AllMatchesMembers(rs[..|rs| - 1], path, matcher, glob, v);
    }
  }

  lemma {:induction false} AllMatchesOrdered(rs: seq<RouteView>, path: string, matcher: Matcher, glob: (string, string) -> bool)
    requires Ordered(rs)
    ensures Ordered(AllMatches(rs, path, matcher, glob))
  {
    hide Answers, Precedes;
    if rs != [] {
      var front, last := rs[..|rs| - 1], rs[|rs| - 1];
      var found := AllMatches(front, path, matcher, glob);
      AllMatchesOrdered(front, path, matcher, glob);
      forall v | v in found ensures !Precedes(last, v) {
        AllMatchesMembers(front, path, matcher, glob, v);
        var k :| 0 <= k < |front| && front[k] == v;
        assert rs[k] == v;
      }
    }
  }

  /** The full list holds, of every bucket, exactly the routes that fit, best first. */
  lemma MatchingFinds(ds: seq<RouteDef>, host: string, path: string, matcher: Matcher, glob: (string, string) -> bool, fits: string -> bool)
    requires forall p :: fits(p) <==> Matches(matcher, glob, p, path)
    ensures var m, built := ApplyAll(map[], ds), BuildTable(ds);
            var own, rest := AllMatches(Bucket(built, Lower(host)), path, matcher, glob), AllMatches(Bucket(built, ""), path, matcher, glob);
            && Matching(built, host, path, matcher, glob) == own + (if Lower(host) == "" then [] else rest)
            && Ordered(own) && Ordered(rest)
            && (forall v :: v in own <==> v in Bucket(m, Lower(host)) && fits(v.path))
            && (forall v :: v in rest <==> v in Bucket(m, "") && fits(v.path))
  {
    hide ApplyAll, BuildTable, Matches;
    BucketMatches(ds, Lower(host), path, matcher, glob, fits);
    BucketMatches(ds, "", path, matcher, glob, fits);
    hide Bucket, Lower, AllMatches, Ordered;
  }

  lemma BucketMatches(ds: seq<RouteDef>, key: string, path: string, matcher: Matcher, glob: (string, string) -> bool, fits: string -> bool)
    requires forall p :: fits(p) <==> Matches(matcher, glob, p, path)
    ensures var found := AllMatches(Bucket(BuildTable(ds), key), path, matcher, glob);
            Ordered(found) && forall v :: v in found <==> v in Bucket(ApplyAll(map[], ds), key) && fits(v.path)
  {
    hide ApplyAll, BuildTable, Bucket, Matches, AllMatches, Ordered, Refreshed;
    var rs := Bucket(ApplyAll(map[], ds), key);
    BuiltBucket(ds, key);
    SortedOrdered(rs);
    SameMembers(rs);
    AllMatchesOrdered(Sorted(rs), path, matcher, glob);
    forall v ensures v in AllMatches(Sorted(rs), path, matcher, glob) <==> v in rs && fits(v.path) {
      AllMatchesMembers(Sorted(rs), path, matcher, glob, v);
      if v in rs {
        var i :| 0 <= i < |rs| && rs[i] == v;
        assert RouteOk(key, rs[i]);
      }
    }
  }

  /** The case of the request's host does not matter. */
  lemma HostCaseIgnored(
    m: map<string, seq<RouteView>>, host: string, other: string, path: string, matcher: Matcher, glob: (string, string) -> bool)
    requires SameUpToCase(host, other)
    ensures Lookup(m, host, path, matcher, glob) == Lookup(m, other, path, matcher, glob)
    ensures Matching(m, host, path, matcher, glob) == Matching(m, other, path, matcher, glob)
  {
    LowerForgetsCase(host, other);
  }
}
