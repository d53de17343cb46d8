/** The registry of weak references and the slot operations of a target, as the program runs them
    between other threads' steps (src/route/target_stats.rs, 13-50; src/route/target.rs, 284-309),
    and a table rebuild on top of them (src/route/table.rs, 464-508; src/route/registry.rs, 138-157). */
module ConnectionRegistries {
  import opened Prelude
  import opened Connections

  class ConnectionRegistry {
    var counters: map<nat, Counter>
    var registry: map<string, nat>
    var handles: map<nat, Handle>
    var nextCounter: nat
    var nextHandle: nat

    ghost function Abs(): State
      reads this
    {
      State(counters, registry, handles, nextCounter, nextHandle)
    }

    constructor ()
      ensures Abs() == Empty && Inv(Abs())
    {
      counters, registry, handles, nextCounter, nextHandle := map[], map[], map[], 0, 0;
    }

    /** The upgrade of a weak reference succeeds while some handle is left. */
    method Upgrades(c: nat) returns (alive: bool)
      ensures alive == Alive(handles, c)
    {
      alive := exists h :: h in handles && handles[h].counter == c;
    }

    method PruneDead()
      modifies this`registry
      ensures registry == Pruned(old(registry), handles)
    {
      var keys := registry.Keys;
      ghost var before := registry;
      while keys != {}
        invariant keys <= registry.Keys <= before.Keys
        invariant forall u :: u in registry ==> registry[u] == before[u]
        invariant forall u :: u in before && u !in keys ==> (u in registry <==> Alive(handles, before[u]))
        decreases keys
      {
        var u :| u in keys;
        var alive := Upgrades(registry[u]);
        if !alive {
          registry := registry - {u};
        }
        keys := keys - {u};
      }
    }

    method ActiveConnectionsFor(url: string) returns (h: nat)
      modifies this
      ensures Abs() == LookedUp(old(Abs()), url) && h == old(nextHandle)
    {
      h := nextHandle;
      if url in registry {
        var alive := Upgrades(registry[url]);
        if alive {
          handles := handles[h := Handle(registry[url], Plain)];
          nextHandle := nextHandle + 1;
          return;
        }
      }
      if |registry| > PRUNE_THRESHOLD {
        PruneDead();
      }
      counters := counters[nextCounter := Counter(url, 0)];
      registry := registry[url := nextCounter];
      handles := handles[h := Handle(nextCounter, Plain)];
      nextCounter := nextCounter + 1;
      nextHandle := nextHandle + 1;
    }

    method SetValue(h: nat, v: nat, p: Phase)
      requires h in handles && handles[h].counter in counters
      modifies this`counters, this`handles
      ensures Abs() == WithPhase(WithValue(old(Abs()), h, v), h, p)
    {
      var c := handles[h].counter;
      counters := counters[c := counters[c].(value := v)];
      handles := handles[h := handles[h].(phase := p)];
    }

    /** The weak exchange: fails if the counter has another value, or for no reason. */
    method CompareExchangeWeak(h: nat, current: nat, spurious: bool) returns (ok: bool, actual: nat)
      requires Tidy(Abs()) && h in handles
      modifies this`counters, this`handles
      ensures actual == ValueOf(old(Abs()), h) && ok == (actual == current && !spurious)
      ensures Abs() == if ok then Acquired(old(Abs()), h) else old(Abs())
    {
      actual := counters[handles[h].counter].value;
      ok := actual == current && !spurious;
      if ok {
        SetValue(h, current + 1, Guard);
      }
    }

    /** The exchange loop, run without interference; `failures` is how often the weak exchange fails
        for no reason. */
    method TryAcquireConnectionSlot(h: nat, max: nat, failures: nat) returns (ok: bool)
      requires Tidy(Abs()) && h in handles && handles[h].phase.Plain?
      modifies this`counters, this`handles
      ensures ok == (max == 0 || ValueOf(old(Abs()), h) < max)
      ensures Abs() == if ok then Acquired(old(Abs()), h) else old(Abs())
    {
      var current := counters[handles[h].counter].value;
      if max == 0 {
        SetValue(h, current + 1, Guard);
        return true;
      }
      var left := failures;
      while true
        invariant Abs() == old(Abs()) && current == ValueOf(old(Abs()), h)
        decreases left
      {
        if current >= max {
          return false;
        }
        var won, actual := CompareExchangeWeak(h, current, left > 0);
        if won {
          return true;
        }
        current := actual;
        left := left - 1;
      }
    }

    method ReleaseConnectionSlot(h: nat)
      requires Tidy(Abs()) && h in handles && handles[h].phase.Guard?
      modifies this`counters, this`handles
      ensures Abs() == Next(old(Abs()), Release(h))
    {
      SetValue(h, Decremented(counters[handles[h].counter].value), Plain);
    }

    /** Builds the handles of a new table, one per target, while the old table is still in place;
        then the old table goes. */
    method Rebuild(urls: seq<string>, stale: set<nat>) returns (made: seq<nat>)
      requires forall h :: h in stale ==> h in handles && handles[h].phase.Plain?
      modifies this
      ensures (Abs(), made) == Rebuilt(old(Abs()), urls, stale)
    {
      made := [];
      for i := 0 to |urls|
        invariant (Abs(), made) == Built(old(Abs()), urls[..i])
      {
        assert urls[..i + 1][..i] == urls[..i];
        var h := ActiveConnectionsFor(urls[i]);
        made := made + [h];
      }
      assert urls[..|urls|] == urls;
      ghost var before := handles;
      var rest := stale;
      while rest != {}
        invariant rest <= stale
        invariant Abs() == Built(old(Abs()), urls).0.(handles := before - (stale - rest))
        decreases rest
      {
        var h :| h in rest;
        handles := handles - {h};
        rest := rest - {h};
      }
      assert stale - rest == stale;
    }
  }

  /** One look-up for every target of the new table, in order. */
  function Built(s: State, urls: seq<string>): (State, seq<nat>) {
    if urls == [] then (s, [])
    else
      var (m, made) := Built(s, urls[..|urls| - 1]);
      (LookedUp(m, urls[|urls| - 1]), made + [m.nextHandle])
  }

  function Rebuilt(s: State, urls: seq<string>, stale: set<nat>): (State, seq<nat>) {
    var (m, made) := Built(s, urls);
    (m.(handles := m.handles - stale), made)
  }

  /** A slot is given out exactly below the limit, to a URL that then has one more connection. */
  lemma AcquireCounts(s: State, h: nat)
    requires Inv(s) && h in s.handles && s.handles[h].phase.Plain?
    ensures var url := s.counters[s.handles[h].counter].url;
            && Inv(Acquired(s, h)) && ValueOf(s, h) == |GuardsFor(s, url)|
            && |GuardsFor(Acquired(s, h), url)| == |GuardsFor(s, url)| + 1
  {
    AcquireInv(s, h);
    HandleSeesAllGuards(s, h);
    HandleSeesAllGuards(Acquired(s, h), h);
  }

  /** Handle h belongs to the URL and its counter shows the URL's open connections. */
  ghost predicate Serves(s: State, h: nat, url: string) {
    && h in s.handles && s.handles[h].counter in s.counters
    && s.counters[s.handles[h].counter].url == url
    && ValueOf(s, h) == |GuardsFor(s, url)|
  }

  /** A look-up adds one handle and changes no count. */
  ghost predicate Extends(s: State, e: State) {
    && (forall c :: c in s.counters ==> c in e.counters && e.counters[c] == s.counters[c])
    && (forall h :: h in s.handles ==> h in e.handles && e.handles[h] == s.handles[h])
    && (forall h :: h in e.handles && h !in s.handles ==> e.handles[h].phase.Plain?)
  }

  lemma HandleExtends(s: State, m: State, c: nat)
    requires Tidy(s) && m.handles == s.handles && m.nextHandle == s.nextHandle
    requires forall d :: d in s.counters ==> d in m.counters && m.counters[d] == s.counters[d]
    ensures Extends(s, NewHandle(m, c)) && s.nextHandle !in s.handles
    ensures |NewHandle(m, c).handles| == |s.handles| + 1
  {
    assert NewHandle(m, c).handles.Keys == s.handles.Keys + {s.nextHandle};
  }

  lemma CreatedExtends(s: State, url: string, kept: map<string, nat>)
    requires Tidy(s)
    ensures Extends(s, Created(s, url, kept)) && s.nextHandle !in s.handles
    ensures |Created(s, url, kept).handles| == |s.handles| + 1
  {
    assert s.nextCounter !in s.counters;
    hide Extends, NewHandle, Tidy;
    HandleExtends(s, s.(counters := s.counters[s.nextCounter := Counter(url, 0)],
                        registry := kept[url := s.nextCounter],
                        nextCounter := s.nextCounter + 1), s.nextCounter);
  }

  lemma LookupExtends(s: State, url: string)
    requires Tidy(s)
    ensures Extends(s, LookedUp(s, url)) && s.nextHandle !in s.handles
    ensures |LookedUp(s, url).handles| == |s.handles| + 1
  {
    hide Alive, Pruned, Extends, NewHandle, Tidy, Created;
    HandleExtends(s, s, if url in s.registry then s.registry[url] else 0);
    CreatedExtends(s, url, if |s.registry| > PRUNE_THRESHOLD then Pruned(s.registry, s.handles) else s.registry);
  }

  lemma ExtendsKeeps(s: State, e: State, h: nat, u: string)
    requires Tidy(s) && Extends(s, e)
    ensures GuardsFor(e, u) == GuardsFor(s, u)
    ensures Serves(s, h, u) ==> Serves(e, h, u)
  {
  }

  lemma {:induction false} BuiltInv(s: State, urls: seq<string>)
    requires Inv(s) && |s.handles| + |urls| < U64
    ensures Inv(Built(s, urls).0) && |Built(s, urls).0.handles| == |s.handles| + |urls|
    ensures Extends(s, Built(s, urls).0)
  {
    if urls != [] {
      var front := urls[..|urls| - 1];
      BuiltInv(s, front);
      LookupInv(Built(s, front).0, urls[|urls| - 1]);
      LookupExtends(Built(s, front).0, urls[|urls| - 1]);
    }
  }

  lemma LookupKeepsServing(m: State, url: string, h: nat, u: string)
    requires Inv(m) && Serves(m, h, u)
    ensures Serves(LookedUp(m, url), h, u)
  {
    hide Serves, LookedUp, Extends, Registered, Counted;
    LookupExtends(m, url);
    ExtendsKeeps(m, LookedUp(m, url), h, u);
  }

  lemma BuiltMore(s: State, front: seq<string>, last: string)
    ensures var (m, made) := Built(s, front);
            Built(s, front + [last]) == (LookedUp(m, last), made + [m.nextHandle])
  {
    hide LookedUp;
    assert (front + [last])[..|front|] == front;
  }

  lemma {:induction false} BuiltServes(s: State, urls: seq<string>, i: nat)
    requires Inv(s) && |s.handles| + |urls| < U64
    ensures var (e, made) := Built(s, urls);
            |made| == |urls| && (i < |urls| ==> made[i] !in s.handles && Serves(e, made[i], urls[i]))
  {
    if urls != [] {
      hide Tidy, Registered, Counted, Serves, LookedUp, Built;
      var front, last := urls[..|urls| - 1], urls[|urls| - 1];
      assert urls == front + [last];
      BuiltInv(s, front);
      BuiltServes(s, front, i);
      BuiltMore(s, front, last);
      var (m, made) := Built(s, front);
      LookupExtends(m, last);
      if i < |front| {
        LookupKeepsServing(m, last, made[i], urls[i]);
      } else if i == |front| {
        LookupServes(m, last);
        assert m.nextHandle !in s.handles;
      }
    }
  }

  lemma LookupServes(s: State, url: string)
    requires Inv(s) && |s.handles| + 1 < U64
    ensures Serves(LookedUp(s, url), s.nextHandle, url)
  {
    LookupCounts(s, url);
    LookupLeavesGuards(s, url);
  }

  lemma DropSetInv(s: State, stale: set<nat>)
    requires Inv(s) && forall d :: d in stale ==> d in s.handles && s.handles[d].phase.Plain?
    ensures Inv(s.(handles := s.handles - stale))
  {
    var t := s.handles - stale;
    SubsetSize(t.Keys, s.handles.Keys);
    forall d | d in s.counters ensures s.counters[d].value == |GuardsOn(t, d)| {
      PlainChange(s.handles, t, d);
    }
  }

  lemma DropSetServes(s: State, stale: set<nat>, h: nat, u: string)
    requires forall d :: d in stale ==> d in s.handles && s.handles[d].phase.Plain?
    ensures var e := s.(handles := s.handles - stale);
            && GuardsFor(e, u) == GuardsFor(s, u)
            && (Serves(s, h, u) && h !in stale ==> Serves(e, h, u))
  {
  }

  /** A rebuild disturbs no open connection: every URL keeps its guards, and every target of the new
      table starts from the number of connections open to its URL. */
  lemma RebuildKeepsConnections(s: State, urls: seq<string>, stale: set<nat>, i: nat, u: string)
    requires Inv(s) && |s.handles| + |urls| < U64
    requires forall d :: d in stale ==> d in s.handles && s.handles[d].phase.Plain?
    ensures var (e, made) := Rebuilt(s, urls, stale);
            && Inv(e) && |made| == |urls| && GuardsFor(e, u) == GuardsFor(s, u)
            && (i < |urls| ==> Serves(e, made[i], urls[i]))
  {
    BuiltInv(s, urls);
    BuiltServes(s, urls, i);
    var (m, made) := Built(s, urls);
    ExtendsKeeps(s, m, 0, u);
    DropSetInv(m, stale);
    DropSetServes(m, stale, 0, u);
    if i < |urls| { DropSetServes(m, stale, made[i], urls[i]); }
  }
}
