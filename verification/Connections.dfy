/** Connection counters shared per upstream URL through weak references
    (src/route/target_stats.rs, 13-50; src/route/target.rs, 284-309; src/proxy/tcp.rs, 548-564 and
    813-822; src/route/table.rs, 469-491; src/route/registry.rs, 138-157).

    A handle is one strong reference: the one a target of some table holds, the one of a request
    that is acquiring a slot, or the one inside a connection guard.  A counter is alive while some
    handle refers to it; the registry only remembers it. */
module Connections {
  import opened Prelude

  const PRUNE_THRESHOLD := 512

  /** The registry shares a counter among all handles of one URL. */
  datatype Counter = Counter(url: string, value: nat)

  datatype Phase =
    | Plain
    | Trying(seen: nat, max: nat)  // inside the compare-exchange loop
    | Guard                        // holds a connection slot

  datatype Handle = Handle(counter: nat, phase: Phase)

  /** `counters` remembers every counter ever made; ids are never reused. */
  datatype State = State(
    counters: map<nat, Counter>,
    registry: map<string, nat>,
    handles: map<nat, Handle>,
    nextCounter: nat,
    nextHandle: nat)

  const Empty := State(map[], map[], map[], 0, 0)

  predicate Alive(handles: map<nat, Handle>, c: nat) {
    exists h :: h in handles && handles[h].counter == c
  }

  function Pruned(registry: map<string, nat>, handles: map<nat, Handle>): map<string, nat> {
    map url | url in registry && Alive(handles, registry[url]) :: registry[url]
  }

  datatype Step =
    | Lookup(url: string)
    | CloneHandle(h: nat)
    | DropHandle(h: nat)
    | Begin(h: nat, max: nat)
    | Try(h: nat, spurious: bool)
    | Release(h: nat)

  predicate Enabled(s: State, step: Step) {
    match step
    case Lookup(_) => true
    case CloneHandle(h) => h in s.handles
    case DropHandle(h) => h in s.handles && s.handles[h].phase.Plain?
    case Begin(h, _) => h in s.handles && s.handles[h].phase.Plain?
    case Try(h, _) => h in s.handles && s.handles[h].phase.Trying?
    case Release(h) => h in s.handles && s.handles[h].phase.Guard?
  }

  function NewHandle(s: State, c: nat): State {
    s.(handles := s.handles[s.nextHandle := Handle(c, Plain)], nextHandle := s.nextHandle + 1)
  }

  function LookedUp(s: State, url: string): State {
    if url in s.registry && Alive(s.handles, s.registry[url]) then NewHandle(s, s.registry[url])
    else
      Created(s, url, if |s.registry| > PRUNE_THRESHOLD then Pruned(s.registry, s.handles) else s.registry)
  }

  function Created(s: State, url: string, kept: map<string, nat>): State {
    NewHandle(s.(counters := s.counters[s.nextCounter := Counter(url, 0)],
                 registry := kept[url := s.nextCounter],
                 nextCounter := s.nextCounter + 1), s.nextCounter)
  }

  function ValueOf(s: State, h: nat): nat
    requires h in s.handles
  {
    if s.handles[h].counter in s.counters then s.counters[s.handles[h].counter].value else 0
  }

  function WithPhase(s: State, h: nat, p: Phase): State
    requires h in s.handles
  {
    s.(handles := s.handles[h := s.handles[h].(phase := p)])
  }

  function WithValue(s: State, h: nat, v: nat): State
    requires h in s.handles
  {
    var c := s.handles[h].counter;
    if c in s.counters then s.(counters := s.counters[c := s.counters[c].(value := v)]) else s
  }

  /** The handle now holds a slot. */
  function Acquired(s: State, h: nat): State
    requires h in s.handles
  {
    WithPhase(WithValue(s, h, ValueOf(s, h) + 1), h, Guard)
  }

  /** fetch_sub of one on an unsigned counter. */
  function Decremented(v: nat): nat { if v == 0 then U64 - 1 else v - 1 }

  /** The handle gives its slot back. */
  function Released(s: State, h: nat, v: nat): State
    requires h in s.handles
  {
    WithPhase(WithValue(s, h, v), h, Plain)
  }

  /** One atomic operation or locked region; `spurious` lets a weak exchange fail for no reason. */
  function Next(s: State, step: Step): State
    requires Enabled(s, step)
  {
    match step
    case Lookup(url) => LookedUp(s, url)
    case CloneHandle(h) => NewHandle(s, s.handles[h].counter)
    case DropHandle(h) => s.(handles := s.handles - {h})
    case Begin(h, max) =>
      if max == 0 then Acquired(s, h)
      else WithPhase(s, h, Trying(ValueOf(s, h), max))
    case Try(h, spurious) =>
      var p := s.handles[h].phase;
      if p.seen >= p.max then WithPhase(s, h, Plain)
      else if ValueOf(s, h) == p.seen && !spurious then Acquired(s, h)
      else WithPhase(s, h, Trying(ValueOf(s, h), p.max))
    case Release(h) => Released(s, h, Decremented(ValueOf(s, h)))
  }

  // ---- the invariant ----

  ghost function GuardsOn(handles: map<nat, Handle>, c: nat): set<nat> {
    set h | h in handles && handles[h] == Handle(c, Guard)
  }

  /** Guards of a URL, whichever counter they hold. */
  ghost function GuardsFor(s: State, url: string): set<nat> {
    set h | h in s.handles && s.handles[h].phase.Guard? && s.handles[h].counter in s.counters
            && s.counters[s.handles[h].counter].url == url
  }

  ghost predicate Tidy(s: State) {
    && (forall c :: c in s.counters ==> c < s.nextCounter)
    && (forall h :: h in s.handles ==> h < s.nextHandle && s.handles[h].counter in s.counters)
    && (forall u :: u in s.registry ==> s.registry[u] in s.counters && s.counters[s.registry[u]].url == u)
  }

  /** The registry knows every counter that is alive. */
  ghost predicate Registered(s: State)
    requires Tidy(s)
  {
    forall h :: h in s.handles ==>
      var url := s.counters[s.handles[h].counter].url;
      url in s.registry && s.registry[url] == s.handles[h].counter
  }

  /** Every counter shows the number of guards that hold it. */
  ghost predicate Counted(s: State) {
    forall c :: c in s.counters ==> s.counters[c].value == |GuardsOn(s.handles, c)|
  }

  ghost predicate Inv(s: State) {
    Tidy(s) && Registered(s) && Counted(s) && |s.handles| < U64
  }

  lemma PlainChange(s: map<nat, Handle>, t: map<nat, Handle>, c: nat)
    requires forall h :: h in s && s[h].phase.Guard? ==> h in t && t[h] == s[h]
    requires forall h :: h in t && t[h].phase.Guard? ==> h in s && s[h] == t[h]
    ensures GuardsOn(t, c) == GuardsOn(s, c)
  {
  }

  lemma GuardGained(s: map<nat, Handle>, h: nat, c: nat)
    requires h in s && !s[h].phase.Guard?
    ensures var t := s[h := s[h].(phase := Guard)];
            |GuardsOn(t, c)| == |GuardsOn(s, c)| + if s[h].counter == c then 1 else 0
  {
    var t := s[h := s[h].(phase := Guard)];
    if s[h].counter == c {
      assert GuardsOn(t, c) == GuardsOn(s, c) + {h};
    } else {
      assert GuardsOn(t, c) == GuardsOn(s, c);
    }
  }

  lemma GuardLost(s: map<nat, Handle>, h: nat, c: nat)
    requires h in s && s[h].phase.Guard?
    ensures var t := s[h := s[h].(phase := Plain)];
            |GuardsOn(s, c)| == |GuardsOn(t, c)| + if s[h].counter == c then 1 else 0
  {
    var t := s[h := s[h].(phase := Plain)];
    if s[h].counter == c {
      assert GuardsOn(s, c) == GuardsOn(t, c) + {h};
    } else {
      assert GuardsOn(t, c) == GuardsOn(s, c);
    }
  }

  lemma SubsetSize(a: set<nat>, b: set<nat>)
    requires a <= b
    ensures |a| <= |b|
  {
    assert b == a + (b - a);
  }

  lemma GuardsFit(s: State, c: nat)
    ensures |GuardsOn(s.handles, c)| <= |s.handles|
  {
    SubsetSize(GuardsOn(s.handles, c), s.handles.Keys);
  }

  /** A further handle on a counter that the registry knows. */
  lemma ShareInv(s: State, c: nat)
    requires Inv(s) && |s.handles| + 1 < U64 && c in s.counters && Alive(s.handles, c)
    ensures Inv(NewHandle(s, c))
  {
    var e := NewHandle(s, c);
    forall d | d in e.counters ensures e.counters[d].value == |GuardsOn(e.handles, d)| {
      PlainChange(s.handles, e.handles, d);
    }
  }

  /** What creating a counter needs: no live counter for the URL, and no live entry dropped. */
  ghost predicate Creatable(s: State, url: string, kept: map<string, nat>) {
    && (url in s.registry ==> !Alive(s.handles, s.registry[url]))
    && (forall u :: u in kept ==> u in s.registry && kept[u] == s.registry[u])
    && (forall u :: u in s.registry && Alive(s.handles, s.registry[u]) ==> u in kept)
  }

  lemma CreateTidy(s: State, url: string, kept: map<string, nat>)
    requires Tidy(s) && Registered(s) && Creatable(s, url, kept)
    ensures Tidy(Created(s, url, kept)) && Registered(Created(s, url, kept))
  {
    forall h | h in s.handles ensures s.counters[s.handles[h].counter].url in kept
                                   && s.counters[s.handles[h].counter].url != url
    {
      assert Alive(s.handles, s.handles[h].counter);
    }
  }

  lemma CreateCounted(s: State, url: string, kept: map<string, nat>)
    requires Tidy(s) && Counted(s)
    ensures Counted(Created(s, url, kept))
  {
    var e := Created(s, url, kept);
    forall d | d in e.counters ensures e.counters[d].value == |GuardsOn(e.handles, d)| {
      PlainChange(s.handles, e.handles, d);
      if d == s.nextCounter { assert GuardsOn(s.handles, d) == {}; }
    }
  }

  lemma CreateInv(s: State, url: string, kept: map<string, nat>)
    requires Inv(s) && |s.handles| + 1 < U64 && Creatable(s, url, kept)
    ensures Inv(Created(s, url, kept))
  {
    CreateTidy(s, url, kept);
    CreateCounted(s, url, kept);
    hide Tidy, Registered, Counted, Creatable;
    assert |Created(s, url, kept).handles| <= |s.handles| + 1;
  }

  lemma LookupInv(s: State, url: string)
    requires Inv(s) && |s.handles| + 1 < U64
    ensures Inv(LookedUp(s, url))
  {
    if url in s.registry && Alive(s.handles, s.registry[url]) {
      ShareInv(s, s.registry[url]);
    } else {
      CreateInv(s, url, if |s.registry| > PRUNE_THRESHOLD then Pruned(s.registry, s.handles) else s.registry);
    }
  }

  lemma AcquireInv(s: State, h: nat)
    requires Inv(s) && h in s.handles && !s.handles[h].phase.Guard?
    ensures Inv(Acquired(s, h))
  {
    var e := Acquired(s, h);
    forall c | c in e.counters ensures e.counters[c].value == |GuardsOn(e.handles, c)| {
      GuardGained(s.handles, h, c);
    }
    assert e.handles.Keys == s.handles.Keys;
  }

  lemma ReleasePositive(s: State, h: nat)
    requires Inv(s) && h in s.handles && s.handles[h].phase.Guard?
    ensures 0 < ValueOf(s, h) < U64
  {
    assert h in GuardsOn(s.handles, s.handles[h].counter);
    GuardsFit(s, s.handles[h].counter);
  }

  lemma ReleasedInv(s: State, h: nat, v: nat)
    requires Inv(s) && h in s.handles && s.handles[h].phase.Guard? && ValueOf(s, h) == v + 1
    ensures Inv(Released(s, h, v))
  {
    var e := Released(s, h, v);
    forall c | c in e.counters ensures e.counters[c].value == |GuardsOn(e.handles, c)| {
      GuardLost(s.handles, h, c);
    }
    assert e.handles.Keys == s.handles.Keys;
  }

  lemma ReleaseInv(s: State, h: nat)
    requires Inv(s) && h in s.handles && s.handles[h].phase.Guard?
    ensures ValueOf(s, h) > 0 && Inv(Next(s, Release(h)))
  {
    ReleasePositive(s, h);
    ReleasedInv(s, h, ValueOf(s, h) - 1);
  }

  lemma DropInv(s: State, h: nat)
    requires Inv(s) && h in s.handles && s.handles[h].phase.Plain?
    ensures Inv(s.(handles := s.handles - {h}))
  {
    var t := s.handles - {h};
    SubsetSize(t.Keys, s.handles.Keys);
    forall d | d in s.counters ensures s.counters[d].value == |GuardsOn(t, d)| {
      PlainChange(s.handles, t, d);
    }
  }

  lemma RephaseInv(s: State, h: nat, p: Phase)
    requires Inv(s) && h in s.handles && !s.handles[h].phase.Guard? && !p.Guard?
    ensures Inv(WithPhase(s, h, p))
  {
    var e := WithPhase(s, h, p);
    assert e.handles.Keys == s.handles.Keys;
    forall d | d in s.counters ensures s.counters[d].value == |GuardsOn(e.handles, d)| {
      PlainChange(s.handles, e.handles, d);
    }
  }

  lemma BeginInv(s: State, h: nat, max: nat)
    requires Inv(s) && Enabled(s, Begin(h, max))
    ensures Inv(Next(s, Begin(h, max)))
  {
    if max == 0 { AcquireInv(s, h); } else { RephaseInv(s, h, Trying(ValueOf(s, h), max)); }
  }

  lemma TryInv(s: State, h: nat, spurious: bool)
    requires Inv(s) && Enabled(s, Try(h, spurious))
    ensures Inv(Next(s, Try(h, spurious)))
  {
    var p := s.handles[h].phase;
    if p.seen >= p.max {
      RephaseInv(s, h, Plain);
    } else if ValueOf(s, h) == p.seen && !spurious {
      AcquireInv(s, h);
    } else {
      RephaseInv(s, h, Trying(ValueOf(s, h), p.max));
    }
  }

  lemma NextInv(s: State, step: Step)
    requires Inv(s) && Enabled(s, step) && |s.handles| + 1 < U64
    ensures Inv(Next(s, step))
  {
    match step
    case Lookup(url) => LookupInv(s, url);
    case CloneHandle(h) => ShareInv(s, s.handles[h].counter);
    case DropHandle(h) => DropInv(s, h);
    case Begin(h, max) => BeginInv(s, h, max);
    case Try(h, spurious) => TryInv(s, h, spurious);
    case Release(h) => ReleaseInv(s, h);
  }

  // ---- runs ----

  /** Every step of the run is possible where it is taken. */
  ghost predicate Possible(s: State, steps: seq<Step>) {
    steps == [] || (
      Possible(s, steps[..|steps| - 1]) && |Run(s, steps[..|steps| - 1]).handles| + 1 < U64
      && Enabled(Run(s, steps[..|steps| - 1]), steps[|steps| - 1]))
  }

  function Run(s: State, steps: seq<Step>): State {
    if steps == [] then s
    else
      var m := Run(s, steps[..|steps| - 1]);
      if Enabled(m, steps[|steps| - 1]) then Next(m, steps[|steps| - 1]) else m
  }

  lemma {:induction false} RunInv(steps: seq<Step>)
    requires Possible(Empty, steps)
    ensures Inv(Run(Empty, steps))
  {
    if steps != [] {
      RunInv(steps[..|steps| - 1]);
      NextInv(Run(Empty, steps[..|steps| - 1]), steps[|steps| - 1]);
    } else {
      assert Run(Empty, steps) == Empty;
    }
  }

  // ---- main results ----

  /** Two handles of one URL share one counter. */
  lemma OneCounterPerUrl(steps: seq<Step>, g: nat, h: nat)
    requires Possible(Empty, steps)
    requires var s := Run(Empty, steps); g in s.handles && h in s.handles
    ensures var s := Run(Empty, steps);
            && s.handles[g].counter in s.counters && s.handles[h].counter in s.counters
            && (s.counters[s.handles[g].counter].url == s.counters[s.handles[h].counter].url
                <==> s.handles[g].counter == s.handles[h].counter)
  {
    RunInv(steps);
  }

  /** The counter a handle sees is the number of guards of its URL. */
  lemma HandleSeesAllGuards(s: State, h: nat)
    requires Inv(s) && h in s.handles
    ensures ValueOf(s, h) == |GuardsFor(s, s.counters[s.handles[h].counter].url)|
  {
    var c := s.handles[h].counter;
    assert GuardsFor(s, s.counters[c].url) == GuardsOn(s.handles, c);
  }

  /** Conservation: looking a URL up, as every rebuild does for every target, yields a counter that
      shows exactly the connections open to that URL. */
  lemma LookupSeesConnections(steps: seq<Step>, url: string)
    requires Possible(Empty, steps) && |Run(Empty, steps).handles| + 1 < U64
    ensures var s := Run(Empty, steps);
            var e := Next(s, Lookup(url));
            s.nextHandle in e.handles && ValueOf(e, s.nextHandle) == |GuardsFor(s, url)|
  {
    RunInv(steps);
    LookupCounts(Run(Empty, steps), url);
  }

  lemma LookupCounts(s: State, url: string)
    requires Inv(s) && |s.handles| + 1 < U64
    ensures var e := LookedUp(s, url);
            s.nextHandle in e.handles && ValueOf(e, s.nextHandle) == |GuardsFor(s, url)|
  {
    var e := LookedUp(s, url);
    LookupInv(s, url);
    HandleSeesAllGuards(e, s.nextHandle);
    LookupLeavesGuards(s, url);
  }

  lemma LookupLeavesGuards(s: State, url: string)
    requires Inv(s)
    ensures var e := LookedUp(s, url);
            && s.nextHandle in e.handles && e.handles[s.nextHandle].counter in e.counters
            && e.counters[e.handles[s.nextHandle].counter].url == url
            && GuardsFor(e, url) == GuardsFor(s, url)
  {
  }

  /** A release finds a positive counter. */
  lemma ReleaseNeverUnderflows(steps: seq<Step>, h: nat)
    requires Possible(Empty, steps) && Enabled(Run(Empty, steps), Release(h))
    ensures ValueOf(Run(Empty, steps), h) > 0
  {
    RunInv(steps);
    ReleasePositive(Run(Empty, steps), h);
  }

  /** Every acquisition of the run uses a limit between 1 and `max`. */
  predicate LimitedBy(steps: seq<Step>, max: nat) {
    forall i :: 0 <= i < |steps| && steps[i].Begin? ==> 1 <= steps[i].max <= max
  }

  ghost predicate WithinLimit(s: State, max: nat) {
    && (forall c :: c in s.counters ==> s.counters[c].value <= max)
    && (forall h :: h in s.handles && s.handles[h].phase.Trying? ==> s.handles[h].phase.max <= max)
  }

  /** With a limit in force no URL ever has more open connections than the limit. */
  lemma {:induction false} LimitHolds(steps: seq<Step>, max: nat)
    requires Possible(Empty, steps) && LimitedBy(steps, max)
    ensures WithinLimit(Run(Empty, steps), max)
  {
    if steps == [] {
      assert Run(Empty, steps) == Empty;
    } else {
      var front := steps[..|steps| - 1];
      LimitHolds(front, max);
      RunInv(front);
      LimitStep(Run(Empty, front), steps[|steps| - 1], max);
    }
  }

  lemma RephaseLimit(s: State, h: nat, p: Phase, max: nat)
    requires WithinLimit(s, max) && h in s.handles && (p.Trying? ==> p.max <= max)
    ensures WithinLimit(WithPhase(s, h, p), max)
  {
  }

  lemma AcquireLimit(s: State, h: nat, max: nat)
    requires WithinLimit(s, max) && h in s.handles && ValueOf(s, h) < max
    ensures WithinLimit(Acquired(s, h), max)
  {
  }

  lemma LimitStep(s: State, step: Step, max: nat)
    requires Inv(s) && Enabled(s, step) && WithinLimit(s, max)
    requires step.Begin? ==> 1 <= step.max <= max
    ensures WithinLimit(Next(s, step), max)
  {
    match step
    case Release(h) => ReleaseLimit(s, h, max);
    case Lookup(url) => LookupLimit(s, url, max);
    case Begin(h, m) => RephaseLimit(s, h, Trying(ValueOf(s, h), m), max);
    case Try(h, spurious) =>
      var p := s.handles[h].phase;
      RephaseLimit(s, h, Plain, max);
      RephaseLimit(s, h, Trying(ValueOf(s, h), p.max), max);
      if p.seen < p.max && ValueOf(s, h) == p.seen { AcquireLimit(s, h, max); }
      hide Inv, WithinLimit;
    case _ => hide Inv;
  }

  lemma ReleaseLimit(s: State, h: nat, max: nat)
    requires Inv(s) && WithinLimit(s, max) && Enabled(s, Release(h))
    ensures WithinLimit(Next(s, Release(h)), max)
  {
    ReleasePositive(s, h);
    hide Inv, Counted, Registered, GuardsOn;
    assert Next(s, Release(h)).counters.Keys == s.counters.Keys;
  }

  lemma LookupLimit(s: State, url: string, max: nat)
    requires WithinLimit(s, max)
    ensures WithinLimit(LookedUp(s, url), max)
  {
  }

  lemma ConnectionsWithinLimit(steps: seq<Step>, max: nat, url: string)
    requires Possible(Empty, steps) && LimitedBy(steps, max)
    ensures |GuardsFor(Run(Empty, steps), url)| <= max
  {
    var s := Run(Empty, steps);
    RunInv(steps);
    LimitHolds(steps, max);
    if h :| h in GuardsFor(s, url) {
      HandleSeesAllGuards(s, h);
    }
  }
}
