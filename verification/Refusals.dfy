/** That connection slots are refused only for a reason, and granted when there is room, whatever the
    other threads do (src/route/target.rs, 284-305; src/route/target_stats.rs, 13-50). */
module Refusals {
  import opened Prelude
  import opened Connections

  // ---- the past of a run ----

  lemma {:induction false} PrefixPossible(steps: seq<Step>, k: nat)
    requires Possible(Empty, steps) && k <= |steps|
    ensures Possible(Empty, steps[..k])
  {
    if k < |steps| {
      assert steps[..|steps| - 1][..k] == steps[..k];
      PrefixPossible(steps[..|steps| - 1], k);
    } else {
      assert steps[..k] == steps;
    }
  }

  /** Counters stay and keep their URL. */
  ghost predicate Grows(s: State, e: State) {
    forall c :: c in s.counters ==> c in e.counters && e.counters[c].url == s.counters[c].url
  }

  lemma StepGrows(s: State, step: Step)
    requires Inv(s) && Enabled(s, step)
    ensures Grows(s, Next(s, step))
  {
    hide Registered, Counted, Alive, Pruned, GuardsOn;
  }

  lemma {:induction false} RunGrows(steps: seq<Step>, k: nat)
    requires Possible(Empty, steps) && k <= |steps|
    ensures Grows(Run(Empty, steps[..k]), Run(Empty, steps))
  {
    if k < |steps| {
      var front := steps[..|steps| - 1];
      assert front[..k] == steps[..k];
      RunGrows(front, k);
      RunInv(front);
      hide Inv, Next, Enabled;
      StepGrows(Run(Empty, front), steps[|steps| - 1]);
    } else {
      assert steps[..k] == steps;
    }
  }

  // ---- what a trying handle has seen ----

  /** The step is the handle's own, and loads the counter. */
  predicate Loads(step: Step, h: nat) {
    (step.Begin? || step.Try?) && step.h == h
  }

  /** Step k is the last in which the handle loaded its counter, c, which had this value then. */
  ghost predicate Saw(steps: seq<Step>, k: nat, h: nat, c: nat, value: nat) {
    && k < |steps| && Loads(steps[k], h) && (forall j :: k < j < |steps| ==> !Loads(steps[j], h))
    && h in Run(Empty, steps[..k]).handles
    && Run(Empty, steps[..k]).handles[h].counter == c && ValueOf(Run(Empty, steps[..k]), h) == value
  }

  lemma SawEarlier(steps: seq<Step>, step: Step, k: nat, h: nat, c: nat, value: nat)
    requires Saw(steps, k, h, c, value) && !Loads(step, h)
    ensures Saw(steps + [step], k, h, c, value)
  {
    assert (steps + [step])[..k] == steps[..k];
  }

  /** A step leaves a trying handle alone, or makes it try with the value of this moment. */
  lemma TryingAfter(s: State, step: Step, h: nat)
    requires Inv(s) && Enabled(s, step)
    requires h in Next(s, step).handles && Next(s, step).handles[h].phase.Trying?
    ensures h in s.handles && Next(s, step).handles[h].counter == s.handles[h].counter
    ensures if Loads(step, h) then Next(s, step).handles[h].phase.seen == ValueOf(s, h)
            else Next(s, step).handles[h] == s.handles[h]
  {
    hide Registered, Counted, Alive, Pruned, GuardsOn;
  }

  /** The value a handle tries with is one that its counter had at some moment of the run. */
  lemma {:induction false} TryingSaw(steps: seq<Step>, h: nat)
    requires Possible(Empty, steps)
    requires h in Run(Empty, steps).handles && Run(Empty, steps).handles[h].phase.Trying?
    ensures exists k :: Saw(steps, k, h, Run(Empty, steps).handles[h].counter, Run(Empty, steps).handles[h].phase.seen)
  {
    if steps != [] {
      var front, step := steps[..|steps| - 1], steps[|steps| - 1];
      var s, e := Run(Empty, front), Run(Empty, steps);
      assert steps == front + [step];
      RunInv(front);
      TryingAfter(s, step, h);
      hide Inv, Next, Enabled;
      var c, seen := e.handles[h].counter, e.handles[h].phase.seen;
      if !Loads(step, h) {
        TryingSaw(front, h);
        var k: nat :| Saw(front, k, h, c, seen);
        SawEarlier(front, step, k, h, c, seen);
      } else {
        assert steps[..|front|] == front;
        assert Saw(steps, |front|, h, c, seen);
      }
    }
  }

  /** When the handle last loaded its counter, the URL had this many open connections or more. */
  ghost predicate WasFull(steps: seq<Step>, k: nat, h: nat, url: string, max: nat) {
    && k < |steps| && Loads(steps[k], h) && (forall j :: k < j < |steps| ==> !Loads(steps[j], h))
    && |GuardsFor(Run(Empty, steps[..k]), url)| >= max
  }

  lemma SawGuards(steps: seq<Step>, k: nat, h: nat, c: nat, value: nat)
    requires Possible(Empty, steps) && Saw(steps, k, h, c, value)
    ensures var s := Run(Empty, steps);
            c in s.counters && |GuardsFor(Run(Empty, steps[..k]), s.counters[c].url)| == value
  {
    PrefixPossible(steps, k);
    RunInv(steps[..k]);
    RunGrows(steps, k);
    hide Possible, Run, GuardsFor, Registered, Counted;
    HandleSeesAllGuards(Run(Empty, steps[..k]), h);
  }

  /** A slot is refused only if the URL really had as many connections as the limit when the thread last
      looked, whatever the other threads do. */
  lemma RefusalsAreJustified(steps: seq<Step>, h: nat)
    requires Possible(Empty, steps)
    requires h in Run(Empty, steps).handles && Run(Empty, steps).handles[h].phase.Trying?
    requires var p := Run(Empty, steps).handles[h].phase; p.seen >= p.max
    ensures var s := Run(Empty, steps);
            && s.handles[h].counter in s.counters
            && exists k :: WasFull(steps, k, h, s.counters[s.handles[h].counter].url, s.handles[h].phase.max)
  {
    hide Possible, Run, GuardsFor, Saw, Loads;
    var s := Run(Empty, steps);
    TryingSaw(steps, h);
    var k: nat :| Saw(steps, k, h, s.handles[h].counter, s.handles[h].phase.seen);
    SawGuards(steps, k, h, s.handles[h].counter, s.handles[h].phase.seen);
    SawWithin(steps, k, h, s.handles[h].counter, s.handles[h].phase.seen);
    assert WasFull(steps, k, h, s.counters[s.handles[h].counter].url, s.handles[h].phase.max);
  }

  lemma SawWithin(steps: seq<Step>, k: nat, h: nat, c: nat, value: nat)
    requires Saw(steps, k, h, c, value)
    ensures k < |steps| && Loads(steps[k], h) && forall j :: k < j < |steps| ==> !Loads(steps[j], h)
  {
  }

  /** What one turn of the exchange loop does, said of the connections open to the URL: refused with a
      count at the limit, granted if the count is below it and still right, and otherwise repeated with
      the count of now. */
  lemma TryExactly(s: State, h: nat, spurious: bool)
    requires Inv(s) && Enabled(s, Try(h, spurious))
    ensures var p, url, e := s.handles[h].phase, s.counters[s.handles[h].counter].url, Next(s, Try(h, spurious));
            var open := |GuardsFor(s, url)|;
            && h in e.handles && e.handles[h].counter == s.handles[h].counter
            && e.handles[h].phase ==
                 (if p.seen >= p.max then Plain
                  else if open == p.seen && !spurious then Guard
                  else Trying(open, p.max))
  {
    HandleSeesAllGuards(s, h);
    hide GuardsFor, Registered, Counted;
  }

  lemma BeginExactly(s: State, h: nat, max: nat)
    requires Inv(s) && Enabled(s, Begin(h, max))
    ensures var url, e := s.counters[s.handles[h].counter].url, Next(s, Begin(h, max));
            && h in e.handles && e.handles[h].counter == s.handles[h].counter
            && e.handles[h].phase == if max == 0 then Guard else Trying(|GuardsFor(s, url)|, max)
  {
    HandleSeesAllGuards(s, h);
    hide GuardsFor, Registered, Counted;
  }

  // ---- without interference ----

  /** Asking for a slot: `failures` exchanges that fail for no reason, then a good one. */
  function Attempt(h: nat, max: nat, failures: nat): seq<Step> {
    [Begin(h, max)] + seq(failures, _ => Try(h, true)) + [Try(h, false)]
  }

  lemma {:induction false} Retries(s: State, h: nat, max: nat, failures: nat)
    requires Inv(s) && h in s.handles && s.handles[h].phase.Plain? && 0 < max && ValueOf(s, h) < max
    ensures var steps := [Begin(h, max)] + seq(failures, _ => Try(h, true));
            Run(s, steps) == WithPhase(s, h, Trying(ValueOf(s, h), max))
  {
    var steps := [Begin(h, max)] + seq(failures, _ => Try(h, true));
    if failures == 0 {
      assert steps == [Begin(h, max)] && steps[..0] == [];
      assert Run(s, []) == s;
    } else {
      Retries(s, h, max, failures - 1);
      assert steps[..|steps| - 1] == [Begin(h, max)] + seq(failures - 1, _ => Try(h, true));
      hide Inv;
    }
  }

  /** A thread that is not disturbed gets a slot exactly when there is room: without a limit, or with
      fewer connections open to the URL than it allows. */
  lemma UndisturbedAttempt(s: State, h: nat, max: nat, failures: nat)
    requires Inv(s) && h in s.handles && s.handles[h].phase.Plain? && 0 < max
    requires |GuardsFor(s, s.counters[s.handles[h].counter].url)| < max
    ensures var e := Run(s, Attempt(h, max, failures)); h in e.handles && e.handles[h].phase == Guard
  {
    var steps := Attempt(h, max, failures);
    HandleSeesAllGuards(s, h);
    Retries(s, h, max, failures);
    assert steps[..|steps| - 1] == [Begin(h, max)] + seq(failures, _ => Try(h, true));
    hide GuardsFor, Inv;
  }

  // ---- the size of the registry ----

  ghost function LiveUrls(s: State): set<string> {
    set u | u in s.registry && Alive(s.handles, s.registry[u])
  }

  /** Registering a URL keeps the registry within 513 entries, or one more than there are live ones. */
  lemma RegistryBounded(s: State, url: string)
    ensures |LookedUp(s, url).registry| <= Max(|s.registry|, Max(513, |LiveUrls(s)| + 1))
  {
    var pruned := Pruned(s.registry, s.handles);
    assert pruned.Keys == LiveUrls(s);
    RegistryInsert(pruned, url, s.nextCounter);
    RegistryInsert(s.registry, url, s.nextCounter);
    hide Alive;
  }

  lemma RegistryInsert(m: map<string, nat>, url: string, c: nat)
    ensures |m[url := c]| <= |m| + 1
  {
    assert m[url := c].Keys == m.Keys + {url};
  }
}
