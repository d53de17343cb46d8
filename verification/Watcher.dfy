/** The loop that watches Consul's health checks (src/consul/watcher.rs, 35-126). */
module Watcher {
  import opened Prelude
  import opened Health
  import opened RouteTables

  const MAX_BACKOFF := 60

  datatype Snapshot = Snapshot(checks: seq<HealthCheck>, index: nat)

  /** What the outside answers during one turn of the loop: to the blocking query, which is asked
      only if nothing is pending, to the rebuild of the routes, and to the send. */
  datatype Input = Input(fetched: Option<Snapshot>, routes: Option<seq<RouteDef>>, open: bool)

  /** What one turn does; `isNew` tells a fetched snapshot from a pending one. */
  datatype Turn =
    | FetchFailed(slept: nat)
    | Unchanged(index: nat, paused: nat)
    | Delivered(snapshot: Snapshot, isNew: bool, routes: seq<RouteDef>)
    | RebuildFailed(snapshot: Snapshot, isNew: bool, slept: nat)

  /** What goes to the channel; the text of an error is left out. */
  datatype Update = Services(routes: seq<RouteDef>) | Error

  datatype Monitor = Monitor(lastIndex: nat, backoff: nat, pending: Option<Snapshot>, running: bool)

  const Start := Monitor(0, 1, None, true)

  /** How long the loop waits, in milliseconds, when Consul gives no index; `wait` is the configured
      one. */
  function Pause(wait: nat): (ms: nat)
    ensures ms > 0
  {
    if wait == 0 then 5000 else wait
  }

  function Doubled(backoff: nat): nat { Min(backoff * 2, MAX_BACKOFF) }

  /** One turn of the loop. */
  function Next(wait: nat, m: Monitor, i: Input): (Monitor, Turn) {
    if m.pending.None? && i.fetched.None? then
      (m.(backoff := Doubled(m.backoff)), FetchFailed(m.backoff))
    else
      var s := if m.pending.Some? then m.pending.value else i.fetched.value;
      if s.index == m.lastIndex then
        (m.(backoff := 1, pending := None), Unchanged(s.index, if s.index == 0 then Pause(wait) else 0))
      else match i.routes
           case Some(routes) => (Monitor(s.index, 1, None, i.open), Delivered(s, m.pending.None?, routes))
           case None =>
             (m.(backoff := Doubled(m.backoff), pending := Some(s)), RebuildFailed(s, m.pending.None?, m.backoff))
  }

  function Run(wait: nat, inputs: seq<Input>): (Monitor, seq<Turn>) {
    if inputs == [] then (Start, [])
    else
      var (m, turns) := Run(wait, inputs[..|inputs| - 1]);
      if m.running then
        var (n, t) := Next(wait, m, inputs[|inputs| - 1]);
        (n, turns + [t])
      else (m, turns)
  }

  lemma {:induction false} StoppedRun(wait: nat, inputs: seq<Input>, k: nat)
    requires k <= |inputs| && !Run(wait, inputs[..k]).0.running
    ensures Run(wait, inputs) == Run(wait, inputs[..k])
  {
    if k == |inputs| {
      assert inputs[..k] == inputs;
    } else {
      assert inputs[..|inputs| - 1][..k] == inputs[..k];
      StoppedRun(wait, inputs[..|inputs| - 1], k);
    }
  }

  /** Where the loop stands after its first k turns, and what it has sent. */
  ghost predicate After(wait: nat, inputs: seq<Input>, k: nat, m: Monitor, turns: seq<Turn>, sent: seq<Update>) {
    k <= |inputs| && Run(wait, inputs[..k]) == (m, turns) && sent == Sent(turns)
  }

  lemma AfterNothing(wait: nat, inputs: seq<Input>)
    ensures After(wait, inputs, 0, Start, [], [])
  {
  }

  lemma AfterOneMore(wait: nat, inputs: seq<Input>, k: nat, m: Monitor, turns: seq<Turn>, sent: seq<Update>)
    requires After(wait, inputs, k, m, turns, sent) && k < |inputs| && m.running
    ensures var (n, t) := Next(wait, m, inputs[k]);
            After(wait, inputs, k + 1, n, turns + [t], sent + UpdateOf(t))
  {
    hide Next, UpdateOf;
    var t := Next(wait, m, inputs[k]).1;
    assert inputs[..k + 1][..k] == inputs[..k];
    SentOne(turns, t);
  }

  lemma AfterStop(wait: nat, inputs: seq<Input>, k: nat, m: Monitor, turns: seq<Turn>, sent: seq<Update>)
    requires After(wait, inputs, k, m, turns, sent) && !m.running
    ensures (m, turns) == Run(wait, inputs) && sent == Sent(turns)
  {
    StoppedRun(wait, inputs, k);
  }

  lemma AfterAll(wait: nat, inputs: seq<Input>, m: Monitor, turns: seq<Turn>, sent: seq<Update>)
    requires After(wait, inputs, |inputs|, m, turns, sent)
    ensures (m, turns) == Run(wait, inputs) && sent == Sent(turns)
  {
    assert inputs[..|inputs|] == inputs;
  }

  /** The body of the loop, with the values it keeps. */
  method TakeTurn(wait: nat, m: Monitor, input: Input) returns (n: Monitor, turn: Turn, sent: seq<Update>)
    requires m.running
    ensures (n, turn) == Next(wait, m, input) && sent == UpdateOf(turn)
  {
    var lastIndex, backoff, pending := m.lastIndex, m.backoff, m.pending;
    var isNew, snapshot := pending.None?, Snapshot([], 0);
    if pending.Some? {
      snapshot := pending.value;
      pending := None;
    } else {
      if input.fetched.None? {
        sent, turn := [Error], FetchFailed(backoff);
        backoff := Min(backoff * 2, 60);
        return Monitor(lastIndex, backoff, pending, true), turn, sent;
      }
      snapshot := input.fetched.value;
    }
    if snapshot.index == lastIndex {
      var paused := 0;
      if lastIndex == 0 {
        paused := if wait == 0 then 5000 else wait;
      }
      backoff := 1;
      return Monitor(lastIndex, backoff, pending, true), Unchanged(snapshot.index, paused), [];
    }
    match input.routes
    case Some(routes) =>
      lastIndex := snapshot.index;
      backoff := 1;
      return Monitor(lastIndex, backoff, pending, input.open), Delivered(snapshot, isNew, routes), [Services(routes)];
    case None =>
      turn := RebuildFailed(snapshot, isNew, backoff);
      pending := Some(snapshot);
      backoff := Min(backoff * 2, 60);
      return Monitor(lastIndex, backoff, pending, true), turn, [Error];
  }

  /** The loop, until the answers run out or the channel closes. */
  method Watch(wait: nat, inputs: seq<Input>) returns (end: Monitor, turns: seq<Turn>, sent: seq<Update>)
    ensures (end, turns) == Run(wait, inputs) && sent == Sent(turns)
  {
    end, turns, sent := Start, [], [];
    AfterNothing(wait, inputs);
    hide After, Run, Sent, Next, UpdateOf;
    for k := 0 to |inputs|
      invariant end.running && After(wait, inputs, k, end, turns, sent)
    {
      AfterOneMore(wait, inputs, k, end, turns, sent);
      var next, turn, updates := TakeTurn(wait, end, inputs[k]);
      end, turns, sent := next, turns + [turn], sent + updates;
      if !end.running {
        AfterStop(wait, inputs, k + 1, end, turns, sent);
        return;
      }
    }
    AfterAll(wait, inputs, end, turns, sent);
  }

  // ---- what the turns say on their own ----

  function UpdateOf(t: Turn): seq<Update> {
    match t
    case Delivered(_, _, routes) => [Services(routes)]
    case Unchanged(_, _) => []
    case _ => [Error]
  }

  /** What goes to the channel: the routes of every delivery and an error for every failure. */
  function Sent(turns: seq<Turn>): seq<Update> {
    if turns == [] then [] else Sent(turns[..|turns| - 1]) + UpdateOf(turns[|turns| - 1])
  }

  lemma SentOne(turns: seq<Turn>, t: Turn)
    ensures Sent(turns + [t]) == Sent(turns) + UpdateOf(t)
  {
    assert (turns + [t])[..|turns|] == turns;
  }

  /** The changed snapshots that were fetched, in order. */
  function Changed(turns: seq<Turn>): seq<Snapshot> {
    if turns == [] then []
    else
      var t := turns[|turns| - 1];
      Changed(turns[..|turns| - 1])
      + if (t.Delivered? || t.RebuildFailed?) && t.isNew then [t.snapshot] else []
  }

  /** The snapshots whose routes were handed over, in order. */
  function Handed(turns: seq<Turn>): seq<Snapshot> {
    if turns == [] then []
    else
      var t := turns[|turns| - 1];
      Handed(turns[..|turns| - 1]) + if t.Delivered? then [t.snapshot] else []
  }

  predicate IsFailure(t: Turn) { t.FetchFailed? || t.RebuildFailed? }

  /** The number of failures since the last turn that was none. */
  function Failures(turns: seq<Turn>): nat {
    if turns != [] && IsFailure(turns[|turns| - 1]) then Failures(turns[..|turns| - 1]) + 1 else 0
  }

  function Pow2(k: nat): nat { if k == 0 then 1 else 2 * Pow2(k - 1) }

  function Backoff(k: nat): nat { Min(Pow2(k), 60) }

  /** How long a failing turn waited is set by the failures before it. */
  ghost predicate WaitsRight(turns: seq<Turn>) {
    turns == [] || (
      var t, front := turns[|turns| - 1], turns[..|turns| - 1];
      WaitsRight(front) && (IsFailure(t) ==> t.slept == Backoff(Failures(front))))
  }

  function LastIndexOf(handed: seq<Snapshot>): nat {
    if handed == [] then 0 else handed[|handed| - 1].index
  }

  /** Milliseconds: nothing for a real index; else what is configured, or five seconds. */
  function Paused(wait: nat, index: nat): nat {
    if index > 0 then 0 else if wait > 0 then wait else 5000
  }

  /** A snapshot is dropped only if it has the index of the routes handed over last, and the loop
      then pauses exactly if there are none, which is when the query did not block. */
  ghost predicate DropsRight(wait: nat, turns: seq<Turn>) {
    turns == [] || (
      var t, front := turns[|turns| - 1], turns[..|turns| - 1];
      DropsRight(wait, front) && (t.Unchanged? ==> t.index == LastIndexOf(Handed(front)) && t.paused == Paused(wait, t.index)))
  }

  function PendingList(m: Monitor): seq<Snapshot> {
    if m.pending.Some? then [m.pending.value] else []
  }

  // ---- what every run keeps ----

  ghost predicate Inv(wait: nat, m: Monitor, turns: seq<Turn>) {
    && (m.pending.Some? ==> m.pending.value.index != m.lastIndex)
    && Changed(turns) == Handed(turns) + PendingList(m)
    && m.lastIndex == LastIndexOf(Handed(turns))
    && m.backoff == Backoff(Failures(turns))
    && WaitsRight(turns) && DropsRight(wait, turns)
  }

  lemma BackoffStep(k: nat)
    ensures Doubled(Backoff(k)) == Backoff(k + 1) && Backoff(0) == 1
  {
    assert Pow2(0) == 1;
  }

  /** What one more turn adds to each account. */
  lemma OneMore(wait: nat, turns: seq<Turn>, t: Turn)
    ensures Changed(turns + [t]) ==
              Changed(turns) + if (t.Delivered? || t.RebuildFailed?) && t.isNew then [t.snapshot] else []
    ensures Handed(turns + [t]) == Handed(turns) + if t.Delivered? then [t.snapshot] else []
    ensures Failures(turns + [t]) == if IsFailure(t) then Failures(turns) + 1 else 0
    ensures WaitsRight(turns + [t]) <==> WaitsRight(turns) && (IsFailure(t) ==> t.slept == Backoff(Failures(turns)))
    ensures DropsRight(wait, turns + [t]) <==>
              DropsRight(wait, turns)
              && (t.Unchanged? ==> t.index == LastIndexOf(Handed(turns)) && t.paused == Paused(wait, t.index))
  {
    hide Backoff, LastIndexOf;
    assert (turns + [t])[..|turns|] == turns;
  }

  lemma TurnInv(wait: nat, m: Monitor, turns: seq<Turn>, i: Input)
    requires Inv(wait, m, turns)
    ensures var (n, t) := Next(wait, m, i); Inv(wait, n, turns + [t])
  {
    hide Changed, Handed, Failures, WaitsRight, DropsRight, Doubled, Backoff;
    var (n, t) := Next(wait, m, i);
    OneMore(wait, turns, t);
    BackoffStep(Failures(turns));
  }

  /** At every time: a pending snapshot has another index than the last one processed, so that the
      retry does not take it for unchanged; the changed snapshots fetched are those handed over and
      then the pending one, so none is lost, repeated or reordered; the last index is that of the
      routes handed over last; k failures in a row make the backoff min(2^k, 60) seconds, and that
      is what every failing turn waited; and a snapshot is dropped as unchanged only when its index
      is that of the routes handed over last, with a pause when there are none. */
  lemma {:induction false} WatchKeeps(wait: nat, inputs: seq<Input>)
    ensures Inv(wait, Run(wait, inputs).0, Run(wait, inputs).1)
  {
    if inputs != [] {
      WatchKeeps(wait, inputs[..|inputs| - 1]);
      var (m, turns) := Run(wait, inputs[..|inputs| - 1]);
      hide Inv, Next;
      if m.running { TurnInv(wait, m, turns, inputs[|inputs| - 1]); }
    } else {
      assert Pow2(0) == 1;
    }
  }

  /** A pending snapshot is the next one handed over: as soon as a rebuild succeeds, its routes go
      out and its index becomes the last one. */
  lemma PendingIsRetried(wait: nat, inputs: seq<Input>, i: Input)
    requires var m := Run(wait, inputs).0; m.running && m.pending.Some?
    ensures var m := Run(wait, inputs).0;
            var (n, t) := Next(wait, m, i);
            match i.routes
            case Some(routes) => t == Delivered(m.pending.value, false, routes) && n.lastIndex == m.pending.value.index
            case None => n.pending == m.pending && n.lastIndex == m.lastIndex
  {
    WatchKeeps(wait, inputs);
  }

  /** Some routes were handed over to a closed channel. */
  ghost predicate HandedToClosed(wait: nat, inputs: seq<Input>) {
    exists k :: 0 <= k < |inputs| && DeliversAt(wait, inputs, k) && !inputs[k].open
  }

  /** Turn k is taken and hands routes over. */
  ghost predicate DeliversAt(wait: nat, inputs: seq<Input>, k: nat)
    requires k < |inputs|
  {
    Run(wait, inputs[..k]).0.running && Next(wait, Run(wait, inputs[..k]).0, inputs[k]).1.Delivered?
  }

  /** The loop stops exactly when it has handed routes over to a closed channel. */
  lemma {:induction false} RunsUntilClosed(wait: nat, inputs: seq<Input>)
    ensures Run(wait, inputs).0.running <==> !HandedToClosed(wait, inputs)
  {
    if inputs != [] {
      var n := |inputs| - 1;
      var front := inputs[..n];
      RunsUntilClosed(wait, front);
      forall k | 0 <= k < n ensures DeliversAt(wait, front, k) <==> DeliversAt(wait, inputs, k) {
        assert front[..k] == inputs[..k];
      }
      assert HandedToClosed(wait, inputs) <==> HandedToClosed(wait, front) || (DeliversAt(wait, inputs, n) && !inputs[n].open) by {
        hide DeliversAt;
        if k :| 0 <= k < |front| && DeliversAt(wait, front, k) && !front[k].open { assert inputs[k] == front[k]; }
        if k :| 0 <= k < |inputs| && DeliversAt(wait, inputs, k) && !inputs[k].open { assert k < n ==> inputs[k] == front[k]; }
      }
      hide HandedToClosed;
    }
  }

  /** One turn sends an error if it fails, its routes if it hands them over, and nothing otherwise. */
  lemma SentExactly(turns: seq<Turn>, t: Turn)
    ensures Sent(turns + [t]) == Sent(turns) +
              if t.FetchFailed? || t.RebuildFailed? then [Error]
              else if t.Delivered? then [Services(t.routes)] else []
  {
    SentOne(turns, t);
  }
}
