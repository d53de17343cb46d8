/** Schedules of the threads of the breaker, and the courses two threads take through it
    (src/route/circuit_breaker.rs, lines 150-408). */
module BreakerSchedules {
  import opened Prelude
  import opened Breaker
  import opened CircuitBreakers
  import opened BreakerThreads

  /** A move of a thread that is, or starts, asking for a request: no result, no abort, no time. */
  predicate AllowMove(move: Move) {
    move.Advance? || (move.Begin? && move.call == CallAllow)
  }

  ghost predicate AllowOnly(moves: seq<Move>) {
    moves == [] || (AllowOnly(moves[..|moves| - 1]) && AllowMove(moves[|moves| - 1]))
  }

  /** Some moves lead from m to e; with `allows`, only requests make them. */
  ghost predicate Leads(cfg: Config, m: System, allows: bool, e: System) {
    exists moves :: (allows ==> AllowOnly(moves)) && Exec(cfg, m, moves) == e
  }

  lemma LeadsNowhere(cfg: Config, m: System, allows: bool)
    ensures Leads(cfg, m, allows, m)
  {
    assert Exec(cfg, m, []) == m;
  }

  lemma LeadsOn(cfg: Config, m: System, allows: bool, e: System, move: Move)
    requires Leads(cfg, m, allows, e) && (allows ==> AllowMove(move))
    ensures Leads(cfg, m, allows, Do(cfg, e, move))
  {
    hide Do;
    var moves :| (allows ==> AllowOnly(moves)) && Exec(cfg, m, moves) == e;
    assert (moves + [move])[..|moves|] == moves;
    assert Exec(cfg, m, moves + [move]) == Do(cfg, e, move);
  }

  /** Thread t goes on by itself. */
  lemma Alone(cfg: Config, m: System, allows: bool, s: Shared, ts: seq<Pc>, t: nat, pc: Pc, s': Shared, pc': Pc)
    requires t < |ts| && Leads(cfg, m, allows, System(s, ts[t := pc])) && (s', pc') == Step(cfg, s, pc, t)
    ensures Leads(cfg, m, allows, System(s', ts[t := pc']))
  {
    hide Step, Leads;
    LeadsOn(cfg, m, allows, System(s, ts[t := pc]), Advance(t));
    assert ts[t := pc][t := pc'] == ts[t := pc'];
  }

  // ---- two threads ----

  /** A window of one outcome, a second to recover, and a single probe. */
  const Second := Config(50, 1, 1, 1)

  /** The two threads, t first. */
  function Pair(t: nat, mine: Pc, other: Pc): seq<Pc> {
    if t == 0 then [mine, other] else [other, mine]
  }

  /** From m one can get to where thread t and the other one stand like this. */
  ghost predicate At(m: System, allows: bool, s: Shared, t: nat, mine: Pc, other: Pc) {
    t < 2 && Leads(Second, m, allows, System(s, Pair(t, mine, other)))
  }

  /** The same, seen by the other thread. */
  lemma Turn(m: System, allows: bool, s: Shared, t: nat, mine: Pc, other: Pc)
    requires At(m, allows, s, t, mine, other)
    ensures At(m, allows, s, 1 - t, other, mine)
  {
    assert Pair(1 - t, other, mine) == Pair(t, mine, other);
  }

  lemma Goes(m: System, allows: bool, s: Shared, t: nat, pc: Pc, other: Pc, s': Shared, pc': Pc)
    requires At(m, allows, s, t, pc, other) && (s', pc') == Step(Second, s, pc, t)
    ensures At(m, allows, s', t, pc', other)
  {
    hide Step, Leads;
    var ts := Pair(t, pc, other);
    assert ts[t := pc] == ts && ts[t := pc'] == Pair(t, pc', other);
    Alone(Second, m, allows, s, ts, t, pc, s', pc');
  }

  // One lemma for each part of the program, so that a schedule looks at one part only.

  lemma Asks(m: System, allows: bool, s: Shared, t: nat, pc: Pc, other: Pc, s': Shared, pc': Pc)
    requires At(m, allows, s, t, pc, other) && InAllow(pc) && (s', pc') == StepAllow(Second, s, pc)
    ensures At(m, allows, s', t, pc', other)
  {
    hide StepAllow, At;
    Goes(m, allows, s, t, pc, other, s', pc');
  }

  lemma Reports(m: System, allows: bool, s: Shared, t: nat, pc: Pc, other: Pc, s': Shared, pc': Pc)
    requires At(m, allows, s, t, pc, other) && InRecord(pc) && (s', pc') == StepRecord(Second, s, pc)
    ensures At(m, allows, s', t, pc', other)
  {
    hide StepRecord, At;
    Goes(m, allows, s, t, pc, other, s', pc');
  }

  lemma Pushes(m: System, allows: bool, s: Shared, t: nat, pc: Pc, other: Pc, s': Shared, pc': Pc)
    requires At(m, allows, s, t, pc, other) && InWindow(pc) && (s', pc') == StepWindow(Second, s, pc, t)
    ensures At(m, allows, s', t, pc', other)
  {
    hide StepWindow, At;
    Goes(m, allows, s, t, pc, other, s', pc');
  }

  predicate InTransition(pc: Pc) {
    pc.CloseLoad? || pc.CloseClear? || pc.CloseCas? || pc.OpenStamp? || pc.OpenStore? || pc.OpenClear? || pc.OpenLoad? ||
    pc.OpenCas? || pc.OpenForce?
  }

  lemma Changes(m: System, allows: bool, s: Shared, t: nat, pc: Pc, other: Pc, s': Shared, pc': Pc)
    requires At(m, allows, s, t, pc, other) && InTransition(pc) && (s', pc') == StepTransition(s, pc)
    ensures At(m, allows, s', t, pc', other)
  {
    hide StepTransition, At;
    Goes(m, allows, s, t, pc, other, s', pc');
  }

  lemma Calls(m: System, allows: bool, s: Shared, t: nat, g: bool, other: Pc, call: Call)
    requires At(m, allows, s, t, Rest(g), other) && (allows ==> call == CallAllow)
    ensures At(m, allows, s, t, Enter(call), other)
  {
    hide Leads;
    var ts := Pair(t, Rest(g), other);
    assert ts[t := Enter(call)] == Pair(t, Enter(call), other);
    LeadsOn(Second, m, allows, System(s, ts), Begin(t, call));
  }

  lemma SecondPasses(m: System, s: Shared, t: nat, mine: Pc, other: Pc)
    requires At(m, false, s, t, mine, other)
    ensures At(m, false, s.(now := s.now + 1000), t, mine, other)
  {
    hide Leads;
    LeadsOn(Second, m, false, System(s, Pair(t, mine, other)), Tick(1000));
  }

  // ---- asking ----

  /** A request that finds the circuit half-open with a probe to give. */
  lemma Arrives(m: System, allows: bool, s: Shared, t: nat, g: bool, other: Pc)
    requires At(m, allows, s, t, Rest(g), other) && s.state == STATE_HALF_OPEN
    ensures At(m, allows, s, t, FlagLoad, other)
  {
    hide At;
    Calls(m, allows, s, t, g, other, CallAllow);
    Asks(m, allows, s, t, AllowLoad, other, s, FlagLoad);
  }

  /** It takes the free flag. */
  lemma Takes(m: System, allows: bool, s: Shared, t: nat, other: Pc)
    requires At(m, allows, s, t, FlagLoad, other) && !s.inFlight
    ensures At(m, allows, s.(inFlight := true, grants := s.grants + 1), t, StampRead, other)
  {
    hide At;
    Asks(m, allows, s, t, FlagLoad, other, s, FlagCas);
    Asks(m, allows, s, t, FlagCas, other, s.(inFlight := true, grants := s.grants + 1), StampRead);
  }

  /** Then it stores its stamp. */
  lemma Leaves(m: System, allows: bool, s: Shared, t: nat, other: Pc)
    requires At(m, allows, s, t, StampRead, other)
    ensures At(m, allows, s.(sentAt := s.now), t, Rest(true), other)
  {
    hide At;
    Asks(m, allows, s, t, StampRead, other, s, SentStore(s.now));
    Asks(m, allows, s, t, SentStore(s.now), other, s.(sentAt := s.now), Rest(true));
  }

  /** It takes a flag whose stamp is too old. */
  lemma TakesStuck(m: System, allows: bool, s: Shared, t: nat, other: Pc)
    requires At(m, allows, s, t, FlagLoad, other) && s.inFlight && Stuck(Second, s.sentAt, s.now)
    ensures At(m, allows, s.(clears := s.clears + 1, grants := s.grants + 1), t, StampRead, other)
  {
    hide At, Stuck;
    Asks(m, allows, s, t, FlagLoad, other, s, SentLoad);
    Asks(m, allows, s, t, SentLoad, other, s, SentCheck(s.sentAt));
    Asks(m, allows, s, t, SentCheck(s.sentAt), other, s, StuckClear);
    TakesCleared(m, allows, s, t, other);
  }

  lemma TakesCleared(m: System, allows: bool, s: Shared, t: nat, other: Pc)
    requires At(m, allows, s, t, StuckClear, other) && s.inFlight
    ensures At(m, allows, s.(clears := s.clears + 1, grants := s.grants + 1), t, StampRead, other)
  {
    hide At;
    Asks(m, allows, s, t, StuckClear, other, Clear(s), FlagCas);
    Asks(m, allows, Clear(s), t, FlagCas, other, s.(clears := s.clears + 1, grants := s.grants + 1), StampRead);
  }

  /** A request that finds the circuit recovered stands before the exchange. */
  lemma Recovers(m: System, s: Shared, t: nat, g: bool, other: Pc)
    requires At(m, false, s, t, Rest(g), other) && s.state == STATE_OPEN && Recovered(Second, s.openedAt, s.now)
    ensures At(m, false, s, t, HalfOpenCas(STATE_OPEN), other)
  {
    hide At, Recovered;
    Calls(m, false, s, t, g, other, CallAllow);
    Asks(m, false, s, t, AllowLoad, other, s, AllowElapsed);
    Asks(m, false, s, t, AllowElapsed, other, s, AllowCheck(s.openedAt));
    Asks(m, false, s, t, AllowCheck(s.openedAt), other, s, HalfOpenLoad);
    Asks(m, false, s, t, HalfOpenLoad, other, s, HalfOpenCas(STATE_OPEN));
  }

  /** It makes the circuit half-open and stands before the clear of the flag. */
  lemma HalfOpens(m: System, s: Shared, t: nat, g: bool, other: Pc)
    requires At(m, false, s, t, Rest(g), other) && s.state == STATE_OPEN && Recovered(Second, s.openedAt, s.now)
    ensures At(m, false, s.(state := STATE_HALF_OPEN), t, HalfOpenClear, other)
  {
    hide At, Recovered;
    Recovers(m, s, t, g, other);
    Asks(m, false, s, t, HalfOpenCas(STATE_OPEN), other, s.(state := STATE_HALF_OPEN), HalfOpenClear);
  }

  /** From there it clears the flag and takes it. */
  lemma ClearsAndTakes(m: System, allows: bool, s: Shared, t: nat, other: Pc)
    requires At(m, allows, s, t, HalfOpenClear, other) && s.state == STATE_HALF_OPEN
    ensures At(m, allows, s.(inFlight := true, clears := s.clears + 1, grants := s.grants + 1), t, StampRead, other)
  {
    hide At;
    Asks(m, allows, s, t, HalfOpenClear, other, Clear(s), AllowLoad);
    Asks(m, allows, Clear(s), t, AllowLoad, other, Clear(s), FlagLoad);
    Takes(m, allows, Clear(s), t, other);
  }

  // ---- opening ----

  /** The circuit opens: the stamp and the clear. */
  lemma Stamps(m: System, s: Shared, t: nat, other: Pc)
    requires At(m, false, s, t, OpenStamp, other)
    ensures At(m, false, s.(openedAt := s.now, inFlight := false, clears := s.clears + 1), t, OpenLoad(0), other)
  {
    hide At;
    var e := s.(openedAt := s.now);
    Changes(m, false, s, t, OpenStamp, other, s, OpenStore(s.now));
    Changes(m, false, s, t, OpenStore(s.now), other, e, OpenClear);
    Changes(m, false, e, t, OpenClear, other, Clear(e), OpenLoad(0));
  }

  lemma Opens(m: System, s: Shared, t: nat, other: Pc)
    requires At(m, false, s, t, OpenCas(s.state, 0), other)
    ensures At(m, false, s.(state := STATE_OPEN), t, Rest(false), other)
  {
    hide At;
    Changes(m, false, s, t, OpenCas(s.state, 0), other, s.(state := STATE_OPEN), Rest(false));
  }

  // ---- the common start ----

  const New := Start(2).shared

  lemma AtStart()
    ensures At(Start(2), false, New, 0, Rest(false), Rest(false))
  {
    assert Start(2).threads == Pair(0, Rest(false), Rest(false));
    LeadsNowhere(Second, Start(2), false);
  }

  const Adding := New.(lock := Some(0))

  lemma FailureLocks()
    ensures At(Start(2), false, Adding, 0, PushAdd, Rest(false))
  {
    hide At;
    AtStart();
    Calls(Start(2), false, New, 0, false, Rest(false), CallError);
    Reports(Start(2), false, New, 0, ErrorLoad, Rest(false), New, PushLock(true));
    Pushes(Start(2), false, New, 0, PushLock(true), Rest(false), Adding, PushAdd);
  }

  const Pushing := Adding.(errorCount := 1)

  lemma FailureAdds()
    ensures At(Start(2), false, Pushing, 0, PushBack(true), Rest(false))
  {
    hide At;
    FailureLocks();
    Pushes(Start(2), false, Adding, 0, PushAdd, Rest(false), Pushing, PushPop(true));
    Pushes(Start(2), false, Pushing, 0, PushPop(true), Rest(false), Pushing, PushBack(true));
  }

  const Pushed := Pushing.(window := [true])

  const Counted := Pushed.(lock := None)

  /** One failure fills the window and trips. */
  lemma FailureTrips()
    ensures At(Start(2), false, Counted, 0, OpenStamp, Rest(false))
  {
    hide At;
    FailureAdds();
    assert [] + [true] == [true];
    Pushes(Start(2), false, Pushing, 0, PushBack(true), Rest(false), Pushed, PushUnlock(true));
    assert MinSamples(Second) == 1 && CounterTrips(Second, Pushed);
    Pushes(Start(2), false, Pushed, 0, PushUnlock(true), Rest(false), Counted, OpenStamp);
  }

  const Opening := Counted.(clears := 1)

  /** The failing thread stands before the exchange that opens. */
  lemma FailureOpens()
    ensures At(Start(2), false, Opening, 0, OpenCas(STATE_CLOSED, 0), Rest(false))
  {
    hide At;
    FailureTrips();
    Stamps(Start(2), Counted, 0, Rest(false));
    Changes(Start(2), false, Opening, 0, OpenLoad(0), Rest(false), Opening, OpenCas(STATE_CLOSED, 0));
  }

  const Recoverable := Opening.(state := STATE_OPEN, now := 1000)

  /** Open, and a second has passed. */
  lemma SecondAfterOpening()
    ensures At(Start(2), false, Recoverable, 0, Rest(false), Rest(false))
  {
    hide At;
    FailureOpens();
    Opens(Start(2), Opening, 0, Rest(false));
    SecondPasses(Start(2), Opening.(state := STATE_OPEN), 0, Rest(false), Rest(false));
  }

  const HalfOpened := Recoverable.(state := STATE_HALF_OPEN)

  const FirstProbe := HalfOpened.(inFlight := true, sentAt := 1000, clears := 2, grants := 1)

  /** The usual course: one thread makes the circuit half-open and is its probe. */
  lemma OneProbeOut()
    ensures At(Start(2), false, FirstProbe, 0, Rest(true), Rest(false))
  {
    hide At;
    SecondAfterOpening();
    HalfOpens(Start(2), Recoverable, 0, false, Rest(false));
    ClearsAndTakes(Start(2), false, HalfOpened, 0, Rest(false));
    Leaves(Start(2), false, FirstProbe.(sentAt := 0), 0, Rest(false));
  }
}
