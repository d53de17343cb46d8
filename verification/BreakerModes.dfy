/** Which changes of mode threads can bring about, and when an open circuit can close at once
    (src/route/circuit_breaker.rs, lines 226-408). */
module BreakerModes {
  import opened Prelude
  import opened Breaker
  import opened CircuitBreakers
  import opened BreakerThreads
  import opened BreakerSchedules

  // ---- which changes occur ----

  function ModeOfByte(b: byte): Mode {
    if StateBits(b) == STATE_CLOSED then ClosedMode else if StateBits(b) == STATE_OPEN then OpenMode else HalfOpenMode
  }

  function ModeAt(m: System): Mode { ModeOfByte(m.shared.state) }

  /** In a state that n threads can reach, the move changes the mode. */
  ghost predicate ChangesAt(cfg: Config, n: nat, m: System, move: Move, from: Mode, to: Mode) {
    && Usable(cfg) && cfg.timeoutSecs >= 1 && Leads(cfg, Start(n), false, m)
    && ModeAt(m) == from && ModeAt(Do(cfg, m, move)) == to
  }

  ghost predicate CanChange(from: Mode, to: Mode) {
    exists cfg, n, m, move :: ChangesAt(cfg, n, m, move, from, to)
  }

  lemma ClosedGoesNowhereElse(cfg: Config, m: System, move: Move)
    requires Usable(cfg) && Inv(cfg, m) && ModeAt(m) == ClosedMode
    ensures ModeAt(Do(cfg, m, move)) != HalfOpenMode
  {
    hide HolderOk;
    if move.Advance? && move.t < |m.threads| {
      assert LocalsOk(cfg, m.threads[move.t]);
    }
  }

  /** Thread t stands before an exchange that will succeed. */
  lemma ChangeSeen(s: Shared, t: nat, mine: Pc, other: Pc, s': Shared, from: Mode, to: Mode)
    requires At(Start(2), false, s, t, mine, other) && Step(Second, s, mine, t).0 == s'
    requires ModeOfByte(s.state) == from && ModeOfByte(s'.state) == to
    ensures CanChange(from, to)
  {
    hide Step, Leads, ModeOfByte;
    assert ChangesAt(Second, 2, System(s, Pair(t, mine, other)), Advance(t), from, to);
  }

  lemma Exchanges(s: Shared, t: nat)
    ensures Step(Second, s, OpenCas(s.state, 0), t).0 == s.(state := STATE_OPEN)
    ensures Step(Second, s, CloseCas(s.state), t).0 == s.(state := STATE_CLOSED)
    ensures s.state == STATE_OPEN ==> Step(Second, s, HalfOpenCas(STATE_OPEN), t).0 == s.(state := STATE_HALF_OPEN)
  {
  }

  lemma ModesOfBytes()
    ensures ModeOfByte(STATE_CLOSED) == ClosedMode && ModeOfByte(STATE_OPEN) == OpenMode
    ensures ModeOfByte(STATE_HALF_OPEN) == HalfOpenMode
  {
  }

  lemma CanOpen()
    ensures CanChange(ClosedMode, OpenMode)
  {
    FailureOpens();
    Exchanges(Opening, 0);
    ModesOfBytes();
    hide At, Step, ModeOfByte;
    ChangeSeen(Opening, 0, OpenCas(STATE_CLOSED, 0), Rest(false), Opening.(state := STATE_OPEN), ClosedMode, OpenMode);
  }

  lemma CanHalfOpen()
    ensures CanChange(OpenMode, HalfOpenMode)
  {
    SecondAfterOpening();
    Exchanges(Recoverable, 0);
    ModesOfBytes();
    hide At, Step, ModeOfByte;
    Recovers(Start(2), Recoverable, 0, false, Rest(false));
    ChangeSeen(Recoverable, 0, HalfOpenCas(STATE_OPEN), Rest(false), HalfOpened, OpenMode, HalfOpenMode);
  }

  const ProbeSucceeded := FirstProbe.(inFlight := false, clears := 3)

  /** The probe has succeeded and its thread stands before the close. */
  lemma BeforeClose()
    ensures At(Start(2), false, ProbeSucceeded, 0, CloseLoad, Rest(false))
  {
    hide At;
    OneProbeOut();
    Calls(Start(2), false, FirstProbe, 0, true, Rest(false), CallSuccess);
    Reports(Start(2), false, FirstProbe, 0, SuccessLoad, Rest(false), FirstProbe, SuccessClear(STATE_HALF_OPEN));
    Reports(Start(2), false, FirstProbe, 0, SuccessClear(STATE_HALF_OPEN), Rest(false), ProbeSucceeded, CloseLoad);
  }

  /** From there the close comes to its exchange, whatever the byte is by then. */
  lemma Closes(s: Shared, other: Pc)
    requires At(Start(2), false, s, 0, CloseLoad, other)
    ensures At(Start(2), false, s.(inFlight := false, clears := s.clears + 1), 0, CloseCas(s.state), other)
  {
    hide At;
    Changes(Start(2), false, s, 0, CloseLoad, other, s, CloseClear(s.state));
    Changes(Start(2), false, s, 0, CloseClear(s.state), other, Clear(s), CloseCas(s.state));
  }

  lemma CanClose()
    ensures CanChange(HalfOpenMode, ClosedMode)
  {
    var s := Clear(ProbeSucceeded);
    BeforeClose();
    Exchanges(s, 0);
    ModesOfBytes();
    hide At, Step, ModeOfByte;
    Closes(ProbeSucceeded, Rest(false));
    ChangeSeen(s, 0, CloseCas(STATE_HALF_OPEN), Rest(false), s.(state := STATE_CLOSED), HalfOpenMode, ClosedMode);
  }

  const Overruled := ProbeSucceeded.(clears := 5, openedAt := 1000)

  lemma ErrorOvertakes()
    ensures At(Start(2), false, Clear(ProbeSucceeded), 1, OpenStamp, CloseLoad)
  {
    hide At;
    BeforeClose();
    var s := ProbeSucceeded;
    Turn(Start(2), false, s, 0, CloseLoad, Rest(false));
    Calls(Start(2), false, s, 1, false, CloseLoad, CallError);
    Reports(Start(2), false, s, 1, ErrorLoad, CloseLoad, s, ErrorClear);
    Reports(Start(2), false, s, 1, ErrorClear, CloseLoad, Clear(s), OpenStamp);
  }

  /** While the close waits, another thread's error is about to open the circuit again. */
  lemma OvertakenByError()
    ensures At(Start(2), false, Overruled, 1, OpenCas(STATE_HALF_OPEN, 0), CloseLoad)
  {
    hide At;
    ErrorOvertakes();
    Stamps(Start(2), Clear(ProbeSucceeded), 1, CloseLoad);
    Changes(Start(2), false, Overruled, 1, OpenLoad(0), CloseLoad, Overruled, OpenCas(STATE_HALF_OPEN, 0));
  }

  const Skipping := Overruled.(state := STATE_OPEN)

  lemma CanReopen()
    ensures CanChange(HalfOpenMode, OpenMode)
  {
    OvertakenByError();
    Exchanges(Overruled, 1);
    ModesOfBytes();
    hide At, Step, ModeOfByte;
    ChangeSeen(Overruled, 1, OpenCas(STATE_HALF_OPEN, 0), CloseLoad, Skipping, HalfOpenMode, OpenMode);
  }

  /** The error has opened the circuit, and the close goes on from there. */
  lemma CanSkipHalfOpen()
    ensures CanChange(OpenMode, ClosedMode)
  {
    var s := Clear(Skipping);
    OvertakenByError();
    Exchanges(s, 0);
    ModesOfBytes();
    hide At, Step, ModeOfByte;
    Opens(Start(2), Overruled, 1, CloseLoad);
    Turn(Start(2), false, Skipping, 1, Rest(false), CloseLoad);
    Closes(Skipping, Rest(false));
    ChangeSeen(s, 0, CloseCas(STATE_OPEN), Rest(false), s.(state := STATE_CLOSED), OpenMode, ClosedMode);
  }

  /** Between threads one step can bring about every change of mode except Closed to Half-open; with
      atomic operations Open to Closed does not occur either. */
  lemma ModeChangesExactly(from: Mode, to: Mode)
    requires from != to
    ensures CanChange(from, to) <==> !(from == ClosedMode && to == HalfOpenMode)
  {
    CanOpen();
    CanHalfOpen();
    CanClose();
    CanReopen();
    CanSkipHalfOpen();
    hide ModeAt;
    if cfg, n, m, move :| ChangesAt(cfg, n, m, move, ClosedMode, HalfOpenMode) {
      var moves :| Exec(cfg, Start(n), moves) == m;
      ExecInv(cfg, n, moves);
      ClosedGoesNowhereElse(cfg, m, move);
    }
  }

  // ---- exactly when an open circuit can close at once ----

  /** The byte is open before the run and after each of its moves. */
  ghost predicate StaysOpen(cfg: Config, m: System, moves: seq<Move>) {
    Exec(cfg, m, moves).shared.state == STATE_OPEN && (moves == [] || StaysOpen(cfg, m, moves[..|moves| - 1]))
  }

  /** The byte stays open up to the last move, which closes the circuit. */
  ghost predicate Skips(cfg: Config, m: System, moves: seq<Move>) {
    moves != [] && StaysOpen(cfg, m, moves[..|moves| - 1]) && Exec(cfg, m, moves).shared.state == STATE_CLOSED
  }

  ghost predicate CanSkip(cfg: Config, m: System) {
    exists moves :: Skips(cfg, m, moves)
  }

  /** A success is on its way to close the circuit and has seen nothing that will stop it. */
  predicate Closing(cfg: Config, pc: Pc) {
    match pc
    case SuccessClear(seen) => ProbeCount(seen) + 1 >= cfg.maxProbes
    case CloseLoad => true
    case CloseClear(current) => current == STATE_OPEN
    case CloseCas(current) => current == STATE_OPEN
    case _ => false
  }

  predicate NotClosing(cfg: Config, pc: Pc) { !Closing(cfg, pc) && LocalsOk(cfg, pc) }

  /** While the byte is open no thread comes to be closing, and no other thread closes. */
  lemma NotClosingStep(cfg: Config, s: Shared, pc: Pc, t: nat)
    requires Usable(cfg) && s.state == STATE_OPEN && NotClosing(cfg, pc)
    ensures KeepsOut(cfg, Step(cfg, s, pc, t))
  {
    NotClosingAllow(cfg, s, pc);
    NotClosingRecord(cfg, s, pc);
    NotClosingWindow(cfg, s, pc, t);
    NotClosingTransition(cfg, s, pc);
    hide StepAllow, StepRecord, StepWindow, StepTransition, KeepsOut, NotClosing;
  }

  ghost predicate KeepsOut(cfg: Config, r: (Shared, Pc)) {
    r.0.state != STATE_CLOSED && !Closing(cfg, r.1)
  }

  lemma NotClosingAllow(cfg: Config, s: Shared, pc: Pc)
    requires s.state == STATE_OPEN && NotClosing(cfg, pc)
    ensures KeepsOut(cfg, StepAllow(cfg, s, pc))
  {
  }

  lemma NotClosingRecord(cfg: Config, s: Shared, pc: Pc)
    requires Usable(cfg) && s.state == STATE_OPEN && NotClosing(cfg, pc)
    ensures KeepsOut(cfg, StepRecord(cfg, s, pc))
  {
  }

  lemma NotClosingWindow(cfg: Config, s: Shared, pc: Pc, t: nat)
    requires s.state == STATE_OPEN && NotClosing(cfg, pc)
    ensures KeepsOut(cfg, StepWindow(cfg, s, pc, t))
  {
  }

  lemma NotClosingTransition(cfg: Config, s: Shared, pc: Pc)
    requires s.state == STATE_OPEN && NotClosing(cfg, pc)
    ensures KeepsOut(cfg, StepTransition(s, pc))
  {
  }

  ghost predicate NobodyCloses(cfg: Config, m: System) {
    forall t :: 0 <= t < |m.threads| ==> !Closing(cfg, m.threads[t])
  }

  lemma NobodyClosesStep(cfg: Config, m: System, move: Move)
    requires Usable(cfg) && m.shared.state == STATE_OPEN && AllLocalsOk(cfg, m.threads) && NobodyCloses(cfg, m)
    ensures NobodyCloses(cfg, Do(cfg, m, move)) && Do(cfg, m, move).shared.state != STATE_CLOSED
  {
    hide Step;
    if move.Advance? && move.t < |m.threads| {
      NotClosingStep(cfg, m.shared, m.threads[move.t], move.t);
    }
  }

  lemma {:induction false} NobodyClosesRun(cfg: Config, m: System, moves: seq<Move>)
    requires Usable(cfg) && Inv(cfg, m) && NobodyCloses(cfg, m) && StaysOpen(cfg, m, moves)
    ensures Inv(cfg, Exec(cfg, m, moves)) && NobodyCloses(cfg, Exec(cfg, m, moves))
  {
    hide Inv, Do, NobodyCloses;
    if moves != [] {
      var front := Exec(cfg, m, moves[..|moves| - 1]);
      NobodyClosesRun(cfg, m, moves[..|moves| - 1]);
      DoInv(cfg, front, moves[|moves| - 1]);
      assert AllLocalsOk(cfg, front.threads) by { InvLocals(cfg, front); }
      NobodyClosesStep(cfg, front, moves[|moves| - 1]);
    }
  }

  lemma InvLocals(cfg: Config, m: System)
    requires Inv(cfg, m)
    ensures AllLocalsOk(cfg, m.threads)
  {
  }

  /** Moves that keep the byte open lead from m to e. */
  ghost predicate OpenLeads(cfg: Config, m: System, e: System) {
    exists moves :: StaysOpen(cfg, m, moves) && Exec(cfg, m, moves) == e
  }

  lemma OpenAlone(cfg: Config, m: System, s: Shared, ts: seq<Pc>, t: nat, pc: Pc, s': Shared, pc': Pc)
    requires t < |ts| && OpenLeads(cfg, m, System(s, ts[t := pc]))
    requires (s', pc') == Step(cfg, s, pc, t)
    ensures s'.state == STATE_OPEN ==> OpenLeads(cfg, m, System(s', ts[t := pc']))
    ensures s'.state == STATE_CLOSED ==> CanSkip(cfg, m)
  {
    hide Step;
    var moves :| StaysOpen(cfg, m, moves) && Exec(cfg, m, moves) == System(s, ts[t := pc]);
    var more := moves + [Advance(t)];
    assert more[..|more| - 1] == moves;
    assert ts[t := pc][t := pc'] == ts[t := pc'];
    assert Exec(cfg, m, more) == System(s', ts[t := pc']);
    assert s'.state == STATE_CLOSED ==> Skips(cfg, m, more);
  }

  /** A closing thread closes the open circuit by itself. */
  lemma ClosingSkips(cfg: Config, m: System, s: Shared, ts: seq<Pc>, t: nat, pc: Pc)
    requires s.state == STATE_OPEN && t < |ts| && Closing(cfg, pc) && OpenLeads(cfg, m, System(s, ts[t := pc]))
    ensures CanSkip(cfg, m)
    decreases if pc.SuccessClear? then 3 else if pc.CloseLoad? then 2 else if pc.CloseClear? then 1 else 0
  {
    hide OpenLeads, CanSkip;
    var (s', pc') := Step(cfg, s, pc, t);
    OpenAlone(cfg, m, s, ts, t, pc, s', pc');
    if !pc.CloseCas? { ClosingSkips(cfg, m, s', ts, t, pc'); }
  }

  /** From every reachable state in which the circuit is open, it can be closed without being anything
      else in between exactly when some thread is on its way to close it: a success that saw it
      half-open and completes the probes, before or inside the close, and has not read another byte. */
  lemma SkipsExactly(cfg: Config, n: nat, moves: seq<Move>)
    requires Usable(cfg) && Exec(cfg, Start(n), moves).shared.state == STATE_OPEN
    ensures var m := Exec(cfg, Start(n), moves);
            CanSkip(cfg, m) <==> exists t :: 0 <= t < |m.threads| && Closing(cfg, m.threads[t])
  {
    var m := Exec(cfg, Start(n), moves);
    ExecInv(cfg, n, moves);
    if t :| 0 <= t < |m.threads| && Closing(cfg, m.threads[t]) {
      assert Exec(cfg, m, []) == m && StaysOpen(cfg, m, []);
      assert m.threads[t := m.threads[t]] == m.threads;
      ClosingSkips(cfg, m, m.shared, m.threads, t, m.threads[t]);
    } else if more :| Skips(cfg, m, more) {
      NobodyClosesRun(cfg, m, more[..|more| - 1]);
      NobodyClosesStep(cfg, Exec(cfg, m, more[..|more| - 1]), more[|more| - 1]);
      assert false;
    }
  }
}
