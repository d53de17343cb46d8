/** A thread that nobody disturbs: its steps through the breaker add up to one operation of the
    automaton (src/route/circuit_breaker.rs, 150-408). */
module BreakerAlone {
  import opened Prelude
  import opened Breaker
  import opened CircuitBreakers
  import opened BreakerThreads

  /** k steps of thread t alone. */
  function Solo(cfg: Config, s: Shared, pc: Pc, t: nat, k: nat): (Shared, Pc) {
    if k == 0 then (s, pc) else var (e, q) := Solo(cfg, s, pc, t, k - 1); BreakerThreads.Step(cfg, e, q, t)
  }

  /** The thread gets there by itself. */
  ghost predicate Gets(cfg: Config, s: Shared, pc: Pc, t: nat, e: Shared, q: Pc) {
    exists k :: Solo(cfg, s, pc, t, k) == (e, q)
  }

  lemma Starts(cfg: Config, s: Shared, pc: Pc, t: nat)
    ensures Gets(cfg, s, pc, t, s, pc)
  {
    assert Solo(cfg, s, pc, t, 0) == (s, pc);
  }

  lemma Goes(cfg: Config, s: Shared, pc: Pc, t: nat, e: Shared, q: Pc, e': Shared, q': Pc)
    requires Gets(cfg, s, pc, t, e, q) && BreakerThreads.Step(cfg, e, q, t) == (e', q')
    ensures Gets(cfg, s, pc, t, e', q')
  {
    hide BreakerThreads.Step;
    var k: nat :| Solo(cfg, s, pc, t, k) == (e, q);
    assert Solo(cfg, s, pc, t, k + 1) == (e', q');
  }

  lemma Asks(cfg: Config, s: Shared, pc: Pc, t: nat, e: Shared, q: Pc, e': Shared, q': Pc)
    requires Gets(cfg, s, pc, t, e, q) && InAllow(q) && StepAllow(cfg, e, q) == (e', q')
    ensures Gets(cfg, s, pc, t, e', q')
  {
    hide StepAllow, Gets;
    Goes(cfg, s, pc, t, e, q, e', q');
  }

  lemma Reports(cfg: Config, s: Shared, pc: Pc, t: nat, e: Shared, q: Pc, e': Shared, q': Pc)
    requires Gets(cfg, s, pc, t, e, q) && InRecord(q) && StepRecord(cfg, e, q) == (e', q')
    ensures Gets(cfg, s, pc, t, e', q')
  {
    hide StepRecord, Gets;
    Goes(cfg, s, pc, t, e, q, e', q');
  }

  lemma Pushes(cfg: Config, s: Shared, pc: Pc, t: nat, e: Shared, q: Pc, e': Shared, q': Pc)
    requires Gets(cfg, s, pc, t, e, q) && InWindow(q) && StepWindow(cfg, e, q, t) == (e', q')
    ensures Gets(cfg, s, pc, t, e', q')
  {
    hide StepWindow, Gets;
    Goes(cfg, s, pc, t, e, q, e', q');
  }

  lemma Changes(cfg: Config, s: Shared, pc: Pc, t: nat, e: Shared, q: Pc, e': Shared, q': Pc)
    requires Gets(cfg, s, pc, t, e, q) && !InAllow(q) && !InRecord(q) && !InWindow(q) && StepTransition(e, q) == (e', q')
    ensures Gets(cfg, s, pc, t, e', q')
  {
    hide StepTransition, Gets;
    Goes(cfg, s, pc, t, e, q, e', q');
  }

  // ---- what the shared values mean ----

  /** The automaton's phase; the outcomes known in Closed are those in the window. */
  function PhaseOf(s: Shared): Breaker.Phase {
    if StateBits(s.state) == STATE_CLOSED then Closed(s.window)
    else if StateBits(s.state) == STATE_OPEN then Open(s.openedAt)
    else HalfOpen(ProbeCount(s.state), if s.inFlight then InFlight(s.sentAt) else Free)
  }

  function Means(s: Shared): State { State(PhaseOf(s), []) }

  /** The shared values are in order and no thread is inside the locked region. */
  ghost predicate AtRest(cfg: Config, s: Shared) {
    && Usable(cfg) && cfg.windowSize + 1 < U64 && Decodes(s.state, cfg.maxProbes) && s.lock == None
    && |s.window| <= cfg.windowSize && s.errorCount == Errors(s.window)
  }

  /** The operation ends with this answer in this phase. */
  ghost predicate Ends(cfg: Config, s: Shared, pc: Pc, t: nat, granted: bool, phase: Breaker.Phase) {
    exists e :: Gets(cfg, s, pc, t, e, Rest(granted)) && PhaseOf(e) == phase
  }

  lemma EndsAt(cfg: Config, s: Shared, pc: Pc, t: nat, e: Shared, granted: bool)
    requires Gets(cfg, s, pc, t, e, Rest(granted))
    ensures Ends(cfg, s, pc, t, granted, PhaseOf(e))
  {
    hide Gets, PhaseOf;
  }

  // ---- asking ----

  /** From the flag on, in half-open with a free flag. */
  lemma TakesFree(cfg: Config, s: Shared, pc: Pc, t: nat, e: Shared)
    requires Gets(cfg, s, pc, t, e, FlagCas) && !e.inFlight
    ensures var g := e.(inFlight := true, grants := e.grants + 1, sentAt := e.now);
            Gets(cfg, s, pc, t, g, Rest(true))
  {
    hide Gets;
    var g := e.(inFlight := true, grants := e.grants + 1);
    Asks(cfg, s, pc, t, e, FlagCas, g, StampRead);
    Asks(cfg, s, pc, t, g, StampRead, g, SentStore(g.now));
    Asks(cfg, s, pc, t, g, SentStore(g.now), g.(sentAt := g.now), Rest(true));
  }

  lemma AsksHalfOpenFree(cfg: Config, s: Shared, t: nat)
    requires StateBits(s.state) == STATE_HALF_OPEN && ProbeCount(s.state) < cfg.maxProbes && !s.inFlight
    ensures Gets(cfg, s, AllowLoad, t, s.(inFlight := true, grants := s.grants + 1, sentAt := s.now), Rest(true))
  {
    Starts(cfg, s, AllowLoad, t);
    hide Gets;
    Asks(cfg, s, AllowLoad, t, s, AllowLoad, s, FlagLoad);
    Asks(cfg, s, AllowLoad, t, s, FlagLoad, s, FlagCas);
    TakesFree(cfg, s, AllowLoad, t, s);
  }

  lemma AsksHalfOpenBusy(cfg: Config, s: Shared, t: nat)
    requires StateBits(s.state) == STATE_HALF_OPEN && ProbeCount(s.state) < cfg.maxProbes && s.inFlight
    ensures Gets(cfg, s, AllowLoad, t, s, SentCheck(s.sentAt))
  {
    Starts(cfg, s, AllowLoad, t);
    hide Gets;
    Asks(cfg, s, AllowLoad, t, s, AllowLoad, s, FlagLoad);
    Asks(cfg, s, AllowLoad, t, s, FlagLoad, s, SentLoad);
    Asks(cfg, s, AllowLoad, t, s, SentLoad, s, SentCheck(s.sentAt));
  }

  lemma AsksStuck(cfg: Config, s: Shared, t: nat)
    requires StateBits(s.state) == STATE_HALF_OPEN && ProbeCount(s.state) < cfg.maxProbes && s.inFlight
    requires Stuck(cfg, s.sentAt, s.now)
    ensures Gets(cfg, s, AllowLoad, t, Clear(s).(inFlight := true, grants := s.grants + 1, sentAt := s.now), Rest(true))
  {
    AsksHalfOpenBusy(cfg, s, t);
    hide Gets, Stuck;
    Asks(cfg, s, AllowLoad, t, s, SentCheck(s.sentAt), s, StuckClear);
    Asks(cfg, s, AllowLoad, t, s, StuckClear, Clear(s), FlagCas);
    TakesFree(cfg, s, AllowLoad, t, Clear(s));
  }

  lemma AsksNotStuck(cfg: Config, s: Shared, t: nat)
    requires StateBits(s.state) == STATE_HALF_OPEN && ProbeCount(s.state) < cfg.maxProbes && s.inFlight
    requires !Stuck(cfg, s.sentAt, s.now)
    ensures Gets(cfg, s, AllowLoad, t, s, Rest(false))
  {
    AsksHalfOpenBusy(cfg, s, t);
    hide Gets, Stuck;
    Asks(cfg, s, AllowLoad, t, s, SentCheck(s.sentAt), s, FlagCas);
    Asks(cfg, s, AllowLoad, t, s, FlagCas, s, Rest(false));
  }

  lemma AsksOpen(cfg: Config, s: Shared, t: nat)
    requires s.state == STATE_OPEN
    ensures Gets(cfg, s, AllowLoad, t, s, AllowCheck(s.openedAt))
  {
    Starts(cfg, s, AllowLoad, t);
    hide Gets;
    Asks(cfg, s, AllowLoad, t, s, AllowLoad, s, AllowElapsed);
    Asks(cfg, s, AllowLoad, t, s, AllowElapsed, s, AllowCheck(s.openedAt));
  }

  lemma AsksExchange(cfg: Config, s: Shared, t: nat)
    requires s.state == STATE_OPEN && Recovered(cfg, s.openedAt, s.now)
    ensures Gets(cfg, s, AllowLoad, t, s, HalfOpenCas(STATE_OPEN))
  {
    AsksOpen(cfg, s, t);
    hide Gets, Recovered;
    Asks(cfg, s, AllowLoad, t, s, AllowCheck(s.openedAt), s, HalfOpenLoad);
    Asks(cfg, s, AllowLoad, t, s, HalfOpenLoad, s, HalfOpenCas(STATE_OPEN));
  }

  lemma AsksRecovered(cfg: Config, s: Shared, t: nat)
    requires Usable(cfg) && s.state == STATE_OPEN && Recovered(cfg, s.openedAt, s.now)
    ensures var e := Clear(s.(state := STATE_HALF_OPEN));
            Gets(cfg, s, AllowLoad, t, e.(inFlight := true, grants := s.grants + 1, sentAt := s.now), Rest(true))
  {
    hide Gets, Recovered;
    var h := s.(state := STATE_HALF_OPEN);
    AsksExchange(cfg, s, t);
    Asks(cfg, s, AllowLoad, t, s, HalfOpenCas(STATE_OPEN), h, HalfOpenClear);
    Asks(cfg, s, AllowLoad, t, h, HalfOpenClear, Clear(h), AllowLoad);
    AsksAgain(cfg, s, t, Clear(h));
  }

  lemma AsksAgain(cfg: Config, s: Shared, t: nat, e: Shared)
    requires Usable(cfg) && Gets(cfg, s, AllowLoad, t, e, AllowLoad) && e.state == STATE_HALF_OPEN && !e.inFlight
    ensures Gets(cfg, s, AllowLoad, t, e.(inFlight := true, grants := e.grants + 1, sentAt := e.now), Rest(true))
  {
    hide Gets;
    Asks(cfg, s, AllowLoad, t, e, AllowLoad, e, FlagLoad);
    Asks(cfg, s, AllowLoad, t, e, FlagLoad, e, FlagCas);
    TakesFree(cfg, s, AllowLoad, t, e);
  }

  /** Undisturbed, `allow_request` answers and ends as the automaton does. */
  lemma AllowAlone(cfg: Config, s: Shared, t: nat)
    requires AtRest(cfg, s)
    ensures Ends(cfg, s, AllowLoad, t, Granted(cfg, Means(s), s.now), Allowed(cfg, Means(s), s.now).phase)
  {
    if StateBits(s.state) == STATE_CLOSED {
      Starts(cfg, s, AllowLoad, t);
      Asks(cfg, s, AllowLoad, t, s, AllowLoad, s, Rest(true));
      EndsAt(cfg, s, AllowLoad, t, s, true);
    } else if StateBits(s.state) == STATE_OPEN {
      AllowOpenAlone(cfg, s, t);
    } else {
      AllowHalfOpenAlone(cfg, s, t);
    }
  }

  lemma AllowOpenAlone(cfg: Config, s: Shared, t: nat)
    requires AtRest(cfg, s) && s.state == STATE_OPEN
    ensures Ends(cfg, s, AllowLoad, t, Granted(cfg, Means(s), s.now), Allowed(cfg, Means(s), s.now).phase)
  {
    hide Gets, Ends, Recovered;
    if Recovered(cfg, s.openedAt, s.now) {
      AsksRecovered(cfg, s, t);
      EndsAt(cfg, s, AllowLoad, t, Clear(s.(state := STATE_HALF_OPEN)).(inFlight := true, grants := s.grants + 1, sentAt := s.now), true);
    } else {
      AsksOpen(cfg, s, t);
      Asks(cfg, s, AllowLoad, t, s, AllowCheck(s.openedAt), s, Rest(false));
      EndsAt(cfg, s, AllowLoad, t, s, false);
    }
  }

  lemma AllowHalfOpenAlone(cfg: Config, s: Shared, t: nat)
    requires AtRest(cfg, s) && StateBits(s.state) == STATE_HALF_OPEN
    ensures Ends(cfg, s, AllowLoad, t, Granted(cfg, Means(s), s.now), Allowed(cfg, Means(s), s.now).phase)
  {
    hide Gets, Ends, Stuck;
    if !s.inFlight {
      AsksHalfOpenFree(cfg, s, t);
      EndsAt(cfg, s, AllowLoad, t, s.(inFlight := true, grants := s.grants + 1, sentAt := s.now), true);
    } else if Stuck(cfg, s.sentAt, s.now) {
      AsksStuck(cfg, s, t);
      EndsAt(cfg, s, AllowLoad, t, Clear(s).(inFlight := true, grants := s.grants + 1, sentAt := s.now), true);
    } else {
      AsksNotStuck(cfg, s, t);
      EndsAt(cfg, s, AllowLoad, t, s, false);
    }
  }

  // ---- reporting ----

  /** Undisturbed, `abort_probe` ends as the automaton does. */
  lemma AbortAlone(cfg: Config, s: Shared, t: nat)
    requires AtRest(cfg, s)
    ensures Ends(cfg, s, AbortLoad, t, false, Aborted(Means(s)).phase)
  {
    Starts(cfg, s, AbortLoad, t);
    hide Gets, Ends;
    if StateBits(s.state) == STATE_HALF_OPEN {
      var e := s.(sentAt := 0);
      Reports(cfg, s, AbortLoad, t, s, AbortLoad, s, AbortSent);
      Reports(cfg, s, AbortLoad, t, s, AbortSent, e, AbortClear);
      Reports(cfg, s, AbortLoad, t, e, AbortClear, Clear(e), Rest(false));
      EndsAt(cfg, s, AbortLoad, t, Clear(e), false);
    } else {
      Reports(cfg, s, AbortLoad, t, s, AbortLoad, s, Rest(false));
      EndsAt(cfg, s, AbortLoad, t, s, false);
    }
  }

  /** The window after one more outcome. */
  function Slid(cfg: Config, w: seq<bool>, isError: bool): seq<bool> {
    (if |w| >= cfg.windowSize && w != [] then w[1..] else w) + [isError]
  }

  lemma SlidIsLast(cfg: Config, w: seq<bool>, isError: bool)
    requires cfg.windowSize >= 1 && |w| <= cfg.windowSize
    ensures Slid(cfg, w, isError) == Last(w + [isError], cfg.windowSize)
  {
  }

  /** The locked region: the window slides and the counter follows. */
  lemma PushAlone(cfg: Config, s: Shared, pc: Pc, t: nat, isError: bool)
    requires AtRest(cfg, s) && Gets(cfg, s, pc, t, s, PushLock(isError))
    ensures var w := Slid(cfg, s.window, isError);
            Gets(cfg, s, pc, t, s.(window := w, errorCount := Errors(w), lock := Some(t)), PushUnlock(isError))
  {
    var l := s.(lock := Some(t));
    var a := l.(errorCount := l.errorCount + if isError then 1 else 0);
    PushEnters(cfg, s, pc, t, isError);
    hide Gets;
    PopAlone(cfg, s, pc, t, a, isError);
  }

  // The steps of the locked region, one by one.

  lemma Locks(cfg: Config, s: Shared, t: nat, isError: bool)
    requires s.lock == None
    ensures StepWindow(cfg, s, PushLock(isError), t) == (s.(lock := Some(t)), if isError then PushAdd else PushPop(false))
  {
  }

  lemma Adds(cfg: Config, s: Shared, t: nat)
    requires s.errorCount + 1 < U64
    ensures StepWindow(cfg, s, PushAdd, t) == (s.(errorCount := s.errorCount + 1), PushPop(true))
  {
  }

  lemma Pops(cfg: Config, s: Shared, t: nat, isError: bool)
    ensures StepWindow(cfg, s, PushPop(isError), t) ==
              if |s.window| >= cfg.windowSize && s.window != [] then
                (s.(window := s.window[1..]), if s.window[0] then PushSub(isError) else PushBack(isError))
              else (s, PushBack(isError))
  {
  }

  lemma Subtracts(cfg: Config, s: Shared, t: nat, isError: bool)
    requires 0 < s.errorCount < U64
    ensures StepWindow(cfg, s, PushSub(isError), t) == (s.(errorCount := s.errorCount - 1), PushBack(isError))
  {
  }

  lemma Appends(cfg: Config, s: Shared, t: nat, isError: bool)
    ensures StepWindow(cfg, s, PushBack(isError), t) == (s.(window := s.window + [isError]), PushUnlock(isError))
  {
  }

  lemma PushEnters(cfg: Config, s: Shared, pc: Pc, t: nat, isError: bool)
    requires AtRest(cfg, s) && Gets(cfg, s, pc, t, s, PushLock(isError))
    ensures Gets(cfg, s, pc, t, s.(lock := Some(t), errorCount := s.errorCount + if isError then 1 else 0), PushPop(isError))
  {
    var l := s.(lock := Some(t));
    assert s.errorCount + 1 < U64;
    hide Gets, Errors, StepWindow;
    Locks(cfg, s, t, isError);
    if isError {
      Adds(cfg, l, t);
      Pushes(cfg, s, pc, t, s, PushLock(true), l, PushAdd);
      Pushes(cfg, s, pc, t, l, PushAdd, l.(errorCount := s.errorCount + 1), PushPop(true));
    } else {
      Pushes(cfg, s, pc, t, s, PushLock(false), l, PushPop(false));
    }
  }

  lemma PopAlone(cfg: Config, s: Shared, pc: Pc, t: nat, a: Shared, isError: bool)
    requires cfg.windowSize + 1 < U64 && |a.window| <= cfg.windowSize
    requires a.errorCount == Errors(a.window) + if isError then 1 else 0
    requires Gets(cfg, s, pc, t, a, PushPop(isError))
    ensures var w := Slid(cfg, a.window, isError);
            Gets(cfg, s, pc, t, a.(window := w, errorCount := Errors(w)), PushUnlock(isError))
  {
    hide Gets, Errors, StepWindow;
    var rest := if |a.window| >= cfg.windowSize && a.window != [] then a.window[1..] else a.window;
    var p := a.(window := rest, errorCount := Errors(rest) + if isError then 1 else 0);
    PopSubAlone(cfg, s, pc, t, a, isError);
    ErrorsPush(rest, isError);
    Appends(cfg, p, t, isError);
    Pushes(cfg, s, pc, t, p, PushBack(isError), p.(window := rest + [isError]), PushUnlock(isError));
  }

  lemma FirstError(w: seq<bool>)
    requires w != []
    ensures Errors(w) == Errors(w[1..]) + if w[0] then 1 else 0
    ensures Errors(w[1..]) < |w|
  {
  }

  lemma PopSubAlone(cfg: Config, s: Shared, pc: Pc, t: nat, a: Shared, isError: bool)
    requires cfg.windowSize + 1 < U64 && |a.window| <= cfg.windowSize
    requires a.errorCount == Errors(a.window) + if isError then 1 else 0
    requires Gets(cfg, s, pc, t, a, PushPop(isError))
    ensures var rest := if |a.window| >= cfg.windowSize && a.window != [] then a.window[1..] else a.window;
            Gets(cfg, s, pc, t, a.(window := rest, errorCount := Errors(rest) + if isError then 1 else 0), PushBack(isError))
  {
    hide Gets, Errors, StepWindow;
    Pops(cfg, a, t, isError);
    if |a.window| >= cfg.windowSize && a.window != [] {
      var p := a.(window := a.window[1..]);
      FirstError(a.window);
      if a.window[0] {
        Pushes(cfg, s, pc, t, a, PushPop(isError), p, PushSub(isError));
        SubAlone(cfg, s, pc, t, p, isError);
      } else {
        Pushes(cfg, s, pc, t, a, PushPop(isError), p, PushBack(isError));
      }
    } else {
      Pushes(cfg, s, pc, t, a, PushPop(isError), a, PushBack(isError));
    }
  }

  lemma SubAlone(cfg: Config, s: Shared, pc: Pc, t: nat, p: Shared, isError: bool)
    requires Gets(cfg, s, pc, t, p, PushSub(isError)) && 0 < p.errorCount < U64
    ensures Gets(cfg, s, pc, t, p.(errorCount := p.errorCount - 1), PushBack(isError))
  {
    hide Gets, StepWindow;
    Subtracts(cfg, p, t, isError);
    Pushes(cfg, s, pc, t, p, PushSub(isError), p.(errorCount := p.errorCount - 1), PushBack(isError));
  }

  /** Opening, from the stamp on. */
  lemma OpenAlone(cfg: Config, s: Shared, pc: Pc, t: nat, e: Shared)
    requires Gets(cfg, s, pc, t, e, OpenStamp)
    ensures Gets(cfg, s, pc, t, Clear(e.(openedAt := e.now)).(state := STATE_OPEN), Rest(false))
  {
    hide Gets;
    var u := e.(openedAt := e.now);
    Changes(cfg, s, pc, t, e, OpenStamp, e, OpenStore(e.now));
    Changes(cfg, s, pc, t, e, OpenStore(e.now), u, OpenClear);
    Changes(cfg, s, pc, t, u, OpenClear, Clear(u), OpenLoad(0));
    Changes(cfg, s, pc, t, Clear(u), OpenLoad(0), Clear(u), OpenCas(u.state, 0));
    Changes(cfg, s, pc, t, Clear(u), OpenCas(u.state, 0), Clear(u).(state := STATE_OPEN), Rest(false));
  }

  /** What the automaton knows after an outcome in Closed, by the window alone. */
  function Known(cfg: Config, p: Breaker.Phase): Breaker.Phase {
    match p
    case Closed(o) => Closed(Last(o, cfg.windowSize))
    case _ => p
  }

  lemma TripsWithin(cfg: Config, w: seq<bool>)
    ensures Trips(cfg, Last(w, cfg.windowSize)) <==> Trips(cfg, w)
  {
    assert Last(Last(w, cfg.windowSize), cfg.windowSize) == Last(w, cfg.windowSize);
  }

  /** Undisturbed, a failure in Closed counts and trips as in the automaton. */
  lemma ErrorClosedAlone(cfg: Config, s: Shared, t: nat)
    requires AtRest(cfg, s) && s.state == STATE_CLOSED
    ensures Ends(cfg, s, ErrorLoad, t, false, Known(cfg, Failed(cfg, Means(s), s.now).phase))
  {
    var w := Slid(cfg, s.window, true);
    var p := s.(window := w, errorCount := Errors(w));
    Starts(cfg, s, ErrorLoad, t);
    Reports(cfg, s, ErrorLoad, t, s, ErrorLoad, s, PushLock(true));
    PushAlone(cfg, s, ErrorLoad, t, true);
    SlidIsLast(cfg, s.window, true);
    TripsWithin(cfg, s.window + [true]);
    TripsByCounter(cfg, p);
    hide Gets, Ends, Trips, CounterTrips, Errors, AtRest, Slid;
    var q := p.(lock := Some(t));
    assert CounterTrips(cfg, q) <==> Trips(cfg, s.window + [true]) by { TripsByCounter(cfg, q); }
    if Trips(cfg, s.window + [true]) {
      Pushes(cfg, s, ErrorLoad, t, q, PushUnlock(true), q.(lock := None), OpenStamp);
      OpenAlone(cfg, s, ErrorLoad, t, q.(lock := None));
      EndsAt(cfg, s, ErrorLoad, t, Clear(q.(lock := None, openedAt := s.now)).(state := STATE_OPEN), false);
    } else {
      Pushes(cfg, s, ErrorLoad, t, q, PushUnlock(true), q.(lock := None), Rest(false));
      EndsAt(cfg, s, ErrorLoad, t, q.(lock := None), false);
    }
  }

  lemma TripsByCounter(cfg: Config, s: Shared)
    requires s.errorCount == Errors(s.window) && 0 < |s.window| <= cfg.windowSize
    ensures CounterTrips(cfg, s) <==> Trips(cfg, s.window)
  {
    assert Last(s.window, cfg.windowSize) == s.window;
  }

  /** Undisturbed, a failure outside Closed does what it does in the automaton. */
  lemma ErrorElsewhereAlone(cfg: Config, s: Shared, t: nat)
    requires AtRest(cfg, s) && s.state != STATE_CLOSED
    ensures Ends(cfg, s, ErrorLoad, t, false, Failed(cfg, Means(s), s.now).phase)
  {
    Starts(cfg, s, ErrorLoad, t);
    hide Gets, Ends;
    if StateBits(s.state) == STATE_HALF_OPEN {
      Reports(cfg, s, ErrorLoad, t, s, ErrorLoad, s, ErrorClear);
      Reports(cfg, s, ErrorLoad, t, s, ErrorClear, Clear(s), OpenStamp);
      OpenAlone(cfg, s, ErrorLoad, t, Clear(s));
      EndsAt(cfg, s, ErrorLoad, t, Clear(Clear(s).(openedAt := s.now)).(state := STATE_OPEN), false);
    } else {
      Reports(cfg, s, ErrorLoad, t, s, ErrorLoad, s, Rest(false));
      EndsAt(cfg, s, ErrorLoad, t, s, false);
    }
  }

  lemma SuccessClosedAlone(cfg: Config, s: Shared, t: nat)
    requires AtRest(cfg, s) && s.state == STATE_CLOSED
    ensures Ends(cfg, s, SuccessLoad, t, false, Known(cfg, Breaker.Succeeded(cfg, Means(s), s.now).phase))
  {
    var w := Slid(cfg, s.window, false);
    var q := s.(window := w, errorCount := Errors(w), lock := Some(t));
    Starts(cfg, s, SuccessLoad, t);
    Reports(cfg, s, SuccessLoad, t, s, SuccessLoad, s, PushLock(false));
    PushAlone(cfg, s, SuccessLoad, t, false);
    SlidIsLast(cfg, s.window, false);
    hide Gets, Ends, Errors, Slid;
    Pushes(cfg, s, SuccessLoad, t, q, PushUnlock(false), q.(lock := None), Rest(false));
    EndsAt(cfg, s, SuccessLoad, t, q.(lock := None), false);
  }

  /** Closing, from the load on. */
  lemma CloseAlone(cfg: Config, s: Shared, pc: Pc, t: nat, e: Shared)
    requires Gets(cfg, s, pc, t, e, CloseLoad) && e.lock == None
    ensures Gets(cfg, s, pc, t, Clear(e).(state := STATE_CLOSED, window := [], errorCount := 0), Rest(false))
  {
    hide Gets;
    var c := Clear(e).(state := STATE_CLOSED);
    var l := c.(lock := Some(t));
    Changes(cfg, s, pc, t, e, CloseLoad, e, CloseClear(e.state));
    Changes(cfg, s, pc, t, e, CloseClear(e.state), Clear(e), CloseCas(e.state));
    Changes(cfg, s, pc, t, Clear(e), CloseCas(e.state), c, CloseLock);
    Pushes(cfg, s, pc, t, c, CloseLock, l, CloseWindow);
    Pushes(cfg, s, pc, t, l, CloseWindow, l.(window := []), CloseErrors);
    Pushes(cfg, s, pc, t, l.(window := []), CloseErrors, l.(window := [], errorCount := 0), CloseUnlock);
    Pushes(cfg, s, pc, t, l.(window := [], errorCount := 0), CloseUnlock, c.(window := [], errorCount := 0), Rest(false));
  }

  lemma SuccessElsewhereAlone(cfg: Config, s: Shared, t: nat)
    requires AtRest(cfg, s) && s.state != STATE_CLOSED
    ensures Ends(cfg, s, SuccessLoad, t, false, Breaker.Succeeded(cfg, Means(s), s.now).phase)
  {
    Starts(cfg, s, SuccessLoad, t);
    hide Gets, Ends;
    if StateBits(s.state) == STATE_HALF_OPEN {
      Reports(cfg, s, SuccessLoad, t, s, SuccessLoad, s, SuccessClear(s.state));
      if ProbeCount(s.state) + 1 >= cfg.maxProbes {
        Reports(cfg, s, SuccessLoad, t, s, SuccessClear(s.state), Clear(s), CloseLoad);
        CloseAlone(cfg, s, SuccessLoad, t, Clear(s));
        EndsAt(cfg, s, SuccessLoad, t, Clear(Clear(s)).(state := STATE_CLOSED, window := [], errorCount := 0), false);
      } else {
        SuccessCountsAlone(cfg, s, t);
      }
    } else {
      Reports(cfg, s, SuccessLoad, t, s, SuccessLoad, s, Rest(false));
      EndsAt(cfg, s, SuccessLoad, t, s, false);
    }
  }

  lemma SuccessCountsAlone(cfg: Config, s: Shared, t: nat)
    requires AtRest(cfg, s) && StateBits(s.state) == STATE_HALF_OPEN && ProbeCount(s.state) + 1 < cfg.maxProbes
    requires Gets(cfg, s, SuccessLoad, t, s, SuccessClear(s.state))
    ensures Ends(cfg, s, SuccessLoad, t, false, Breaker.Succeeded(cfg, Means(s), s.now).phase)
  {
    hide Gets, Ends;
    var e := Clear(s).(state := HalfOpenByte(ProbeCount(s.state) + 1));
    Reports(cfg, s, SuccessLoad, t, s, SuccessClear(s.state), Clear(s), SuccessCas(s.state));
    Reports(cfg, s, SuccessLoad, t, Clear(s), SuccessCas(s.state), e, Rest(false));
    EndsAt(cfg, s, SuccessLoad, t, e, false);
  }

  /** Undisturbed, a failure and a success end as in the automaton, of which the window remembers the
      last outcomes. */
  lemma ReportsAlone(cfg: Config, s: Shared, t: nat)
    requires AtRest(cfg, s)
    ensures Ends(cfg, s, ErrorLoad, t, false, Known(cfg, Failed(cfg, Means(s), s.now).phase))
    ensures Ends(cfg, s, SuccessLoad, t, false, Known(cfg, Breaker.Succeeded(cfg, Means(s), s.now).phase))
  {
    hide Ends;
    if s.state == STATE_CLOSED {
      ErrorClosedAlone(cfg, s, t);
      SuccessClosedAlone(cfg, s, t);
    } else {
      ErrorElsewhereAlone(cfg, s, t);
      SuccessElsewhereAlone(cfg, s, t);
    }
  }
}
