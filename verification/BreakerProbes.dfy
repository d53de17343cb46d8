/** When a half-open probe is exclusive between threads (src/route/circuit_breaker.rs, 150-255). */
module BreakerProbes {
  import opened Prelude
  import opened Breaker
  import opened CircuitBreakers
  import opened BreakerThreads
  import opened BreakerSchedules

  // ---- exactly when a second probe can be granted ----

  /** A probe is in flight, more are needed, and every thread is at rest or asking, one at rest. */
  ghost predicate Probing(cfg: Config, m: System) {
    && StateBits(m.shared.state) == STATE_HALF_OPEN && ProbeCount(m.shared.state) < cfg.maxProbes
    && m.shared.inFlight
    && (forall t :: 0 <= t < |m.threads| ==> m.threads[t].Rest? || InAllow(m.threads[t]))
    && (exists t :: 0 <= t < |m.threads| && m.threads[t].Rest?)
  }

  /** The thread is about to clear the flag. */
  predicate Clearing(pc: Pc) { pc.HalfOpenClear? || pc.StuckClear? }

  /** The thread holds a stamp, loaded or to be stored, that is too old. */
  predicate HoldsStuck(cfg: Config, pc: Pc, now: nat) {
    match pc
    case SentCheck(sent) => Stuck(cfg, sent, now)
    case SentStore(at) => Stuck(cfg, at, now)
    case _ => false
  }

  /** What one can read off the state: a thread stands before a clear, or a stamp is too old, be it
      the one stored or one in a thread's hands. */
  ghost predicate Loose(cfg: Config, m: System) {
    || Stuck(cfg, m.shared.sentAt, m.shared.now)
    || exists t :: 0 <= t < |m.threads| && (Clearing(m.threads[t]) || HoldsStuck(cfg, m.threads[t], m.shared.now))
  }

  ghost predicate GrantsAgain(cfg: Config, m: System, moves: seq<Move>) {
    AllowOnly(moves) && Exec(cfg, m, moves).shared.grants > m.shared.grants
  }

  ghost predicate CanGrantAgain(cfg: Config, m: System) {
    exists moves :: GrantsAgain(cfg, m, moves)
  }

  /** No thread can clear the flag, and none ever will as long as only requests come. */
  ghost predicate Quiet(cfg: Config, m: System) {
    QuietShared(cfg, m.shared) && forall t :: 0 <= t < |m.threads| ==> QuietPc(cfg, m.threads[t], m.shared.now)
  }

  predicate QuietShared(cfg: Config, s: Shared) {
    StateBits(s.state) == STATE_HALF_OPEN && s.inFlight && !Stuck(cfg, s.sentAt, s.now)
  }

  predicate QuietPc(cfg: Config, pc: Pc, now: nat) {
    (pc.Rest? || InAllow(pc)) && !Clearing(pc) && !HoldsStuck(cfg, pc, now) && LocalsOk(cfg, pc)
  }

  /** Nothing but the stamp changes, and it does not become too old. */
  ghost predicate StaysQuiet(cfg: Config, s: Shared, r: (Shared, Pc)) {
    QuietShared(cfg, r.0) && r.0 == s.(sentAt := r.0.sentAt) && QuietPc(cfg, r.1, s.now)
  }

  lemma QuietAllow(cfg: Config, s: Shared, pc: Pc)
    requires QuietShared(cfg, s) && QuietPc(cfg, pc, s.now) && InAllow(pc)
    ensures StaysQuiet(cfg, s, StepAllow(cfg, s, pc))
  {
    assert !Stuck(cfg, s.now, s.now) && !Stuck(cfg, 0, s.now);
    hide Stuck, Recovered;
  }

  lemma QuietStep(cfg: Config, s: Shared, pc: Pc, t: nat)
    requires QuietShared(cfg, s) && QuietPc(cfg, pc, s.now)
    ensures StaysQuiet(cfg, s, Step(cfg, s, pc, t))
  {
    hide StepAllow, StepRecord, StepWindow;
    if InAllow(pc) { QuietAllow(cfg, s, pc); }
  }

  lemma {:induction false} QuietRun(cfg: Config, m: System, moves: seq<Move>)
    requires Quiet(cfg, m) && AllowOnly(moves)
    ensures Quiet(cfg, Exec(cfg, m, moves)) && Exec(cfg, m, moves).shared.grants == m.shared.grants
  {
    if moves != [] {
      var front, move := Exec(cfg, m, moves[..|moves| - 1]), moves[|moves| - 1];
      QuietRun(cfg, m, moves[..|moves| - 1]);
      hide Step, QuietShared;
      if move.Advance? && move.t < |front.threads| {
        QuietStep(cfg, front.shared, front.threads[move.t], move.t);
      }
    }
  }

  /** A thread that can take the flag is granted the probe. */
  lemma AloneTakes(cfg: Config, m: System, s: Shared, ts: seq<Pc>, t: nat)
    requires t < |ts| && Leads(cfg, m, true, System(s, ts[t := FlagCas]))
    requires !s.inFlight && s.grants == m.shared.grants
    ensures CanGrantAgain(cfg, m)
  {
    var e := s.(inFlight := true, grants := s.grants + 1);
    Alone(cfg, m, true, s, ts, t, FlagCas, e, StampRead);
    var moves :| AllowOnly(moves) && Exec(cfg, m, moves) == System(e, ts[t := StampRead]);
    assert GrantsAgain(cfg, m, moves);
  }

  lemma AloneClears(cfg: Config, m: System, s: Shared, ts: seq<Pc>, t: nat)
    requires t < |ts| && Leads(cfg, m, true, System(s, ts[t := StuckClear])) && s.grants == m.shared.grants
    ensures CanGrantAgain(cfg, m)
  {
    Alone(cfg, m, true, s, ts, t, StuckClear, Clear(s), FlagCas);
    AloneTakes(cfg, m, Clear(s), ts, t);
  }

  lemma ClearingGrants(cfg: Config, m: System, t: nat)
    requires Probing(cfg, m) && t < |m.threads| && m.threads[t].HalfOpenClear?
    ensures CanGrantAgain(cfg, m)
  {
    var s, ts := Clear(m.shared), m.threads;
    LeadsNowhere(cfg, m, true);
    hide Leads, CanGrantAgain;
    assert ts[t := HalfOpenClear] == ts && m == System(m.shared, ts);
    Alone(cfg, m, true, m.shared, ts, t, HalfOpenClear, s, AllowLoad);
    Alone(cfg, m, true, s, ts, t, AllowLoad, s, FlagLoad);
    Alone(cfg, m, true, s, ts, t, FlagLoad, s, FlagCas);
    AloneTakes(cfg, m, s, ts, t);
  }

  /** A request that finds too old a stamp is granted. */
  lemma StuckGrants(cfg: Config, m: System, s: Shared, ts: seq<Pc>, t: nat)
    requires t < |ts| && ts[t].Rest? && Leads(cfg, m, true, System(s, ts)) && s.grants == m.shared.grants
    requires StateBits(s.state) == STATE_HALF_OPEN && ProbeCount(s.state) < cfg.maxProbes
    requires s.inFlight && Stuck(cfg, s.sentAt, s.now)
    ensures CanGrantAgain(cfg, m)
  {
    hide Leads, CanGrantAgain, Stuck;
    LeadsOn(cfg, m, true, System(s, ts), Begin(t, CallAllow));
    Alone(cfg, m, true, s, ts, t, AllowLoad, s, FlagLoad);
    Alone(cfg, m, true, s, ts, t, FlagLoad, s, SentLoad);
    Alone(cfg, m, true, s, ts, t, SentLoad, s, SentCheck(s.sentAt));
    Alone(cfg, m, true, s, ts, t, SentCheck(s.sentAt), s, StuckClear);
    AloneClears(cfg, m, s, ts, t);
  }

  /** A thread that holds too old a stamp either clears the flag itself or stores the stamp. */
  lemma HoldingGrants(cfg: Config, m: System, t: nat)
    requires Probing(cfg, m) && t < |m.threads| && HoldsStuck(cfg, m.threads[t], m.shared.now)
    ensures CanGrantAgain(cfg, m)
  {
    var s, ts, pc := m.shared, m.threads, m.threads[t];
    LeadsNowhere(cfg, m, true);
    hide Leads, CanGrantAgain, Stuck;
    assert ts[t := pc] == ts && m == System(s, ts);
    if pc.SentCheck? {
      Alone(cfg, m, true, s, ts, t, pc, s, StuckClear);
      AloneClears(cfg, m, s, ts, t);
    } else {
      var e := s.(sentAt := pc.at);
      Alone(cfg, m, true, s, ts, t, pc, e, Rest(true));
      StuckGrants(cfg, m, e, ts[t := Rest(true)], t);
    }
  }

  lemma LooseGrants(cfg: Config, m: System)
    requires Probing(cfg, m) && Loose(cfg, m)
    ensures CanGrantAgain(cfg, m)
  {
    LeadsNowhere(cfg, m, true);
    hide CanGrantAgain, Stuck, Leads;
    if Stuck(cfg, m.shared.sentAt, m.shared.now) {
      var t :| 0 <= t < |m.threads| && m.threads[t].Rest?;
      StuckGrants(cfg, m, m.shared, m.threads, t);
    } else {
      var t :| 0 <= t < |m.threads| && (Clearing(m.threads[t]) || HoldsStuck(cfg, m.threads[t], m.shared.now));
      if m.threads[t].HalfOpenClear? {
        ClearingGrants(cfg, m, t);
      } else if m.threads[t].StuckClear? {
        assert m.threads[t := StuckClear] == m.threads;
        AloneClears(cfg, m, m.shared, m.threads, t);
      } else {
        HoldingGrants(cfg, m, t);
      }
    }
  }

  /** In every reachable state with a probe in flight and nobody about to report a result: requests
      alone, without a result, an abort or the passing of time, can be granted another probe exactly
      when some thread stands before a clear of the flag or some stamp is too old, the stored one or
      one that a thread has loaded or is about to store. */
  lemma SecondProbeExactly(cfg: Config, n: nat, moves: seq<Move>)
    requires Usable(cfg) && Probing(cfg, Exec(cfg, Start(n), moves))
    ensures CanGrantAgain(cfg, Exec(cfg, Start(n), moves)) <==> Loose(cfg, Exec(cfg, Start(n), moves))
  {
    var m := Exec(cfg, Start(n), moves);
    ExecInv(cfg, n, moves);
    if Loose(cfg, m) {
      LooseGrants(cfg, m);
    } else if again :| GrantsAgain(cfg, m, again) {
      QuietRun(cfg, m, again);
      assert false;
    }
  }

  // ---- three schedules of two threads ----

  /** Half-open, no probe granted yet, the first thread between its exchange and its store. */
  const BeforeStore := System(HalfOpened, [HalfOpenClear, Rest(false)])

  const Overtaken := HalfOpened.(inFlight := true, sentAt := 1000, grants := 1)

  const BothGranted :=
    System(HalfOpened.(inFlight := true, sentAt := 1000, clears := 2, grants := 2), [Rest(true), Rest(true)])

  lemma StoreIsReached()
    ensures Leads(Second, Start(2), false, BeforeStore)
  {
    SecondAfterOpening();
    HalfOpens(Start(2), Recoverable, 0, false, Rest(false));
  }

  lemma Overtakes()
    ensures At(BeforeStore, true, Overtaken, 0, HalfOpenClear, Rest(true))
  {
    LeadsNowhere(Second, BeforeStore, true);
    assert At(BeforeStore, true, HalfOpened, 1, Rest(false), HalfOpenClear);
    hide At;
    Arrives(BeforeStore, true, HalfOpened, 1, false, HalfOpenClear);
    Takes(BeforeStore, true, HalfOpened, 1, HalfOpenClear);
    Leaves(BeforeStore, true, Overtaken.(sentAt := 0), 1, HalfOpenClear);
    Turn(BeforeStore, true, Overtaken, 1, Rest(true), HalfOpenClear);
  }

  lemma StoreUndoes()
    ensures At(BeforeStore, true, BothGranted.shared, 0, Rest(true), Rest(true))
  {
    hide At;
    Overtakes();
    ClearsAndTakes(BeforeStore, true, Overtaken, 0, Rest(true));
    Leaves(BeforeStore, true, BothGranted.shared, 0, Rest(true));
  }

  /** The store after the exchange undoes a reservation: from a reachable half-open state, requests
      alone lead to both threads having been let through as the one probe. */
  lemma TwoProbesAtOnce()
    ensures Leads(Second, Start(2), false, BeforeStore)
    ensures StateBits(BeforeStore.shared.state) == STATE_HALF_OPEN && BeforeStore.shared.grants == 0
    ensures Leads(Second, BeforeStore, true, BothGranted)
    ensures BothGranted.threads == [Rest(true), Rest(true)] && BothGranted.shared.grants == 2
  {
    StoreIsReached();
    StoreUndoes();
    hide Leads;
  }

  const Reopened := FirstProbe.(state := STATE_OPEN, openedAt := 1000, inFlight := false, clears := 4)

  lemma ProbeReports()
    ensures At(Start(2), false, Reopened.(state := STATE_HALF_OPEN), 0, OpenLoad(0), Rest(false))
  {
    hide At;
    OneProbeOut();
    Calls(Start(2), false, FirstProbe, 0, true, Rest(false), CallError);
    Reports(Start(2), false, FirstProbe, 0, ErrorLoad, Rest(false), FirstProbe, ErrorClear);
    Reports(Start(2), false, FirstProbe, 0, ErrorClear, Rest(false), Clear(FirstProbe), OpenStamp);
    Stamps(Start(2), Clear(FirstProbe), 0, Rest(false));
  }

  /** The probe fails and the circuit opens again. */
  lemma ProbeFails()
    ensures At(Start(2), false, Reopened, 0, Rest(false), Rest(false))
  {
    hide At;
    var s := Reopened.(state := STATE_HALF_OPEN);
    ProbeReports();
    Changes(Start(2), false, s, 0, OpenLoad(0), Rest(false), s, OpenCas(STATE_HALF_OPEN, 0));
    Opens(Start(2), s, 0, Rest(false));
  }

  /** The first thread has taken the flag of the second half-open period; the stamp is still that of
      the probe that failed. */
  const BeforeStamp :=
    System(Reopened.(state := STATE_HALF_OPEN, now := 2000, inFlight := true, clears := 5, grants := 2), [StampRead, Rest(false)])

  const BothGrantedAgain :=
    System(BeforeStamp.shared.(sentAt := 2000, clears := 6, grants := 3), [Rest(true), Rest(true)])

  lemma StampIsReached()
    ensures Leads(Second, Start(2), false, BeforeStamp)
  {
    assert At(Start(2), false, BeforeStamp.shared, 0, StampRead, Rest(false)) by {
      hide At;
      var late := Reopened.(now := 2000);
      ProbeFails();
      SecondPasses(Start(2), Reopened, 0, Rest(false), Rest(false));
      HalfOpens(Start(2), late, 0, false, Rest(false));
      ClearsAndTakes(Start(2), false, late.(state := STATE_HALF_OPEN), 0, Rest(false));
    }
  }

  lemma StampUndoes()
    ensures At(BeforeStamp, true, BothGrantedAgain.shared, 0, Rest(true), Rest(true))
  {
    var m, s := BeforeStamp, BeforeStamp.shared;
    LeadsNowhere(Second, m, true);
    assert At(m, true, s, 1, Rest(false), StampRead);
    hide At;
    Arrives(m, true, s, 1, false, StampRead);
    TakesStuck(m, true, s, 1, StampRead);
    var g := BothGrantedAgain.shared;
    Leaves(m, true, s.(clears := 6, grants := 3), 1, StampRead);
    Turn(m, true, g, 1, Rest(true), StampRead);
    Leaves(m, true, g, 0, Rest(true));
  }

  /** The stamp of an earlier probe undoes a reservation: no thread stands before the store after the
      exchange, and yet requests alone lead to both having been let through. */
  lemma StaleStampDoubles()
    ensures Leads(Second, Start(2), false, BeforeStamp)
    ensures BeforeStamp.shared.inFlight && !Clearing(BeforeStamp.threads[0]) && !Clearing(BeforeStamp.threads[1])
    ensures Leads(Second, BeforeStamp, true, BothGrantedAgain)
    ensures BothGrantedAgain.threads == [Rest(true), Rest(true)]
    ensures BothGrantedAgain.shared.grants == BeforeStamp.shared.grants + 1
  {
    StampIsReached();
    StampUndoes();
    hide Leads;
  }

  /** The first thread has taken the flag and read the clock, and then a second has passed; no stamp
      is stored yet. */
  const LateStore :=
    System(HalfOpened.(inFlight := true, clears := 2, grants := 1, now := 2000), [SentStore(1000), Rest(false)])

  const BothGrantedLate :=
    System(LateStore.shared.(sentAt := 2000, clears := 3, grants := 2), [Rest(true), Rest(true)])

  lemma LateStoreIsReached()
    ensures Leads(Second, Start(2), false, LateStore)
  {
    assert At(Start(2), false, LateStore.shared, 0, SentStore(1000), Rest(false)) by {
      hide At;
      var s := LateStore.shared.(now := 1000);
      SecondAfterOpening();
      HalfOpens(Start(2), Recoverable, 0, false, Rest(false));
      ClearsAndTakes(Start(2), false, HalfOpened, 0, Rest(false));
      Asks(Start(2), false, s, 0, StampRead, Rest(false), s, SentStore(1000));
      SecondPasses(Start(2), s, 0, SentStore(1000), Rest(false));
    }
  }

  lemma LateStoreUndoes()
    ensures At(LateStore, true, BothGrantedLate.shared, 0, Rest(true), Rest(true))
  {
    var m, s := LateStore, LateStore.shared;
    LeadsNowhere(Second, m, true);
    assert At(m, true, s, 0, SentStore(1000), Rest(false));
    hide At;
    var e := s.(sentAt := 1000);
    Asks(m, true, s, 0, SentStore(1000), Rest(false), e, Rest(true));
    Turn(m, true, e, 0, Rest(true), Rest(false));
    Arrives(m, true, e, 1, false, Rest(true));
    TakesStuck(m, true, e, 1, Rest(true));
    Leaves(m, true, e.(clears := 3, grants := 2), 1, Rest(true));
    Turn(m, true, BothGrantedLate.shared, 1, Rest(true), Rest(true));
  }

  /** A stamp that is stored late undoes its own reservation: nobody stands before a clear and no
      stamp is stored, and yet requests alone lead to both having been let through. */
  lemma LateStampDoubles()
    ensures Leads(Second, Start(2), false, LateStore)
    ensures LateStore.shared.inFlight && LateStore.shared.sentAt == 0
    ensures !Clearing(LateStore.threads[0]) && !Clearing(LateStore.threads[1])
    ensures Leads(Second, LateStore, true, BothGrantedLate)
    ensures BothGrantedLate.threads == [Rest(true), Rest(true)]
    ensures BothGrantedLate.shared.grants == LateStore.shared.grants + 1
  {
    LateStoreIsReached();
    LateStoreUndoes();
    hide Leads;
  }
}
