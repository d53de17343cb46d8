/** When the breaker trips, recovers and gives a probe up, in plain numbers of outcomes, percent and
    milliseconds (src/route/circuit_breaker.rs, 150-222 and 290-330). */
module BreakerLimits {
  import opened Prelude
  import Interleaving
  import opened Breaker
  import opened BreakerRuns

  // ---- tripping ----

  lemma {:induction false} ErrorsCount(w: seq<bool>)
    ensures Errors(w) == Interleaving.Count(w, true)
  {
    if w != [] {
      var front, last := w[..|w| - 1], w[|w| - 1];
      assert w == front + [last];
      ErrorsCount(front);
      ErrorsPush(front, last);
    }
  }

  /** Enough outcomes for a decision: at least 5 and a quarter of the window, or a full window. */
  predicate EnoughOutcomes(windowSize: nat, n: nat) {
    n >= windowSize || (n >= 5 && n >= windowSize / 4)
  }

  lemma TripsExactly(cfg: Config, outcomes: seq<bool>)
    ensures var w := Last(outcomes, cfg.windowSize);
            Trips(cfg, outcomes) <==>
              100 * Interleaving.Count(w, true) >= cfg.threshold * |w| && EnoughOutcomes(cfg.windowSize, |w|)
  {
    ErrorsCount(Last(outcomes, cfg.windowSize));
  }

  /** Closed before the run and after each of its events. */
  ghost predicate StaysClosed(cfg: Config, s: State, es: seq<Event>) {
    Run(cfg, s, es).phase.Closed? && (es == [] || StaysClosed(cfg, s, es[..|es| - 1]))
  }

  lemma {:induction false} ClosedOutcomes(cfg: Config, s: State, es: seq<Event>)
    requires s.phase == Closed([]) && StaysClosed(cfg, s, es)
    ensures Run(cfg, s, es).phase == Closed(Outcomes(es))
  {
    if es != [] { ClosedOutcomes(cfg, s, es[..|es| - 1]); }
  }

  /** From a new breaker, or one that has just closed: the circuit opens at an event if and only if that
      is a failure, the last outcomes, as many as the window holds, are errors to at least the
      threshold percentage, and there are enough of them. */
  lemma OpensExactly(cfg: Config, s: State, es: seq<Event>)
    requires s.phase == Closed([]) && es != [] && StaysClosed(cfg, s, es[..|es| - 1])
    ensures var w := Last(Outcomes(es), cfg.windowSize);
            Run(cfg, s, es).phase.Open? <==>
              && es[|es| - 1].op == Failure
              && 100 * Interleaving.Count(w, true) >= cfg.threshold * |w|
              && EnoughOutcomes(cfg.windowSize, |w|)
  {
    ClosedOutcomes(cfg, s, es[..|es| - 1]);
    TripsExactly(cfg, Outcomes(es));
    hide Trips, EnoughOutcomes, Last;
  }

  lemma {:induction false} OutcomesCount(es: seq<Event>)
    ensures |Outcomes(es)| == CountOf(es, Success) + CountOf(es, Failure)
    ensures Interleaving.Count(Outcomes(es), true) == CountOf(es, Failure)
  {
    if es != [] {
      var front, op := es[..|es| - 1], es[|es| - 1].op;
      OutcomesCount(front);
      if op == Success {
        Interleaving.CountAppend(Outcomes(front), false, true);
      } else if op == Failure {
        Interleaving.CountAppend(Outcomes(front), true, true);
      } else {
        assert Outcomes(es) == Outcomes(front);
      }
    }
  }

  /** The same by counting the events of a run that fits the window. */
  lemma OpensByCount(cfg: Config, s: State, es: seq<Event>)
    requires s.phase == Closed([]) && es != [] && StaysClosed(cfg, s, es[..|es| - 1])
    requires CountOf(es, Success) + CountOf(es, Failure) <= cfg.windowSize
    ensures var m := CountOf(es, Success) + CountOf(es, Failure);
            Run(cfg, s, es).phase.Open? <==>
              && es[|es| - 1].op == Failure
              && 100 * CountOf(es, Failure) >= cfg.threshold * m
              && (m >= cfg.windowSize || (m >= 5 && m >= cfg.windowSize / 4))
  {
    OpensExactly(cfg, s, es);
    OutcomesCount(es);
  }

  // ---- recovering ----

  /** The recovery time in milliseconds, where it fits into 64 bits. */
  predicate RecoveryTime(cfg: Config, ms: nat) {
    ms == cfg.timeoutSecs * 1000 < U64
  }

  lemma RecoveredExactly(cfg: Config, since: nat, ms: nat, now: nat)
    requires RecoveryTime(cfg, ms)
    ensures Recovered(cfg, since, now) <==> ms == 0 || now >= since + ms
  {
  }

  /** An open circuit refuses every request within the recovery time, counted from its opening,
      whatever is reported meanwhile, and grants the first one after it, which is then the only probe. */
  lemma RefusesUntilRecovery(cfg: Config, s: State, es: seq<Event>, ms: nat, now: nat)
    requires s.phase.Open? && RecoveryTime(cfg, ms) && ms > 0
    requires forall e :: e in es && e.op == Allow ==> e.at < s.phase.since + ms
    ensures forall k :: 0 <= k < |es| && es[k].op == Allow ==> !Granted(cfg, Before(cfg, s, es, k), es[k].at)
    ensures Granted(cfg, Run(cfg, s, es), now) <==> now >= s.phase.since + ms
    ensures now >= s.phase.since + ms ==> Allowed(cfg, Run(cfg, s, es), now).phase == HalfOpen(0, InFlight(now))
  {
    forall e | e in es ensures EarlyAllow(cfg, s.phase.since, e) {
      RecoveredExactly(cfg, s.phase.since, ms, e.at);
    }
    OpenHolds(cfg, s, es);
    RecoveredExactly(cfg, s.phase.since, ms, now);
    hide Recovered, Before;
  }

  lemma StuckExactly(cfg: Config, sentAt: nat, ms: nat, now: nat)
    requires RecoveryTime(cfg, ms)
    ensures Stuck(cfg, sentAt, now) <==> sentAt > 0 && now >= sentAt + ms && now >= sentAt + 100
  {
  }

  /** A probe that nobody reports on keeps all others out for the recovery time, and at least for 100
      milliseconds; the first request after that replaces it, if the probe was not sent at time 0. */
  lemma RefusesUntilStuck(cfg: Config, s: State, es: seq<Event>, ms: nat, now: nat)
    requires s.phase.HalfOpen? && s.phase.probe.InFlight? && s.phase.successes < cfg.maxProbes && RecoveryTime(cfg, ms)
    requires forall e :: e in es ==> e.op == Allow && e.at < s.phase.probe.sentAt + Max(ms, 100)
    ensures forall k :: 0 <= k < |es| ==> !Granted(cfg, Before(cfg, s, es, k), es[k].at)
    ensures Granted(cfg, Run(cfg, s, es), now) <==>
              s.phase.probe.sentAt > 0 && now >= s.phase.probe.sentAt + Max(ms, 100)
  {
    forall e | e in es ensures PatientAllow(cfg, s.phase.probe.sentAt, e) {
      StuckExactly(cfg, s.phase.probe.sentAt, ms, e.at);
    }
    OneProbe(cfg, s, es);
    StuckExactly(cfg, s.phase.probe.sentAt, ms, now);
    hide Stuck, Before;
  }

  // ---- what a report does ----

  /** A closed circuit grants everything and stays as it is. */
  lemma ClosedGrantsAll(cfg: Config, s: State, now: nat)
    requires s.phase.Closed?
    ensures Granted(cfg, s, now) && Allowed(cfg, s, now) == s
  {
  }

  /** In half-open a success that is not the last one needed, and an abort, make room for the next probe
      at once. */
  lemma ReportMakesRoom(cfg: Config, s: State, e: Event, now: nat)
    requires s.phase.HalfOpen? && s.phase.successes < cfg.maxProbes
    requires e.op == Abort || (e.op == Success && s.phase.successes + 1 < cfg.maxProbes)
    ensures Granted(cfg, Step(cfg, s, e), now)
    ensures Allowed(cfg, Step(cfg, s, e), now).phase ==
              HalfOpen(s.phase.successes + (if e.op == Success then 1 else 0), InFlight(now))
  {
  }

  /** In half-open one failure opens the circuit again, from its own time on. */
  lemma FailureReopens(cfg: Config, s: State, at: nat)
    requires s.phase.HalfOpen?
    ensures Step(cfg, s, Event(Failure, at)).phase == Open(at)
  {
  }

  // ---- the history ----

  /** Only the closing of a half-open circuit is missing from the visible trace. */
  lemma {:induction false} VisibleExactly(trace: seq<Entry>, e: Entry)
    ensures multiset(Visible(trace))[e] ==
              if e.from == HalfOpenMode && e.to == ClosedMode then 0 else multiset(trace)[e]
  {
    if trace != [] {
      assert trace == trace[..|trace| - 1] + [trace[|trace| - 1]];
      VisibleExactly(trace[..|trace| - 1], e);
    }
  }
}
