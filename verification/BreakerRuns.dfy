/** Whole runs of the breaker when every operation is atomic. */
module BreakerRuns {
  import opened Prelude
  import opened Breaker

  datatype Op = Allow | Success | Failure | Abort

  datatype Event = Event(op: Op, at: nat)

  function Step(cfg: Config, s: State, e: Event): State {
    match e.op
    case Allow => Allowed(cfg, s, e.at)
    case Success => Succeeded(cfg, s, e.at)
    case Failure => Failed(cfg, s, e.at)
    case Abort => Aborted(s)
  }

  function Run(cfg: Config, s: State, es: seq<Event>): State {
    if es == [] then s else Step(cfg, Run(cfg, s, es[..|es| - 1]), es[|es| - 1])
  }

  /** The state before event k. */
  function Before(cfg: Config, s: State, es: seq<Event>, k: nat): State
    requires k <= |es|
  {
    Run(cfg, s, es[..k])
  }

  lemma BeforeFront(cfg: Config, s: State, es: seq<Event>, k: nat)
    requires k < |es|
    ensures Before(cfg, s, es[..|es| - 1], k) == Before(cfg, s, es, k)
  {
    assert es[..|es| - 1][..k] == es[..k];
  }

  // ---- Open ----

  predicate EarlyAllow(cfg: Config, since: nat, e: Event) {
    e.op == Allow ==> !Recovered(cfg, since, e.at)
  }

  /** While every request comes before the recovery time, an open circuit refuses them all and
      nothing that is recorded meanwhile moves it or postpones the recovery. */
  lemma {:induction false} OpenHolds(cfg: Config, s: State, es: seq<Event>)
    requires s.phase.Open? && forall e :: e in es ==> EarlyAllow(cfg, s.phase.since, e)
    ensures Run(cfg, s, es) == s
    ensures forall k :: 0 <= k < |es| && es[k].op == Allow ==> !Granted(cfg, Before(cfg, s, es, k), es[k].at)
  {
    if es != [] {
      var front := es[..|es| - 1];
      OpenHolds(cfg, s, front);
      assert EarlyAllow(cfg, s.phase.since, es[|es| - 1]);
      forall k | 0 <= k < |es| && es[k].op == Allow ensures !Granted(cfg, Before(cfg, s, es, k), es[k].at) {
        if k < |es| - 1 { BeforeFront(cfg, s, es, k); }
      }
    }
  }

  /** The first request at or after the recovery time is the probe. */
  lemma OpenRecovers(cfg: Config, s: State, es: seq<Event>, now: nat)
    requires Usable(cfg) && s.phase.Open? && Recovered(cfg, s.phase.since, now)
    requires forall e :: e in es ==> EarlyAllow(cfg, s.phase.since, e)
    ensures Granted(cfg, Run(cfg, s, es), now)
    ensures Allowed(cfg, Run(cfg, s, es), now).phase == HalfOpen(0, InFlight(now))
  {
    OpenHolds(cfg, s, es);
  }

  // ---- Half-open ----

  function CountOf(es: seq<Event>, op: Op): nat {
    if es == [] then 0 else CountOf(es[..|es| - 1], op) + if es[|es| - 1].op == op then 1 else 0
  }

  /** Half-open before the run and after each of its events. */
  ghost predicate StaysHalfOpen(cfg: Config, s: State, es: seq<Event>) {
    Run(cfg, s, es).phase.HalfOpen? && (es == [] || StaysHalfOpen(cfg, s, es[..|es| - 1]))
  }

  /** The run stays half-open up to its last event, which closes the circuit. */
  ghost predicate Closes(cfg: Config, s: State, es: seq<Event>) {
    es != [] && StaysHalfOpen(cfg, s, es[..|es| - 1]) && Run(cfg, s, es).phase.Closed?
  }

  /** Half-open lasts exactly as long as nothing fails and too few probes have succeeded. */
  lemma {:induction false} HalfOpenCounts(cfg: Config, s: State, es: seq<Event>)
    requires Usable(cfg) && s.phase.HalfOpen? && s.phase.successes < cfg.maxProbes
    ensures StaysHalfOpen(cfg, s, es) <==>
              CountOf(es, Failure) == 0 && s.phase.successes + CountOf(es, Success) < cfg.maxProbes
    ensures StaysHalfOpen(cfg, s, es) ==>
              Run(cfg, s, es).phase.HalfOpen? &&
              Run(cfg, s, es).phase.successes == s.phase.successes + CountOf(es, Success)
  {
    if es != [] {
      HalfOpenCounts(cfg, s, es[..|es| - 1]);
    }
  }

  /** The circuit closes exactly at the success that completes `maxProbes` of them since it became
      half-open, provided nothing failed in between. */
  lemma ClosesExactly(cfg: Config, s: State, es: seq<Event>)
    requires Usable(cfg) && s.phase.HalfOpen? && s.phase.successes == 0
    ensures Closes(cfg, s, es) <==>
              es != [] && es[|es| - 1].op == Success && CountOf(es, Failure) == 0 && CountOf(es, Success) == cfg.maxProbes
  {
    if es != [] {
      HalfOpenCounts(cfg, s, es[..|es| - 1]);
    }
  }

  predicate PatientAllow(cfg: Config, sentAt: nat, e: Event) {
    e.op == Allow && !Stuck(cfg, sentAt, e.at)
  }

  /** After a half-open grant, requests are refused until a result, an abort or the stuck-probe time. */
  lemma {:induction false} OneProbe(cfg: Config, s: State, es: seq<Event>)
    requires s.phase.HalfOpen? && s.phase.probe.InFlight?
    requires forall e :: e in es ==> PatientAllow(cfg, s.phase.probe.sentAt, e)
    ensures Run(cfg, s, es) == s
    ensures forall k :: 0 <= k < |es| ==> !Granted(cfg, Before(cfg, s, es, k), es[k].at)
  {
    if es != [] {
      var front := es[..|es| - 1];
      OneProbe(cfg, s, front);
      assert PatientAllow(cfg, s.phase.probe.sentAt, es[|es| - 1]);
      forall k | 0 <= k < |es| ensures !Granted(cfg, Before(cfg, s, es, k), es[k].at) {
        if k < |es| - 1 { BeforeFront(cfg, s, es, k); }
      }
    }
  }

  /** `can_accept_request` foresees every grant except that of a request that replaces a lost probe. */
  lemma CanAcceptForesees(cfg: Config, s: State, now: nat)
    requires Usable(cfg)
    ensures Granted(cfg, s, now) <==>
              CanAccept(cfg, s, now)
              || (s.phase.HalfOpen? && s.phase.successes < cfg.maxProbes && s.phase.probe.InFlight?
                  && Stuck(cfg, s.phase.probe.sentAt, now))
  {
  }

  // ---- Closed ----

  /** The outcomes recorded by a run. */
  function Outcomes(es: seq<Event>): seq<bool> {
    if es == [] then []
    else
      var e := es[|es| - 1];
      Outcomes(es[..|es| - 1]) +
      if e.op == Success then [false] else if e.op == Failure then [true] else []
  }

  /** Some failure of the run finds too many errors in the window. */
  ghost predicate TripsDuring(cfg: Config, before: seq<bool>, es: seq<Event>) {
    es != [] && (
      || TripsDuring(cfg, before, es[..|es| - 1])
      || (es[|es| - 1].op == Failure && Trips(cfg, before + Outcomes(es))))
  }

  /** The circuit stays closed exactly while no failure trips the scan of the last `windowSize`
      outcomes, and then it knows every outcome since the start. */
  lemma {:induction false} ClosedUntilTrip(cfg: Config, s: State, es: seq<Event>)
    requires s.phase.Closed? && !TripsDuring(cfg, s.phase.outcomes, es)
    ensures Run(cfg, s, es) == s.(phase := Closed(s.phase.outcomes + Outcomes(es)))
  {
    if es == [] {
      assert s.phase.outcomes + [] == s.phase.outcomes;
    } else {
      var front := es[..|es| - 1];
      ClosedUntilTrip(cfg, s, front);
      var o, e := s.phase.outcomes, es[|es| - 1];
      assert e.op == Success ==> o + Outcomes(front) + [false] == o + Outcomes(es);
      assert e.op == Failure ==> o + Outcomes(front) + [true] == o + Outcomes(es);
      assert e.op == Allow || e.op == Abort ==> Outcomes(es) == Outcomes(front);
    }
  }

  /** The first tripping failure opens the circuit at that moment. */
  lemma OpensAtTrip(cfg: Config, s: State, es: seq<Event>)
    requires s.phase.Closed? && es != [] && !TripsDuring(cfg, s.phase.outcomes, es[..|es| - 1])
    ensures Run(cfg, s, es).phase.Open? <==> TripsDuring(cfg, s.phase.outcomes, es)
    ensures Run(cfg, s, es).phase.Open? ==> Run(cfg, s, es).phase.since == es[|es| - 1].at
  {
    var front, o, e := es[..|es| - 1], s.phase.outcomes, es[|es| - 1];
    ClosedUntilTrip(cfg, s, front);
    assert e.op == Failure ==> o + Outcomes(front) + [true] == o + Outcomes(es);
  }

  // ---- history ----

  function LastMode(trace: seq<Entry>): Mode {
    if trace == [] then ClosedMode else trace[|trace| - 1].to
  }

  /** Every recorded change starts where the previous one ended and is one of the four that exist. */
  ghost predicate Chained(trace: seq<Entry>) {
    trace == [] || (
      var front, e := trace[..|trace| - 1], trace[|trace| - 1];
      Chained(front) && e.from == LastMode(front) && LegalChange(e.from, e.to))
  }

  predicate LegalChange(from: Mode, to: Mode) {
    || (from == ClosedMode && to == OpenMode)
    || (from == OpenMode && to == HalfOpenMode)
    || (from == HalfOpenMode && (to == OpenMode || to == ClosedMode))
  }

  lemma {:induction false} RunChained(cfg: Config, es: seq<Event>)
    ensures Chained(Run(cfg, Initial, es).trace)
    ensures LastMode(Run(cfg, Initial, es).trace) == ModeOf(Run(cfg, Initial, es).phase)
  {
    if es != [] {
      var s := Run(cfg, Initial, es[..|es| - 1]);
      RunChained(cfg, es[..|es| - 1]);
      var s' := Run(cfg, Initial, es);
      if s'.trace != s.trace {
        assert s'.trace[..|s'.trace| - 1] == s.trace;
      }
    }
  }

  /** Consecutive entries of the visible history chain, except that Closed may follow Half-open. */
  predicate Follows(d: Entry, e: Entry) {
    e.from == d.to || (d.to == HalfOpenMode && e.from == ClosedMode)
  }

  ghost predicate Linked(v: seq<Entry>) {
    |v| < 2 || (Linked(v[..|v| - 1]) && Follows(v[|v| - 2], v[|v| - 1]))
  }

  lemma {:induction false} LinkedAt(v: seq<Entry>, k: nat)
    requires Linked(v) && k + 1 < |v|
    ensures Follows(v[k], v[k + 1])
  {
    if k + 2 < |v| { LinkedAt(v[..|v| - 1], k); }
  }

  lemma {:induction false} VisibleFollows(trace: seq<Entry>)
    requires Chained(trace)
    ensures Linked(Visible(trace))
    ensures Visible(trace) != [] ==>
              var to := Visible(trace)[|Visible(trace)| - 1].to;
              to == LastMode(trace) || (to == HalfOpenMode && LastMode(trace) == ClosedMode)
  {
    if trace != [] {
      var front, e := trace[..|trace| - 1], trace[|trace| - 1];
      VisibleFollows(front);
      if Recorded(e) {
        assert Visible(trace)[..|Visible(trace)| - 1] == Visible(front);
      } else {
        assert Visible(trace) == Visible(front);
      }
    }
  }

  lemma {:induction false} VisibleLegal(trace: seq<Entry>)
    requires Chained(trace)
    ensures forall e :: e in Visible(trace) ==> Recorded(e) && LegalChange(e.from, e.to)
  {
    if trace != [] {
      VisibleLegal(trace[..|trace| - 1]);
    }
  }

  /** What is known of neighbouring entries of a history. */
  ghost predicate Consecutive(d: Entry, e: Entry) {
    Follows(d, e) && Recorded(d) && Recorded(e) && LegalChange(d.from, d.to) && LegalChange(e.from, e.to)
  }

  lemma ChainedHistory(trace: seq<Entry>, h: seq<Entry>, k: nat)
    requires Chained(trace) && h == Last(Visible(trace), HISTORY) && k + 1 < |h|
    ensures Consecutive(h[k], h[k + 1])
  {
    var v := Visible(trace);
    VisibleFollows(trace);
    VisibleLegal(trace);
    LinkedAt(v, |v| - |h| + k);
    assert h[k] == v[|v| - |h| + k] && h[k + 1] == v[|v| - |h| + k + 1];
  }

  /** The history an observer reads after any run: at most 20 entries, each following the one before. */
  lemma HistoryFollows(cfg: Config, es: seq<Event>, h: seq<Entry>)
    requires h == Last(Visible(Run(cfg, Initial, es).trace), HISTORY)
    ensures |h| == Min(20, |Visible(Run(cfg, Initial, es).trace)|)
    ensures forall k, l :: 0 <= k < |h| && 0 <= l < |h| && l == k + 1 ==> Consecutive(h[k], h[l])
  {
    RunChained(cfg, es);
    forall k, l | 0 <= k < |h| && 0 <= l < |h| && l == k + 1 ensures Consecutive(h[k], h[l]) {
      ChainedHistory(Run(cfg, Initial, es).trace, h, k);
    }
  }
}
