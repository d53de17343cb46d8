/** What the circuit breaker is meant to do, by scanning outcomes (src/route/circuit_breaker.rs).
    Every operation is one atomic step at a given monotonic time in milliseconds. */
module Breaker {

  import opened Prelude

  /** The configuration after construction has clamped it. */
  datatype Config = Config(threshold: nat, windowSize: nat, timeoutSecs: nat, maxProbes: nat)

  predicate Usable(cfg: Config) {
    cfg.windowSize >= 1 && 1 <= cfg.maxProbes <= 63
  }

  function TimeoutMs(cfg: Config): nat { cfg.timeoutSecs * 1000 % U64 }

  function MinSamples(cfg: Config): nat { Min(Max(cfg.windowSize / 4, 5), cfg.windowSize) }

  /** A probe unanswered for this long counts as lost. */
  function StuckMs(cfg: Config): nat { Max(TimeoutMs(cfg), 100) }

  datatype Mode = ClosedMode | OpenMode | HalfOpenMode

  datatype Entry = Entry(from: Mode, to: Mode, at: nat)

  datatype Probe = Free | InFlight(sentAt: nat)

  datatype Phase =
    | Closed(outcomes: seq<bool>)  // every outcome since construction or the last close; true is an error
    | Open(since: nat)
    | HalfOpen(successes: nat, probe: Probe)

  /** `trace` records every change of mode. */
  datatype State = State(phase: Phase, trace: seq<Entry>)

  function ModeOf(p: Phase): Mode {
    match p
    case Closed(_) => ClosedMode
    case Open(_) => OpenMode
    case HalfOpen(_, _) => HalfOpenMode
  }

  function Errors(w: seq<bool>): (n: nat)
    ensures n <= |w|
  {
    if w == [] then 0 else Errors(w[1..]) + if w[0] then 1 else 0
  }

  /** The decision made by scanning the last outcomes. */
  predicate Trips(cfg: Config, outcomes: seq<bool>) {
    var w := Last(outcomes, cfg.windowSize);
    Errors(w) * 100 >= |w| * cfg.threshold && |w| >= MinSamples(cfg)
  }

  function Go(s: State, p: Phase, now: nat): State {
    State(p, s.trace + [Entry(ModeOf(s.phase), ModeOf(p), now)])
  }

  const Initial := State(Closed([]), [])

  predicate Recovered(cfg: Config, since: nat, now: nat) {
    Minus(now, since) >= TimeoutMs(cfg)
  }

  predicate Stuck(cfg: Config, sentAt: nat, now: nat) {
    sentAt > 0 && Minus(now, sentAt) >= StuckMs(cfg)
  }

  predicate Granted(cfg: Config, s: State, now: nat) {
    match s.phase
    case Closed(_) => true
    case Open(since) => Recovered(cfg, since, now)
    case HalfOpen(n, Free) => n < cfg.maxProbes
    case HalfOpen(n, InFlight(t)) => n < cfg.maxProbes && Stuck(cfg, t, now)
  }

  /** What `can_accept_request` answers, without reserving anything. */
  predicate CanAccept(cfg: Config, s: State, now: nat) {
    match s.phase
    case Closed(_) => true
    case Open(since) => Recovered(cfg, since, now)
    case HalfOpen(n, probe) => n < cfg.maxProbes && probe == Free
  }

  function Allowed(cfg: Config, s: State, now: nat): State {
    if !Granted(cfg, s, now) then s
    else match s.phase
      case Closed(_) => s
      case Open(_) => Go(s, HalfOpen(0, InFlight(now)), now)
      case HalfOpen(n, _) => s.(phase := HalfOpen(n, InFlight(now)))
  }

  function Succeeded(cfg: Config, s: State, now: nat): State {
    match s.phase
    case Closed(o) => s.(phase := Closed(o + [false]))
    case Open(_) => s
    case HalfOpen(n, _) =>
      if n + 1 >= cfg.maxProbes then Go(s, Closed([]), now) else s.(phase := HalfOpen(n + 1, Free))
  }

  function Failed(cfg: Config, s: State, now: nat): State {
    match s.phase
    case Closed(o) =>
      if Trips(cfg, o + [true]) then Go(s, Open(now), now) else s.(phase := Closed(o + [true]))
    case Open(_) => s
    case HalfOpen(_, _) => Go(s, Open(now), now)
  }

  function Aborted(s: State): State {
    match s.phase
    case HalfOpen(n, _) => s.(phase := HalfOpen(n, Free))
    case _ => s
  }

  /** What the program's transition history shows: a successful recovery is not recorded. */
  predicate Recorded(e: Entry) {
    !(e.from == HalfOpenMode && e.to == ClosedMode)
  }

  function Visible(trace: seq<Entry>): seq<Entry> {
    if trace == [] then []
    else Visible(trace[..|trace| - 1]) + if Recorded(trace[|trace| - 1]) then [trace[|trace| - 1]] else []
  }

  const HISTORY := 20

  // ---- windows ----

  lemma {:induction false} ErrorsPush(w: seq<bool>, x: bool)
    ensures Errors(w + [x]) == Errors(w) + if x then 1 else 0
  {
    if w != [] {
      ErrorsPush(w[1..], x);
      assert (w + [x])[1..] == w[1..] + [x];
    }
  }

  lemma VisiblePush(trace: seq<Entry>, e: Entry)
    ensures Visible(trace + [e]) == Visible(trace) + if Recorded(e) then [e] else []
  {
    assert (trace + [e])[..|trace|] == trace;
  }
}
