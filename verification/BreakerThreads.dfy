/** Any number of threads inside the breaker at once (src/route/circuit_breaker.rs, lines 150-408).
    One step of one thread is one atomic load, store, exchange or counter update, one reading of the
    clock, or one step of the region guarded by the window lock; time may pass between any two.
    Memory is sequentially consistent. */
module BreakerThreads {
  import opened Prelude
  import opened Breaker
  import opened CircuitBreakers

  datatype Shared = Shared(
    state: byte,
    window: seq<bool>,
    errorCount: nat,
    openedAt: nat,
    inFlight: bool,
    sentAt: nat,
    lock: Option<nat>,
    now: nat,
    grants: nat,   // half-open probes granted so far
    clears: nat)   // stores of false to the in-flight flag so far

  /** Where a thread stands, with the local values it will still use. */
  datatype Pc =
    | Rest(granted: bool)  // outside the breaker; the answer of its last allow_request
    | AllowLoad | AllowElapsed | AllowCheck(since: nat)
    | HalfOpenLoad | HalfOpenCas(current: byte) | HalfOpenClear
    | FlagLoad | SentLoad | SentCheck(sent: nat) | StuckClear | FlagCas | StampRead | SentStore(at: nat)
    | AbortLoad | AbortSent | AbortClear
    | SuccessLoad | SuccessClear(seen: byte) | SuccessCas(seen: byte)
    | ErrorLoad | ErrorClear
    | PushLock(isError: bool) | PushAdd | PushPop(isError: bool) | PushSub(isError: bool)
    | PushBack(isError: bool) | PushUnlock(isError: bool)
    | CloseLoad | CloseClear(current: byte) | CloseCas(current: byte)
    | CloseLock | CloseWindow | CloseErrors | CloseUnlock
    | OpenStamp | OpenStore(at: nat) | OpenClear
    | OpenLoad(attempts: nat) | OpenCas(current: byte, attempts: nat) | OpenForce

  datatype System = System(shared: Shared, threads: seq<Pc>)

  datatype Call = CallAllow | CallSuccess | CallError | CallAbort

  datatype Move =
    | Begin(t: nat, call: Call)
    | Advance(t: nat)
    | Tick(ms: nat)

  function Exchange(s: Shared, current: byte, next: byte): Shared {
    if s.state == current then s.(state := next) else s
  }

  function Clear(s: Shared): Shared {
    s.(inFlight := false, clears := s.clears + 1)
  }

  /** What the scan inside the lock decides from the counter and the window length. */
  predicate CounterTrips(cfg: Config, s: Shared) {
    |s.window| > 0 && s.errorCount * 100 >= |s.window| * cfg.threshold && |s.window| >= MinSamples(cfg)
  }

  function StepAllow(cfg: Config, s: Shared, pc: Pc): (Shared, Pc) {
    match pc
    case AllowLoad =>
      if StateBits(s.state) == STATE_CLOSED then (s, Rest(true))
      else if StateBits(s.state) == STATE_OPEN then (s, AllowElapsed)
      else if StateBits(s.state) == STATE_HALF_OPEN && ProbeCount(s.state) < cfg.maxProbes then (s, FlagLoad)
      else (s, Rest(false))
    case AllowElapsed => (s, AllowCheck(s.openedAt))
    case AllowCheck(since) => (s, if Recovered(cfg, since, s.now) then HalfOpenLoad else Rest(false))
    case HalfOpenLoad =>
      if StateBits(s.state) == STATE_HALF_OPEN || StateBits(s.state) == STATE_CLOSED then (s, AllowLoad)
      else (s, HalfOpenCas(s.state))
    case HalfOpenCas(current) =>
      if s.state == current then (s.(state := STATE_HALF_OPEN), HalfOpenClear)
      else (s, if StateBits(s.state) != STATE_OPEN then AllowLoad else Rest(false))
    case HalfOpenClear => (Clear(s), AllowLoad)
    case FlagLoad => (s, if s.inFlight then SentLoad else FlagCas)
    case SentLoad => (s, SentCheck(s.sentAt))
    case SentCheck(sent) => (s, if Stuck(cfg, sent, s.now) then StuckClear else FlagCas)
    case StuckClear => (Clear(s), FlagCas)
    case FlagCas =>
      if s.inFlight then (s, Rest(false)) else (s.(inFlight := true, grants := s.grants + 1), StampRead)
    case StampRead => (s, SentStore(s.now))
    case SentStore(at) => (s.(sentAt := at), Rest(true))
    case _ => (s, pc)
  }

  function StepRecord(cfg: Config, s: Shared, pc: Pc): (Shared, Pc) {
    match pc
    case AbortLoad => (s, if StateBits(s.state) == STATE_HALF_OPEN then AbortSent else Rest(false))
    case AbortSent => (s.(sentAt := 0), AbortClear)
    case AbortClear => (Clear(s), Rest(false))
    case SuccessLoad =>
      (s, if StateBits(s.state) == STATE_CLOSED then PushLock(false)
          else if StateBits(s.state) == STATE_HALF_OPEN then SuccessClear(s.state) else Rest(false))
    case SuccessClear(seen) =>
      (Clear(s), if ProbeCount(seen) + 1 >= cfg.maxProbes then CloseLoad else SuccessCas(seen))
    case SuccessCas(seen) => (Exchange(s, seen, HalfOpenByte(ProbeCount(seen) + 1)), Rest(false))
    case ErrorLoad =>
      (s, if StateBits(s.state) == STATE_CLOSED then PushLock(true)
          else if StateBits(s.state) == STATE_HALF_OPEN then ErrorClear else Rest(false))
    case ErrorClear => (Clear(s), OpenStamp)
    case _ => (s, pc)
  }

  /** The region under the window lock; t is the thread that runs. */
  function StepWindow(cfg: Config, s: Shared, pc: Pc, t: nat): (Shared, Pc) {
    match pc
    case PushLock(isError) =>
      if s.lock.Some? then (s, pc)
      else (s.(lock := Some(t)), if isError then PushAdd else PushPop(false))
    case PushAdd => (s.(errorCount := (s.errorCount + 1) % U64), PushPop(true))
    case PushPop(isError) =>
      if |s.window| >= cfg.windowSize && s.window != [] then
        (s.(window := s.window[1..]), if s.window[0] then PushSub(isError) else PushBack(isError))
      else (s, PushBack(isError))
    case PushSub(isError) => (s.(errorCount := (s.errorCount - 1) % U64), PushBack(isError))
    case PushBack(isError) => (s.(window := s.window + [isError]), PushUnlock(isError))
    case PushUnlock(isError) =>
      (s.(lock := None), if isError && CounterTrips(cfg, s) then OpenStamp else Rest(false))
    case CloseLock => if s.lock.Some? then (s, pc) else (s.(lock := Some(t)), CloseWindow)
    case CloseWindow => (s.(window := []), CloseErrors)
    case CloseErrors => (s.(errorCount := 0), CloseUnlock)
    case CloseUnlock => (s.(lock := None), Rest(false))
    case _ => (s, pc)
  }

  function StepTransition(s: Shared, pc: Pc): (Shared, Pc) {
    match pc
    case CloseLoad => (s, CloseClear(s.state))
    case CloseClear(current) => (Clear(s), CloseCas(current))
    case CloseCas(current) => (Exchange(s, current, STATE_CLOSED), CloseLock)
    case OpenStamp => (s, OpenStore(s.now))
    case OpenStore(at) => (s.(openedAt := at), OpenClear)
    case OpenClear => (Clear(s), OpenLoad(0))
    case OpenLoad(attempts) => (s, OpenCas(s.state, attempts))
    case OpenCas(current, attempts) =>
      if s.state == current then (s.(state := STATE_OPEN), Rest(false))
      else if StateBits(s.state) == STATE_OPEN then (s, Rest(false))
      else (s, if attempts + 1 >= 64 then OpenForce else OpenLoad(attempts + 1))
    case OpenForce => (s.(state := STATE_OPEN), Rest(false))
    case _ => (s, pc)
  }

  predicate InAllow(pc: Pc) {
    pc.AllowLoad? || pc.AllowElapsed? || pc.AllowCheck? || pc.HalfOpenLoad? || pc.HalfOpenCas? || pc.HalfOpenClear? ||
    pc.FlagLoad? || pc.SentLoad? || pc.SentCheck? || pc.StuckClear? || pc.FlagCas? || pc.StampRead? ||
    pc.SentStore?
  }

  predicate InRecord(pc: Pc) {
    pc.AbortLoad? || pc.AbortSent? || pc.AbortClear? || pc.SuccessLoad? || pc.SuccessClear? ||
    pc.SuccessCas? || pc.ErrorLoad? || pc.ErrorClear?
  }

  predicate InWindow(pc: Pc) {
    pc.PushLock? || pc.CloseLock? || Holding(pc)
  }

  predicate Holding(pc: Pc) {
    pc.PushAdd? || pc.PushPop? || pc.PushSub? || pc.PushBack? || pc.PushUnlock? ||
    pc.CloseWindow? || pc.CloseErrors? || pc.CloseUnlock?
  }

  function Step(cfg: Config, s: Shared, pc: Pc, t: nat): (Shared, Pc) {
    if InAllow(pc) then StepAllow(cfg, s, pc)
    else if InRecord(pc) then StepRecord(cfg, s, pc)
    else if InWindow(pc) then StepWindow(cfg, s, pc, t)
    else StepTransition(s, pc)
  }

  function Enter(call: Call): Pc {
    match call
    case CallAllow => AllowLoad
    case CallSuccess => SuccessLoad
    case CallError => ErrorLoad
    case CallAbort => AbortLoad
  }

  /** One move of the scheduler; a move that is not possible changes nothing. */
  function Do(cfg: Config, m: System, move: Move): System {
    match move
    case Tick(ms) => m.(shared := m.shared.(now := m.shared.now + ms))
    case Begin(t, call) =>
      if t < |m.threads| && m.threads[t].Rest? then m.(threads := m.threads[t := Enter(call)]) else m
    case Advance(t) =>
      if t < |m.threads| then
        var (s, pc) := Step(cfg, m.shared, m.threads[t], t);
        System(s, m.threads[t := pc])
      else m
  }

  function Exec(cfg: Config, m: System, moves: seq<Move>): System {
    if moves == [] then m else Do(cfg, Exec(cfg, m, moves[..|moves| - 1]), moves[|moves| - 1])
  }

  /** n threads around a new breaker. */
  function Start(n: nat): System {
    System(Shared(STATE_CLOSED, [], 0, 0, false, 0, None, 0, 0, 0), seq(n, _ => Rest(false)))
  }

  // ---- the invariant ----

  /** Every local value a thread will still write into the byte is one that decodes. */
  predicate LocalsOk(cfg: Config, pc: Pc) {
    match pc
    case SuccessClear(seen) => StateBits(seen) == STATE_HALF_OPEN && ProbeCount(seen) < cfg.maxProbes
    case SuccessCas(seen) => StateBits(seen) == STATE_HALF_OPEN && ProbeCount(seen) + 1 < cfg.maxProbes
    case HalfOpenCas(current) => current == STATE_OPEN
    case _ => true
  }

  function Bit(b: bool): nat { if b then 1 else 0 }

  /** How far the counter runs ahead of the window while pc holds the lock. */
  function Ahead(pc: Pc): nat {
    match pc
    case PushPop(isError) => Bit(isError)
    case PushSub(isError) => Bit(isError) + 1
    case PushBack(isError) => Bit(isError)
    case _ => 0
  }

  ghost predicate CounterOk(s: Shared, ahead: nat) {
    s.errorCount == (Errors(s.window) + ahead) % U64
  }

  ghost predicate HolderOk(cfg: Config, s: Shared, pc: Pc) {
    && |s.window| <= cfg.windowSize
    && (pc.CloseErrors? ==> s.window == [])
    && (!pc.CloseErrors? ==> CounterOk(s, Ahead(pc)))
    && (pc.PushBack? || pc.PushSub? ==> |s.window| < cfg.windowSize)
  }

  ghost predicate AllLocalsOk(cfg: Config, threads: seq<Pc>) {
    forall t :: 0 <= t < |threads| ==> LocalsOk(cfg, threads[t])
  }

  /** The lock names the one thread inside the locked region. */
  ghost predicate LockOk(m: System) {
    && (forall t :: 0 <= t < |m.threads| ==> (Holding(m.threads[t]) <==> m.shared.lock == Some(t)))
    && (m.shared.lock.Some? ==> m.shared.lock.value < |m.threads|)
  }

  /** The program point of the lock's holder. */
  ghost function Holder(m: System): Pc {
    if m.shared.lock.Some? && m.shared.lock.value < |m.threads| then m.threads[m.shared.lock.value] else Rest(false)
  }

  ghost predicate FlagOk(s: Shared) {
    s.grants <= s.clears + Bit(s.inFlight)
  }

  ghost predicate Inv(cfg: Config, m: System) {
    && Decodes(m.shared.state, cfg.maxProbes)
    && AllLocalsOk(cfg, m.threads)
    && LockOk(m)
    && HolderOk(cfg, m.shared, Holder(m))
    && FlagOk(m.shared)
  }

  /** What one step must keep of the byte, the locals and the probe counts. */
  ghost predicate StepOk(cfg: Config, r: (Shared, Pc)) {
    Decodes(r.0.state, cfg.maxProbes) && LocalsOk(cfg, r.1) && FlagOk(r.0)
  }

  lemma AllowByte(cfg: Config, s: Shared, pc: Pc)
    requires Usable(cfg) && StepOk(cfg, (s, pc))
    ensures StepOk(cfg, StepAllow(cfg, s, pc))
  {
  }

  lemma RecordByte(cfg: Config, s: Shared, pc: Pc)
    requires Usable(cfg) && StepOk(cfg, (s, pc))
    ensures StepOk(cfg, StepRecord(cfg, s, pc))
  {
  }

  lemma WindowByte(cfg: Config, s: Shared, pc: Pc, t: nat)
    requires StepOk(cfg, (s, pc))
    ensures StepOk(cfg, StepWindow(cfg, s, pc, t))
  {
  }

  lemma TransitionByte(cfg: Config, s: Shared, pc: Pc)
    requires StepOk(cfg, (s, pc))
    ensures StepOk(cfg, StepTransition(s, pc))
  {
  }

  lemma StepByte(cfg: Config, s: Shared, pc: Pc, t: nat)
    requires Usable(cfg) && StepOk(cfg, (s, pc))
    ensures StepOk(cfg, Step(cfg, s, pc, t))
  {
    hide StepOk, StepAllow, StepRecord, StepWindow, StepTransition;
    AllowByte(cfg, s, pc);
    RecordByte(cfg, s, pc);
    WindowByte(cfg, s, pc, t);
    TransitionByte(cfg, s, pc);
  }

  lemma CounterMod(x: nat, y: nat)
    ensures ((x % U64) + y) % U64 == (x + y) % U64
    ensures ((x + 1) % U64 - 1) % U64 == x % U64
  {
  }

  /** Outside the locked region nothing touches the lock, the window or the counter. */
  ghost predicate LeavesWindow(s: Shared, r: (Shared, Pc)) {
    r.0.lock == s.lock && r.0.window == s.window && r.0.errorCount == s.errorCount && !Holding(r.1)
  }

  lemma AllowOutside(cfg: Config, s: Shared, pc: Pc)
    requires !Holding(pc)
    ensures LeavesWindow(s, StepAllow(cfg, s, pc))
  {
  }

  lemma RecordOutside(cfg: Config, s: Shared, pc: Pc)
    requires !Holding(pc)
    ensures LeavesWindow(s, StepRecord(cfg, s, pc))
  {
  }

  lemma TransitionOutside(s: Shared, pc: Pc)
    requires !Holding(pc)
    ensures LeavesWindow(s, StepTransition(s, pc))
  {
  }

  /** Entering the region takes a free lock and changes nothing else. */
  ghost predicate Enters(s: Shared, r: (Shared, Pc), t: nat) {
    && s.lock == None && r.0 == s.(lock := Some(t))
    && (r.1.PushAdd? || r.1 == PushPop(false) || r.1.CloseWindow?)
  }

  lemma StepOutside(cfg: Config, s: Shared, pc: Pc, t: nat)
    requires !Holding(pc)
    ensures LeavesWindow(s, Step(cfg, s, pc, t)) || Enters(s, Step(cfg, s, pc, t), t)
  {
    AllowOutside(cfg, s, pc);
    RecordOutside(cfg, s, pc);
    TransitionOutside(s, pc);
    hide LeavesWindow, StepAllow, StepRecord, StepTransition;
  }

  lemma StepInside(cfg: Config, s: Shared, pc: Pc, t: nat)
    requires Holding(pc)
    ensures Step(cfg, s, pc, t) == StepWindow(cfg, s, pc, t)
    ensures var (s', pc') := StepWindow(cfg, s, pc, t); s'.lock == if Holding(pc') then s.lock else None
  {
  }

  lemma StepAdd(cfg: Config, s: Shared, t: nat)
    requires HolderOk(cfg, s, PushAdd)
    ensures var (s', pc') := StepWindow(cfg, s, PushAdd, t); HolderOk(cfg, s', pc')
  {
    CounterMod(Errors(s.window), 1);
  }

  lemma StepPop(cfg: Config, s: Shared, isError: bool, t: nat)
    requires Usable(cfg) && HolderOk(cfg, s, PushPop(isError))
    ensures var (s', pc') := StepWindow(cfg, s, PushPop(isError), t); HolderOk(cfg, s', pc')
  {
  }

  lemma StepSub(cfg: Config, s: Shared, isError: bool, t: nat)
    requires HolderOk(cfg, s, PushSub(isError))
    ensures var (s', pc') := StepWindow(cfg, s, PushSub(isError), t); HolderOk(cfg, s', pc')
  {
    CounterMod(Errors(s.window) + Bit(isError), 0);
  }

  lemma StepBack(cfg: Config, s: Shared, isError: bool, t: nat)
    requires HolderOk(cfg, s, PushBack(isError))
    ensures var (s', pc') := StepWindow(cfg, s, PushBack(isError), t); HolderOk(cfg, s', pc')
  {
    ErrorsPush(s.window, isError);
  }

  lemma StepLeaving(cfg: Config, s: Shared, pc: Pc, t: nat)
    requires HolderOk(cfg, s, pc)
    requires pc.PushUnlock? || pc.CloseWindow? || pc.CloseErrors? || pc.CloseUnlock?
    ensures var (s', pc') := StepWindow(cfg, s, pc, t);
            HolderOk(cfg, s', if Holding(pc') then pc' else Rest(false))
  {
  }

  /** The holder keeps the counter in step with the window. */
  lemma StepHolder(cfg: Config, s: Shared, pc: Pc, t: nat)
    requires Usable(cfg) && Holding(pc) && HolderOk(cfg, s, pc)
    ensures var (s', pc') := StepWindow(cfg, s, pc, t);
            HolderOk(cfg, s', if Holding(pc') then pc' else Rest(false))
  {
    if pc.PushAdd? {
      StepAdd(cfg, s, t);
    } else if pc.PushPop? {
      StepPop(cfg, s, pc.isError, t);
    } else if pc.PushSub? {
      StepSub(cfg, s, pc.isError, t);
    } else if pc.PushBack? {
      StepBack(cfg, s, pc.isError, t);
    } else {
      StepLeaving(cfg, s, pc, t);
    }
  }

  lemma AdvanceLock(cfg: Config, m: System, t: nat)
    requires LockOk(m) && t < |m.threads|
    ensures LockOk(Do(cfg, m, Advance(t)))
  {
    if Holding(m.threads[t]) {
      StepInside(cfg, m.shared, m.threads[t], t);
    } else {
      StepOutside(cfg, m.shared, m.threads[t], t);
    }
  }

  lemma AdvanceHolder(cfg: Config, m: System, t: nat)
    requires Usable(cfg) && LockOk(m) && t < |m.threads| && HolderOk(cfg, m.shared, Holder(m))
    ensures var m' := Do(cfg, m, Advance(t)); HolderOk(cfg, m'.shared, Holder(m'))
  {
    var s, pc := m.shared, m.threads[t];
    if Holding(pc) {
      StepInside(cfg, s, pc, t);
      StepHolder(cfg, s, pc, t);
    } else {
      StepOutside(cfg, s, pc, t);
    }
  }

  lemma DoInv(cfg: Config, m: System, move: Move)
    requires Usable(cfg) && Inv(cfg, m)
    ensures Inv(cfg, Do(cfg, m, move))
  {
    match move
    case Tick(_) =>
    case Begin(t, call) =>
    case Advance(t) =>
      if t < |m.threads| {
        StepByte(cfg, m.shared, m.threads[t], t);
        AdvanceLock(cfg, m, t);
        AdvanceHolder(cfg, m, t);
      }
  }

  lemma {:induction false} ExecInv(cfg: Config, n: nat, moves: seq<Move>)
    requires Usable(cfg)
    ensures Inv(cfg, Exec(cfg, Start(n), moves)) && |Exec(cfg, Start(n), moves).threads| == n
  {
    if moves != [] {
      ExecInv(cfg, n, moves[..|moves| - 1]);
      DoInv(cfg, Exec(cfg, Start(n), moves[..|moves| - 1]), moves[|moves| - 1]);
    }
  }

  /** Without wrap-around the counter is exact. */
  lemma ExactCounter(cfg: Config, s: Shared, pc: Pc)
    requires HolderOk(cfg, s, pc) && !pc.CloseErrors? && cfg.windowSize + Ahead(pc) < U64
    ensures s.errorCount == Errors(s.window) + Ahead(pc)
  {
  }

  // ---- main results, for every schedule of any number of threads ----

  /** The byte always decodes: a known state, a probe count below the limit, and no count outside half-open. */
  lemma ByteAlwaysDecodes(cfg: Config, n: nat, moves: seq<Move>)
    requires Usable(cfg)
    ensures var b := Exec(cfg, Start(n), moves).shared.state;
            && StateBits(b) <= STATE_HALF_OPEN
            && ProbeCount(b) < cfg.maxProbes
            && (StateBits(b) != STATE_HALF_OPEN ==> ProbeCount(b) == 0)
  {
    ExecInv(cfg, n, moves);
  }

  /** Whenever the window lock is free the counter is the number of errors in the window. */
  lemma CounterMatchesWindow(cfg: Config, n: nat, moves: seq<Move>)
    requires Usable(cfg) && cfg.windowSize < U64
    ensures var s := Exec(cfg, Start(n), moves).shared;
            s.lock == None ==> s.errorCount == Errors(s.window) && |s.window| <= cfg.windowSize
  {
    ExecInv(cfg, n, moves);
    var s := Exec(cfg, Start(n), moves).shared;
    if s.lock == None { ExactCounter(cfg, s, Rest(false)); }
  }

  /** At most one thread is inside the locked region, and its decision equals a scan of the window. */
  lemma DecisionIsAScan(cfg: Config, n: nat, moves: seq<Move>, m: System, t: nat)
    requires Usable(cfg) && cfg.windowSize < U64
    requires m == Exec(cfg, Start(n), moves) && t < |m.threads| && m.threads[t].PushUnlock?
    ensures forall u :: 0 <= u < |m.threads| && Holding(m.threads[u]) ==> u == t
    ensures CounterTrips(cfg, m.shared) <==> m.shared.window != [] && Trips(cfg, m.shared.window)
  {
    ExecInv(cfg, n, moves);
    assert Holding(m.threads[t]);
    ExactCounter(cfg, m.shared, m.threads[t]);
  }

  /** The counter is never decremented below zero. */
  lemma CounterNeverUnderflows(cfg: Config, n: nat, moves: seq<Move>, m: System, t: nat)
    requires Usable(cfg) && cfg.windowSize + 2 < U64
    requires m == Exec(cfg, Start(n), moves) && t < |m.threads| && m.threads[t].PushSub?
    ensures m.shared.errorCount > 0
  {
    ExecInv(cfg, n, moves);
    assert Holding(m.threads[t]);
    ExactCounter(cfg, m.shared, m.threads[t]);
  }

  /** Two probes are never granted without the flag being cleared in between. */
  lemma GrantsNeedClears(cfg: Config, n: nat, moves: seq<Move>)
    requires Usable(cfg)
    ensures var s := Exec(cfg, Start(n), moves).shared; s.grants <= s.clears + 1
  {
    ExecInv(cfg, n, moves);
  }

  function Unmatched(s: Shared): int { s.grants - s.clears - Bit(s.inFlight) }

  lemma {:induction false} UnmatchedNeverGrows(cfg: Config, m: System, moves: seq<Move>)
    ensures Unmatched(Exec(cfg, m, moves).shared) <= Unmatched(m.shared)
  {
    if moves != [] {
      var front := Exec(cfg, m, moves[..|moves| - 1]);
      UnmatchedNeverGrows(cfg, m, moves[..|moves| - 1]);
      var move := moves[|moves| - 1];
      if move.Advance? && move.t < |front.threads| {
        StepUnmatched(cfg, front.shared, front.threads[move.t], move.t);
      }
    }
  }

  lemma AllowUnmatched(cfg: Config, s: Shared, pc: Pc)
    ensures Unmatched(StepAllow(cfg, s, pc).0) <= Unmatched(s)
  {
  }

  lemma RecordUnmatched(cfg: Config, s: Shared, pc: Pc)
    ensures Unmatched(StepRecord(cfg, s, pc).0) <= Unmatched(s)
  {
  }

  lemma WindowUnmatched(cfg: Config, s: Shared, pc: Pc, t: nat)
    ensures Unmatched(StepWindow(cfg, s, pc, t).0) == Unmatched(s)
  {
  }

  lemma TransitionUnmatched(s: Shared, pc: Pc)
    ensures Unmatched(StepTransition(s, pc).0) <= Unmatched(s)
  {
  }

  lemma StepUnmatched(cfg: Config, s: Shared, pc: Pc, t: nat)
    ensures Unmatched(Step(cfg, s, pc, t).0) <= Unmatched(s)
  {
    hide StepAllow, StepRecord, StepWindow, StepTransition, Unmatched;
    AllowUnmatched(cfg, s, pc);
    RecordUnmatched(cfg, s, pc);
    WindowUnmatched(cfg, s, pc, t);
    TransitionUnmatched(s, pc);
  }

  /** From any state with a probe in flight, every further grant costs a clear of the flag. */
  lemma ExclusiveUntilClear(cfg: Config, m: System, moves: seq<Move>)
    requires m.shared.inFlight
    ensures var e := Exec(cfg, m, moves).shared;
            e.grants - m.shared.grants <= e.clears - m.shared.clears
  {
    UnmatchedNeverGrows(cfg, m, moves);
  }
}
