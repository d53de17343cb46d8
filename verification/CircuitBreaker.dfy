/** The breaker as the program keeps it: a packed state byte, an error counter that is adjusted on
    every push and pop, and a bounded history (src/route/circuit_breaker.rs, lines 68-448). */
module CircuitBreakers {
  import opened Prelude
  import opened Breaker

  // ---- the packed byte: bits 0-1 state, bits 2-7 successful probes ----

  const STATE_CLOSED: byte := 0
  const STATE_OPEN: byte := 1
  const STATE_HALF_OPEN: byte := 2

  /** StateBits(state) */
  function StateBits(b: byte): byte { b % 4 }

  /** (state >> 2) & 0x3F */
  function ProbeCount(b: byte): nat { b / 4 }

  /** STATE_HALF_OPEN | ((n as u8) << 2) */
  function HalfOpenByte(n: nat): byte { (2 + 4 * n) % 256 }

  lemma MaskIsState(b: bv8)
    ensures (b & 0x03) as int == StateBits(b as int)
  {
  }

  lemma ShiftIsCount(b: bv8)
    ensures ((b >> 2) & 0x3F) as int == ProbeCount(b as int)
  {
  }

  lemma OrIsHalfOpen(n: bv8)
    requires n < 64
    ensures (2 | (n << 2)) as int == HalfOpenByte(n as int)
  {
  }

  /** The three definitions above are the program's mask and shift expressions. */
  lemma PackingIsMasking(b: bv8, n: bv8)
    requires n < 64
    ensures (b & 0x03) as int == StateBits(b as int)
    ensures ((b >> 2) & 0x3F) as int == ProbeCount(b as int)
    ensures (2 | (n << 2)) as int == HalfOpenByte(n as int)
  {
    MaskIsState(b);
    ShiftIsCount(b);
    OrIsHalfOpen(n);
    hide StateBits, ProbeCount, HalfOpenByte;
  }

  /** A byte the program can have written. */
  predicate Decodes(b: byte, maxProbes: nat) {
    b == STATE_CLOSED || b == STATE_OPEN || (StateBits(b) == STATE_HALF_OPEN && ProbeCount(b) < maxProbes)
  }

  class CircuitBreaker {
    const cfg: Config
    var state: byte
    var window: seq<bool>
    var errorCount: nat
    var openedAt: nat
    var inFlight: bool
    var probeSentAt: nat
    var history: seq<Entry>

    ghost var outcomes: seq<bool>  // since construction or the last close
    ghost var trace: seq<Entry>    // every change of mode

    ghost function Phase(): Breaker.Phase
      reads this
    {
      if StateBits(state) == STATE_CLOSED then Closed(outcomes)
      else if StateBits(state) == STATE_OPEN then Open(openedAt)
      else HalfOpen(ProbeCount(state), if inFlight then InFlight(probeSentAt) else Free)
    }

    ghost function Abs(): State
      reads this
    {
      State(Phase(), trace)
    }

    ghost predicate WindowOk()
      reads this
    {
      cfg.windowSize >= 1 && |window| <= cfg.windowSize && errorCount == Errors(window)
    }

    ghost predicate HistoryOk()
      reads this
    {
      history == Last(Visible(trace), HISTORY)
    }

    ghost predicate Valid()
      reads this
    {
      && Usable(cfg)
      && Decodes(state, cfg.maxProbes)
      && WindowOk()
      && (state == STATE_CLOSED ==> window == Last(outcomes, cfg.windowSize))
      && HistoryOk()
    }

    constructor (threshold: nat, windowSize: nat, timeoutSecs: nat, maxProbes: nat)
      ensures Valid() && Abs() == Initial
      ensures cfg == Config(threshold, Max(windowSize, 1), timeoutSecs, Max(1, Min(maxProbes, 63)))
    {
      cfg := Config(threshold, Max(windowSize, 1), timeoutSecs, Max(1, Min(maxProbes, 63)));
      state, window, errorCount, openedAt := STATE_CLOSED, [], 0, 0;
      inFlight, probeSentAt, history := false, 0, [];
      outcomes, trace := [], [];
    }

    method CompareExchange(current: byte, next: byte) returns (ok: bool)
      modifies this`state
      ensures ok == (old(state) == current)
      ensures state == if ok then next else old(state)
    {
      ok := state == current;
      if ok { state := next; }
    }

    method RecoveryElapsed(now: nat) returns (r: bool)
      ensures r == Recovered(cfg, openedAt, now)
    {
      r := Minus(now, openedAt) >= TimeoutMs(cfg);
    }

    method CanAcceptRequest(now: nat) returns (r: bool)
      requires Valid()
      ensures r == CanAccept(cfg, Abs(), now)
    {
      if StateBits(state) == STATE_CLOSED {
        r := true;
      } else if StateBits(state) == STATE_OPEN {
        r := RecoveryElapsed(now);
      } else if StateBits(state) == STATE_HALF_OPEN {
        r := ProbeCount(state) < cfg.maxProbes && !inFlight;
      } else {
        r := false;
      }
    }

    method RecordTransition(from: Mode, to: Mode, now: nat)
      requires HistoryOk() && Recorded(Entry(from, to, now))
      modifies this`history, this`trace
      ensures trace == old(trace) + [Entry(from, to, now)]
      ensures HistoryOk()
    {
      VisiblePush(trace, Entry(from, to, now));
      LastPush(Visible(trace), Entry(from, to, now), HISTORY);
      if |history| >= HISTORY {
        history := history[1..];
      }
      history := history + [Entry(from, to, now)];
      trace := trace + [Entry(from, to, now)];
    }

    /** With atomic operations the exchange cannot lose. */
    method TryTransitionToHalfOpen(now: nat) returns (r: bool)
      requires Valid()
      modifies this`state, this`inFlight, this`history, this`trace
      ensures Valid() && r
      ensures old(Phase()).Open? ==> Abs() == Go(old(Abs()), HalfOpen(0, Free), now)
      ensures !old(Phase()).Open? ==> Abs() == old(Abs()) && state == old(state) && inFlight == old(inFlight)
    {
      var current := state;
      if StateBits(current) == STATE_HALF_OPEN || StateBits(current) == STATE_CLOSED {
        return true;
      }
      var ok := CompareExchange(current, STATE_HALF_OPEN);
      if !ok { assert false; }
      inFlight := false;
      RecordTransition(OpenMode, HalfOpenMode, now);
      r := true;
    }

    /** The half-open branch of `allow_request`: reserve the probe. */
    method ReserveProbe(now: nat) returns (granted: bool)
      requires Valid() && StateBits(state) == STATE_HALF_OPEN
      modifies this`inFlight, this`probeSentAt
      ensures Valid() && granted == Granted(cfg, old(Abs()), now)
      ensures Abs() == Allowed(cfg, old(Abs()), now)
    {
      if ProbeCount(state) >= cfg.maxProbes {
        return false;
      }
      if inFlight {
        if probeSentAt > 0 && Minus(now, probeSentAt) >= StuckMs(cfg) {
          inFlight := false;
        }
      }
      if !inFlight {
        inFlight := true;
        probeSentAt := now;
        return true;
      }
      granted := false;
    }

    method AllowRequest(now: nat) returns (granted: bool)
      requires Valid()
      modifies this`state, this`inFlight, this`probeSentAt, this`history, this`trace
      ensures Valid() && granted == Granted(cfg, old(Abs()), now)
      ensures Abs() == Allowed(cfg, old(Abs()), now)
    {
      hide WindowOk, HistoryOk, Recovered;
      ghost var opens := old(Phase()).Open? && Recovered(cfg, old(openedAt), now);
      while true
        invariant Valid()
        invariant Abs() == old(Abs()) || (opens && Abs() == Go(old(Abs()), HalfOpen(0, Free), now))
        decreases Phase().Open?
      {
        if StateBits(state) == STATE_CLOSED {
          return true;
        } else if StateBits(state) == STATE_OPEN {
          var elapsed := RecoveryElapsed(now);
          if !elapsed {
            return false;
          }
          var moved := TryTransitionToHalfOpen(now);
          if !moved {
            return false;
          }
        } else if StateBits(state) == STATE_HALF_OPEN {
          granted := ReserveProbe(now);
          return;
        } else {
          return false;
        }
      }
    }

    method AbortProbe()
      requires Valid()
      modifies this`inFlight, this`probeSentAt
      ensures Valid() && Abs() == Aborted(old(Abs()))
    {
      if StateBits(state) == STATE_HALF_OPEN {
        probeSentAt := 0;
        inFlight := false;
      }
    }

    /** The locked region of `record_success` and `record_error`: the counter follows each push and pop. */
    method PushOutcome(isError: bool)
      requires WindowOk()
      modifies this`window, this`errorCount
      ensures errorCount == Errors(window)
      ensures window == (if |old(window)| >= cfg.windowSize then old(window)[1..] else old(window)) + [isError]
    {
      if isError {
        errorCount := errorCount + 1;
      }
      if |window| >= cfg.windowSize {
        var wasError := window[0];
        window := window[1..];
        if wasError {
          errorCount := errorCount - 1;
        }
      }
      ErrorsPush(window, isError);
      window := window + [isError];
    }

    /** In Closed, one more outcome counts. */
    method Observe(isError: bool)
      requires Valid() && state == STATE_CLOSED
      modifies this`window, this`errorCount, this`outcomes
      ensures Valid() && outcomes == old(outcomes) + [isError]
    {
      LastPush(outcomes, isError, cfg.windowSize);
      PushOutcome(isError);
      outcomes := outcomes + [isError];
    }

    method RecordSuccess(now: nat)
      requires Valid()
      modifies this
      ensures Valid() && Abs() == Succeeded(cfg, old(Abs()), now)
    {
      var seen := state;
      if StateBits(seen) == STATE_CLOSED {
        Observe(false);
      } else if StateBits(seen) == STATE_HALF_OPEN {
        inFlight := false;
        if ProbeCount(seen) + 1 >= cfg.maxProbes {
          TransitionToClosed(now);
        } else {
          var _ := CompareExchange(seen, HalfOpenByte(ProbeCount(seen) + 1));
        }
      }
    }

    method RecordError(now: nat)
      requires Valid()
      modifies this
      ensures Valid() && Abs() == Failed(cfg, old(Abs()), now)
    {
      if StateBits(state) == STATE_CLOSED {
        Observe(true);
        var len, errors := |window|, errorCount;
        var minSamples := Min(Max(cfg.windowSize / 4, 5), cfg.windowSize);
        if len > 0 && errors * 100 >= len * cfg.threshold && len >= minSamples {
          TransitionToOpen(now);
        }
      } else if StateBits(state) == STATE_HALF_OPEN {
        inFlight := false;
        TransitionToOpen(now);
      }
    }

    /** Only a change from another state is recorded. */
    method TransitionToOpen(now: nat)
      requires Valid()
      modifies this`state, this`inFlight, this`openedAt, this`history, this`trace
      ensures Valid()
      ensures Abs() == if old(Phase()).Open? then State(Open(now), old(trace)) else Go(old(Abs()), Open(now), now)
    {
      openedAt := now;
      inFlight := false;
      var current := state;
      var ok := CompareExchange(current, STATE_OPEN);
      if !ok { assert false; }
      if StateBits(current) == STATE_CLOSED {
        RecordTransition(ClosedMode, OpenMode, now);
      } else if StateBits(current) == STATE_HALF_OPEN {
        RecordTransition(HalfOpenMode, OpenMode, now);
      }
    }

    /** Forgets the window; the history shows nothing. */
    method TransitionToClosed(now: nat)
      requires Valid() && StateBits(state) == STATE_HALF_OPEN
      modifies this`state, this`inFlight, this`window, this`errorCount, this`outcomes, this`trace
      ensures Valid() && Abs() == Go(old(Abs()), Closed([]), now)
    {
      var current := state;
      inFlight := false;
      var ok := CompareExchange(current, STATE_CLOSED);
      if !ok { assert false; }
      VisiblePush(trace, Entry(HalfOpenMode, ClosedMode, now));
      trace := trace + [Entry(HalfOpenMode, ClosedMode, now)];
      window := [];
      errorCount := 0;
      outcomes := [];
    }
  }
}
