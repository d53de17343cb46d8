/** Token-bucket rate limiting in fixed point (src/proxy/ratelimit.rs; src/route/target.rs, 311-326). */
module TokenBuckets {
  import opened Prelude

  /** Sub-tokens per token. */
  const SCALE := 1_000_000

  const NANOS := 1_000_000_000

  /** `rate` is in sub-tokens per second, `burst` and `tokens` in sub-tokens; rate 0 means unlimited. */
  datatype Bucket = Bucket(rate: nat, burst: nat, tokens: nat, lastRefill: nat)

  const Unconfigured := Bucket(0, 0, 0, 0)

  /** (rate as u128 * elapsed as u128 / 1e9) as u64 */
  function Refill(rate: nat, elapsed: nat): nat { rate * elapsed / NANOS % U64 }

  function SaturatingAdd(x: nat, y: nat): nat { Min(x + y, U64 - 1) }

  function Refilled(b: Bucket, now: nat): Bucket {
    var elapsed := Minus(now, b.lastRefill);
    if elapsed == 0 then b
    else b.(tokens := Min(SaturatingAdd(b.tokens, Refill(b.rate, elapsed)), b.burst), lastRefill := now)
  }

  predicate Admits(b: Bucket, now: nat) {
    b.rate == 0 || Refilled(b, now).tokens >= SCALE
  }

  function Acquired(b: Bucket, now: nat): Bucket {
    if b.rate == 0 then b
    else
      var r := Refilled(b, now);
      if r.tokens < SCALE then r else r.(tokens := r.tokens - SCALE)
  }

  /** Multiplications wrap, as u64 does. */
  function Configured(b: Bucket, rate: nat, burst: nat, now: nat): Bucket {
    if rate == 0 then b.(rate := 0, burst := 0)
    else
      var scaledBurst := Max(burst, 1) * SCALE % U64;
      Bucket(rate * SCALE % U64, scaledBurst,
             if b.tokens == 0 then scaledBurst else b.tokens,
             if b.lastRefill == 0 then now else b.lastRefill)
  }

  /** The configuration in whole tokens, (0, 0) when unlimited. */
  function RateBurst(b: Bucket): (nat, nat) {
    if b.rate == 0 then (0, 0) else (b.rate / SCALE, b.burst / SCALE)
  }

  class TokenBucket {
    var rate: nat
    var burst: nat
    var tokens: nat
    var lastRefill: nat

    ghost function Abs(): Bucket
      reads this
    {
      Bucket(rate, burst, tokens, lastRefill)
    }

    constructor ()
      ensures Abs() == Unconfigured
    {
      rate, burst, tokens, lastRefill := 0, 0, 0, 0;
    }

    method Configure(newRate: nat, newBurst: nat, now: nat)
      modifies this
      ensures Abs() == Configured(old(Abs()), newRate, newBurst, now)
    {
      if newRate == 0 {
        rate := 0;
        burst := 0;
        return;
      }
      rate := newRate * SCALE % U64;
      burst := Max(newBurst, 1) * SCALE % U64;
      if tokens == 0 {
        tokens := burst;
      }
      if lastRefill == 0 {
        lastRefill := now;
      }
    }

    method TryAcquire(now: nat) returns (ok: bool)
      modifies this`tokens, this`lastRefill
      ensures ok == Admits(old(Abs()), now) && Abs() == Acquired(old(Abs()), now)
    {
      if rate == 0 {
        return true;
      }
      var elapsed := Minus(now, lastRefill);
      if elapsed > 0 {
        tokens := SaturatingAdd(tokens, Refill(rate, elapsed));
        if tokens > burst {
          tokens := burst;
        }
        lastRefill := now;
      }
      if tokens < SCALE {
        return false;
      }
      tokens := tokens - SCALE;
      ok := true;
    }

    method ConfiguredRateBurst() returns (r: (nat, nat))
      ensures r == RateBurst(Abs())
    {
      if rate == 0 {
        return (0, 0);
      }
      r := (rate / SCALE, burst / SCALE);
    }

    /** A target without an override of its own follows the global limits. */
    method TryAcquireRateLimit(hasOverride: bool, globalRate: nat, globalBurst: nat, now: nat) returns (ok: bool)
      modifies this
      ensures var b := Prepared(old(Abs()), hasOverride, globalRate, globalBurst, now);
              ok == Admits(b, now) && Abs() == Acquired(b, now)
    {
      if !hasOverride {
        var current := ConfiguredRateBurst();
        if current != (globalRate, globalBurst) {
          Configure(globalRate, globalBurst, now);
        }
      }
      ok := TryAcquire(now);
    }
  }

  predicate Drifted(b: Bucket, globalRate: nat, globalBurst: nat) {
    RateBurst(b) != (globalRate, globalBurst)
  }

  function Prepared(b: Bucket, hasOverride: bool, globalRate: nat, globalBurst: nat, now: nat): Bucket {
    if !hasOverride && Drifted(b, globalRate, globalBurst) then Configured(b, globalRate, globalBurst, now) else b
  }

  // ---- runs with one rate and burst ----

  datatype Op = Acquire(at: nat) | Configure(at: nat)

  /** `c` is the configuration in whole tokens that every Configure repeats. */
  function Step(b: Bucket, c: (nat, nat), op: Op): Bucket {
    match op
    case Acquire(at) => Acquired(b, at)
    case Configure(at) => Configured(b, c.0, c.1, at)
  }

  function Run(b: Bucket, c: (nat, nat), ops: seq<Op>): Bucket {
    if ops == [] then b else Step(Run(b, c, ops[..|ops| - 1]), c, ops[|ops| - 1])
  }

  function Grants(b: Bucket, c: (nat, nat), ops: seq<Op>): nat {
    if ops == [] then 0
    else
      var front, op := ops[..|ops| - 1], ops[|ops| - 1];
      Grants(b, c, front) + if op.Acquire? && Admits(Run(b, c, front), op.at) then 1 else 0
  }

  function Configures(ops: seq<Op>): nat {
    if ops == [] then 0 else Configures(ops[..|ops| - 1]) + if ops[|ops| - 1].Configure? then 1 else 0
  }

  /** A bucket holding configuration c, which fits in 64 bits and is not unlimited. */
  predicate Holds(b: Bucket, c: (nat, nat)) {
    && c.0 > 0 && c.0 * SCALE < U64 && Max(c.1, 1) * SCALE < U64
    && b.rate == c.0 * SCALE && b.burst == Max(c.1, 1) * SCALE
    && b.tokens <= b.burst
  }

  /** Whole sub-tokens produced in a given time. */
  function Produced(rate: nat, elapsed: nat): nat { rate * elapsed / NANOS }

  lemma ProducedAdds(rate: nat, x: nat, y: nat)
    ensures Produced(rate, x) + Produced(rate, y) <= Produced(rate, x + y) <= Produced(rate, x) + Produced(rate, y) + 1
  {
    assert rate * (x + y) == rate * x + rate * y;
  }

  /** One burst for every configure. */
  function Refreshed(burst: nat, ops: seq<Op>): nat {
    if ops == [] then 0 else Refreshed(burst, ops[..|ops| - 1]) + if ops[|ops| - 1].Configure? then burst else 0
  }

  lemma {:induction false} RefreshedIs(burst: nat, ops: seq<Op>)
    ensures Refreshed(burst, ops) == Configures(ops) * burst
  {
    if ops != [] {
      RefreshedIs(burst, ops[..|ops| - 1]);
      var k := Configures(ops[..|ops| - 1]);
      assert (k + 1) * burst == k * burst + burst;
    }
  }

  function Granted(b: Bucket, op: Op): nat {
    if op.Acquire? && Admits(b, op.at) then 1 else 0
  }

  lemma RefillBound(b: Bucket, at: nat)
    requires b.tokens <= b.burst
    ensures var r := Refilled(b, at);
            && r == b.(tokens := r.tokens, lastRefill := r.lastRefill) && r.lastRefill >= b.lastRefill
            && r.tokens <= b.burst && r.tokens <= b.tokens + Produced(b.rate, r.lastRefill - b.lastRefill)
  {
    var p := Produced(b.rate, Minus(at, b.lastRefill));
    assert p % U64 <= p;
  }

  lemma StepBound(b: Bucket, c: (nat, nat), op: Op)
    requires Holds(b, c)
    ensures var e := Step(b, c, op);
            && Holds(e, c) && e.lastRefill >= b.lastRefill
            && SCALE * Granted(b, op) + e.tokens
                 <= b.tokens + (if op.Configure? then b.burst else 0) + Produced(b.rate, e.lastRefill - b.lastRefill)
  {
    if op.Acquire? { RefillBound(b, op.at); }
    hide Refilled, Produced;
  }

  lemma {:induction false} Ledger(b: Bucket, c: (nat, nat), ops: seq<Op>)
    requires Holds(b, c)
    ensures var e := Run(b, c, ops);
            && Holds(e, c) && e.lastRefill >= b.lastRefill
            && SCALE * Grants(b, c, ops) + e.tokens
                 <= b.tokens + Refreshed(b.burst, ops) + Produced(b.rate, e.lastRefill - b.lastRefill)
  {
    if ops == [] {
      assert b.rate * 0 == 0;
    } else {
      var front, op := ops[..|ops| - 1], ops[|ops| - 1];
      Ledger(b, c, front);
      var m := Run(b, c, front);
      StepBound(m, c, op);
      ProducedAdds(b.rate, m.lastRefill - b.lastRefill, Step(m, c, op).lastRefill - m.lastRefill);
    }
  }

  /** What was granted plus what is left never exceeds what was there, one burst for every
      configure, and what the elapsed time produced; and tokens never exceed the burst.  Nothing
      is assumed of the clock or of the size of a refill. */
  lemma NeverTooMany(b: Bucket, c: (nat, nat), ops: seq<Op>)
    requires Holds(b, c)
    ensures var e := Run(b, c, ops);
            && Holds(e, c) && e.lastRefill >= b.lastRefill
            && SCALE * Grants(b, c, ops) + e.tokens
                 <= b.tokens + Configures(ops) * b.burst + Produced(b.rate, e.lastRefill - b.lastRefill)
  {
    Ledger(b, c, ops);
    RefreshedIs(b.burst, ops);
  }

  /** The rate limit over any stretch of requests: at most one burst plus the rate times the time
      between the refill before the first and the last. */
  lemma RateLimited(b: Bucket, c: (nat, nat), ops: seq<Op>, until: nat)
    requires Holds(b, c) && Configures(ops) == 0
    requires b.lastRefill <= Run(b, c, ops).lastRefill <= until
    ensures SCALE * Grants(b, c, ops) <= b.burst + Produced(b.rate, until - b.lastRefill)
  {
    NeverTooMany(b, c, ops);
    ProducedAdds(b.rate, Run(b, c, ops).lastRefill - b.lastRefill, until - Run(b, c, ops).lastRefill);
  }

  // ---- the other side: little is lost ----

  /** The step refills without hitting the cap, without wrapping, and on a started clock. */
  predicate Lossless(b: Bucket, op: Op) {
    match op
    case Configure(_) => b.tokens > 0 && b.lastRefill > 0
    case Acquire(at) =>
      var p := Produced(b.rate, Minus(at, b.lastRefill));
      b.tokens + p <= b.burst && b.burst < U64
  }

  ghost predicate AllLossless(b: Bucket, c: (nat, nat), ops: seq<Op>) {
    ops == [] || (AllLossless(b, c, ops[..|ops| - 1]) && Lossless(Run(b, c, ops[..|ops| - 1]), ops[|ops| - 1]))
  }

  lemma RefillExact(b: Bucket, at: nat)
    requires b.tokens + Produced(b.rate, Minus(at, b.lastRefill)) <= b.burst < U64
    ensures var r := Refilled(b, at);
            r == b.(tokens := b.tokens + Produced(b.rate, Minus(at, b.lastRefill)),
                    lastRefill := b.lastRefill + Minus(at, b.lastRefill))
  {
    assert b.rate * 0 == 0;
  }

  lemma StepExact(b: Bucket, c: (nat, nat), op: Op)
    requires Holds(b, c) && Lossless(b, op)
    ensures var e := Step(b, c, op);
            && Holds(e, c) && e.lastRefill >= b.lastRefill
            && SCALE * Granted(b, op) + e.tokens == b.tokens + Produced(b.rate, e.lastRefill - b.lastRefill)
  {
    match op
    case Acquire(at) => RefillExact(b, at);
    case Configure(at) => assert b.rate * 0 == 0;
  }

  /** While the cap is never hit, the sub-tokens lost to rounding are fewer than the calls. */
  lemma {:induction false} LittleIsLost(b: Bucket, c: (nat, nat), ops: seq<Op>)
    requires Holds(b, c) && AllLossless(b, c, ops)
    ensures var e := Run(b, c, ops);
            && Holds(e, c) && e.lastRefill >= b.lastRefill
            && SCALE * Grants(b, c, ops) + e.tokens + |ops|
                 >= b.tokens + Produced(b.rate, e.lastRefill - b.lastRefill) + if ops == [] then 0 else 1
  {
    if ops == [] {
      assert b.rate * 0 == 0;
    } else {
      var front, op := ops[..|ops| - 1], ops[|ops| - 1];
      LittleIsLost(b, c, front);
      var m := Run(b, c, front);
      StepExact(m, c, op);
      if front == [] {
        assert m == b;
      } else {
        ProducedAdds(b.rate, m.lastRefill - b.lastRefill, Step(m, c, op).lastRefill - m.lastRefill);
      }
    }
  }

  // ---- following the global limits ----

  /** What every sequence of configurations without overflow leaves: unlimited, or whole tokens
      with room for at least one. */
  predicate WellConfigured(b: Bucket) {
    if b.rate == 0 then b.burst == 0
    else b.rate >= SCALE && b.rate % SCALE == 0 && b.burst >= SCALE && b.burst % SCALE == 0
  }

  /** After a call that followed the global limits, the next call with the same limits
      reconfigures exactly when the limits are not their own reading: a burst of 0 next to a rate,
      which is stored as 1, or a burst next to a rate of 0, which is stored as 0. */
  lemma ReconfiguresAgain(b: Bucket, rate: nat, burst: nat, now: nat)
    requires WellConfigured(b) && rate * SCALE < U64 && burst * SCALE < U64
    ensures var after := Acquired(Prepared(b, false, rate, burst, now), now);
            && WellConfigured(after)
            && (Drifted(after, rate, burst) <==> (rate == 0) != (burst == 0))
  {
  }

  function Acquires(times: seq<nat>): (ops: seq<Op>)
    ensures |ops| == |times| && forall i :: 0 <= i < |times| ==> ops[i] == Acquire(times[i])
  {
    seq(|times|, i requires 0 <= i < |times| => Acquire(times[i]))
  }

  /** With both limits at least 1, any number of calls after the first leave the configuration alone. */
  lemma {:induction false} ReconfiguresAtMostOnce(b: Bucket, rate: nat, burst: nat, times: seq<nat>)
    requires rate > 0 && burst > 0 && !Drifted(b, rate, burst)
    ensures !Drifted(Followed(b, rate, burst, times), rate, burst)
    ensures Followed(b, rate, burst, times) == Run(b, (rate, burst), Acquires(times))
  {
    if times != [] {
      var front := times[..|times| - 1];
      ReconfiguresAtMostOnce(b, rate, burst, front);
      assert Acquires(times)[..|times| - 1] == Acquires(front);
    }
  }

  /** The bucket after requests under the same global limits at the given times. */
  function Followed(b: Bucket, rate: nat, burst: nat, times: seq<nat>): Bucket {
    if times == [] then b
    else
      var front, now := Followed(b, rate, burst, times[..|times| - 1]), times[|times| - 1];
      Acquired(Prepared(front, false, rate, burst, now), now)
  }

  /** How many of these requests are granted. */
  function FollowedGrants(b: Bucket, rate: nat, burst: nat, times: seq<nat>): nat {
    if times == [] then 0
    else
      var front, now := times[..|times| - 1], times[|times| - 1];
      FollowedGrants(b, rate, burst, front)
      + if Admits(Prepared(Followed(b, rate, burst, front), false, rate, burst, now), now) then 1 else 0
  }

  /** One request to an empty bucket under a burst of 0 refills it and is granted. */
  lemma EmptyRefills(b: Bucket, rate: nat, now: nat)
    requires rate > 0 && rate * SCALE < U64 && b.tokens == 0
    requires b == Unconfigured || (b.rate == rate * SCALE && b.burst == SCALE)
    ensures var p := Prepared(b, false, rate, 0, now);
            && Admits(p, now) && Acquired(p, now).tokens == 0
            && Acquired(p, now).rate == rate * SCALE && Acquired(p, now).burst == SCALE
  {
    assert RateBurst(b).1 != 0 || RateBurst(b).0 != rate;
    assert Configured(b, rate, 0, now).tokens == SCALE;
  }

  /** Next to a rate a global burst of 0 switches the limit off: a new bucket grants every request. */
  lemma {:induction false} ZeroBurstGrantsAll(rate: nat, times: seq<nat>)
    requires rate > 0 && rate * SCALE < U64
    ensures FollowedGrants(Unconfigured, rate, 0, times) == |times|
    ensures var e := Followed(Unconfigured, rate, 0, times);
            e.tokens == 0 && (e == Unconfigured || (e.rate == rate * SCALE && e.burst == SCALE))
  {
    if times != [] {
      var front := times[..|times| - 1];
      ZeroBurstGrantsAll(rate, front);
      hide Prepared, Acquired, Admits;
      EmptyRefills(Followed(Unconfigured, rate, 0, front), rate, times[|times| - 1]);
    }
  }

  /** A new bucket after its first configuration, with whole tokens and no drift. */
  function Filled(rate: nat, burst: nat, now: nat): Bucket {
    Bucket(rate * SCALE, burst * SCALE, burst * SCALE, now)
  }

  lemma FilledHolds(rate: nat, burst: nat, now: nat)
    requires rate > 0 && burst > 0 && rate * SCALE < U64 && burst * SCALE < U64
    ensures Prepared(Unconfigured, false, rate, burst, now) == Filled(rate, burst, now)
    ensures !Drifted(Filled(rate, burst, now), rate, burst) && Holds(Filled(rate, burst, now), (rate, burst))
  {
  }

  /** From its first request on, a new bucket is a filled one that is never configured again. */
  lemma {:induction false} NewIsFilled(rate: nat, burst: nat, times: seq<nat>)
    requires times != []
    requires rate > 0 && burst > 0 && rate * SCALE < U64 && burst * SCALE < U64
    ensures var b := Filled(rate, burst, times[0]);
            && Followed(Unconfigured, rate, burst, times) == Run(b, (rate, burst), Acquires(times))
            && FollowedGrants(Unconfigured, rate, burst, times) == Grants(b, (rate, burst), Acquires(times))
            && !Drifted(Run(b, (rate, burst), Acquires(times)), rate, burst)
            && Configures(Acquires(times)) == 0
  {
    var b, front, now := Filled(rate, burst, times[0]), times[..|times| - 1], times[|times| - 1];
    FilledHolds(rate, burst, times[0]);
    assert Acquires(times)[..|times| - 1] == Acquires(front);
    if front != [] {
      NewIsFilled(rate, burst, front);
    } else {
      assert Run(b, (rate, burst), Acquires(front)) == b;
    }
    AcquireKeepsReading(Run(b, (rate, burst), Acquires(front)), now);
  }

  lemma AcquireKeepsReading(b: Bucket, now: nat)
    ensures RateBurst(Acquired(b, now)) == RateBurst(b)
  {
  }

  lemma {:induction false} RefillsInTime(b: Bucket, c: (nat, nat), times: seq<nat>, until: nat)
    requires b.lastRefill <= until && forall i :: 0 <= i < |times| ==> times[i] <= until
    ensures Run(b, c, Acquires(times)).lastRefill <= until
  {
    if times != [] {
      RefillsInTime(b, c, times[..|times| - 1], until);
      assert Acquires(times)[..|times| - 1] == Acquires(times[..|times| - 1]);
    }
  }

  /** The global limits, from a new bucket on and at any times: a burst of at least 1 bounds the
      grants by the burst plus what the rate produces; a burst of 0 next to a rate bounds nothing. */
  lemma GlobalLimit(rate: nat, burst: nat, times: seq<nat>, until: nat)
    requires rate > 0 && rate * SCALE < U64 && burst * SCALE < U64
    requires times != [] && forall i :: 0 <= i < |times| ==> times[i] <= until
    ensures var granted := FollowedGrants(Unconfigured, rate, burst, times);
            if burst == 0 then granted == |times|
            else SCALE * granted <= burst * SCALE + Produced(rate * SCALE, until - times[0])
  {
    if burst == 0 {
      ZeroBurstGrantsAll(rate, times);
    } else {
      var b := Filled(rate, burst, times[0]);
      FilledHolds(rate, burst, times[0]);
      NewIsFilled(rate, burst, times);
      RefillsInTime(b, (rate, burst), times, until);
      NeverTooMany(b, (rate, burst), Acquires(times));
      RateLimited(b, (rate, burst), Acquires(times), until);
    }
  }
}
