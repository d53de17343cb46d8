/** What a token bucket must grant, in plain numbers of tokens and nanoseconds
    (src/proxy/ratelimit.rs, 69-125). */
module TokenGrants {
  import opened Prelude
  import opened TokenBuckets

  // ---- a full bucket ----

  /** k requests at one instant. */
  function Burst(at: nat, k: nat): (ops: seq<Op>)
    ensures |ops| == k && forall i :: 0 <= i < k ==> ops[i] == Acquire(at)
  {
    seq(k, _ => Acquire(at))
  }

  /** By the time `at` the bucket has filled up to its burst, without 64-bit overflow on the way. */
  predicate FullAt(b: Bucket, at: nat) {
    && at >= b.lastRefill
    && b.rate * (at - b.lastRefill) / 1_000_000_000 < U64
    && b.burst <= b.tokens + b.rate * (at - b.lastRefill) / 1_000_000_000 < U64
  }

  lemma FirstOfBurst(b: Bucket, c: (nat, nat), at: nat)
    requires Holds(b, c) && FullAt(b, at)
    ensures Admits(b, at)
    ensures Acquired(b, at) == b.(tokens := (Max(c.1, 1) - 1) * 1_000_000, lastRefill := at)
  {
    if at == b.lastRefill {
      assert b.rate * 0 == 0;
    }
  }

  lemma NextOfBurst(b: Bucket, at: nat, n: nat)
    requires b.rate > 0 && b.tokens == n * 1_000_000 && b.lastRefill == at
    ensures Admits(b, at) <==> n > 0
    ensures Acquired(b, at) == b.(tokens := (if n > 0 then n - 1 else 0) * 1_000_000)
  {
  }

  lemma {:induction false} BurstState(b: Bucket, c: (nat, nat), at: nat, k: nat)
    requires Holds(b, c) && FullAt(b, at)
    ensures Grants(b, c, Burst(at, k)) == Min(k, Max(c.1, 1))
    ensures k > 0 ==> Run(b, c, Burst(at, k)) == b.(tokens := Minus(Max(c.1, 1), k) * 1_000_000, lastRefill := at)
  {
    if k > 0 {
      var front := Burst(at, k - 1);
      assert Burst(at, k)[..k - 1] == front;
      BurstState(b, c, at, k - 1);
      FirstOfBurst(b, c, at);
      if k > 1 { NextOfBurst(Run(b, c, front), at, Minus(Max(c.1, 1), k - 1)); }
      hide Admits, Acquired, FullAt;
    }
  }

  /** A bucket that has been idle long enough grants a full burst at one instant: of k requests exactly
      as many as the burst, which counts as 1 if it is configured as 0. */
  lemma FullBurstGranted(b: Bucket, c: (nat, nat), at: nat, k: nat)
    requires Holds(b, c) && FullAt(b, at)
    ensures Grants(b, c, Burst(at, k)) == Min(k, Max(c.1, 1))
  {
    BurstState(b, c, at, k);
  }

  // ---- any run ----

  /** Sub-tokens that arrive when the bucket is full. */
  function Spilt(b: Bucket, op: Op): nat {
    match op
    case Acquire(at) => Minus(b.tokens + b.rate * Minus(at, b.lastRefill) / 1_000_000_000, b.burst)
    case Configure(_) => 0
  }

  function AllSpilt(b: Bucket, c: (nat, nat), ops: seq<Op>): nat {
    if ops == [] then 0
    else AllSpilt(b, c, ops[..|ops| - 1]) + Spilt(Run(b, c, ops[..|ops| - 1]), ops[|ops| - 1])
  }

  /** No refill comes near 64 bits, and no configuration starts the clock. */
  predicate Fits(b: Bucket, op: Op) {
    match op
    case Acquire(at) => b.tokens + b.rate * Minus(at, b.lastRefill) / 1_000_000_000 < U64
    case Configure(_) => b.lastRefill > 0
  }

  ghost predicate AllFit(b: Bucket, c: (nat, nat), ops: seq<Op>) {
    ops == [] || (AllFit(b, c, ops[..|ops| - 1]) && Fits(Run(b, c, ops[..|ops| - 1]), ops[|ops| - 1]))
  }

  lemma RefilledWithSpill(b: Bucket, at: nat)
    requires b.tokens <= b.burst && Fits(b, Acquire(at))
    ensures var r := Refilled(b, at);
            && r == b.(tokens := r.tokens, lastRefill := b.lastRefill + Minus(at, b.lastRefill))
            && r.tokens + Spilt(b, Acquire(at)) == b.tokens + b.rate * Minus(at, b.lastRefill) / 1_000_000_000
  {
    if at <= b.lastRefill { assert b.rate * 0 == 0; }
  }

  lemma StepWithSpill(b: Bucket, c: (nat, nat), op: Op)
    requires Holds(b, c) && Fits(b, op)
    ensures var e := Step(b, c, op);
            && Holds(e, c) && e.lastRefill >= b.lastRefill
            && 1_000_000 * Granted(b, op) + e.tokens + Spilt(b, op)
                 >= b.tokens + Produced(b.rate, e.lastRefill - b.lastRefill)
  {
    match op
    case Acquire(at) =>
      RefilledWithSpill(b, at);
      hide Refilled, Spilt, Fits;
    case Configure(at) => assert b.rate * 0 == 0;
  }

  lemma {:induction false} SpillAccount(b: Bucket, c: (nat, nat), ops: seq<Op>)
    requires Holds(b, c) && AllFit(b, c, ops)
    ensures var e := Run(b, c, ops);
            && Holds(e, c) && e.lastRefill >= b.lastRefill
            && 1_000_000 * Grants(b, c, ops) + e.tokens + AllSpilt(b, c, ops) + |ops|
                 >= b.tokens + Produced(b.rate, e.lastRefill - b.lastRefill)
  {
    if ops == [] {
      assert b.rate * 0 == 0;
    } else {
      hide Step, Spilt, Fits, Produced;
      var front, op := ops[..|ops| - 1], ops[|ops| - 1];
      SpillAccount(b, c, front);
      var m := Run(b, c, front);
      StepWithSpill(m, c, op);
      ProducedAdds(b.rate, m.lastRefill - b.lastRefill, Step(m, c, op).lastRefill - m.lastRefill);
    }
  }

  /** Nothing is withheld: over any run, what is granted and what is left make up at least what was there
      and what the elapsed time produced, less what arrived above the burst and one sub-token a call. */
  lemma NothingWithheld(b: Bucket, c: (nat, nat), ops: seq<Op>)
    requires Holds(b, c) && AllFit(b, c, ops)
    ensures var e := Run(b, c, ops);
            && e.lastRefill >= b.lastRefill
            && 1_000_000 * Grants(b, c, ops) + e.tokens
                 >= b.tokens + b.rate * (e.lastRefill - b.lastRefill) / 1_000_000_000 - AllSpilt(b, c, ops) - |ops|
  {
    hide Run, Grants, AllSpilt;
    SpillAccount(b, c, ops);
  }

  /** And nothing is given away: the other side in the same plain numbers. */
  lemma NothingGivenAway(b: Bucket, c: (nat, nat), ops: seq<Op>)
    requires Holds(b, c)
    ensures var e := Run(b, c, ops);
            && e.lastRefill >= b.lastRefill && e.tokens <= Max(c.1, 1) * 1_000_000
            && 1_000_000 * Grants(b, c, ops) + e.tokens
                 <= b.tokens + Configures(ops) * b.burst + b.rate * (e.lastRefill - b.lastRefill) / 1_000_000_000
  {
    hide Run, Grants, Configures;
    NeverTooMany(b, c, ops);
  }

  /** A configuration is kept in sub-tokens: a million for each token, of the rate per second and of the
      burst, where these fit into 64 bits. */
  lemma ConfiguredExactly(b: Bucket, rate: nat, burst: nat, now: nat)
    requires rate > 0 && rate * 1_000_000 < U64 && Max(burst, 1) * 1_000_000 < U64 && b.tokens <= Max(burst, 1) * 1_000_000
    ensures var e := Configured(b, rate, burst, now);
            && Holds(e, (rate, burst)) && e.rate == rate * 1_000_000 && e.burst == Max(burst, 1) * 1_000_000
            && e.tokens == (if b.tokens == 0 then Max(burst, 1) * 1_000_000 else b.tokens)
            && e.lastRefill == (if b.lastRefill == 0 then now else b.lastRefill)
            && Configured(b, 0, burst, now).rate == 0
  {
  }

  /** A target with an override of its own is never configured by a request. */
  lemma OverrideKept(b: Bucket, globalRate: nat, globalBurst: nat, now: nat)
    ensures Prepared(b, true, globalRate, globalBurst, now) == b
  {
  }

  /** Without a rate every request is granted. */
  lemma {:induction false} UnlimitedGrantsAll(b: Bucket, times: seq<nat>)
    requires b.rate == 0
    ensures Grants(b, (0, 0), Acquires(times)) == |times| && Run(b, (0, 0), Acquires(times)) == b
  {
    if times != [] {
      assert Acquires(times)[..|times| - 1] == Acquires(times[..|times| - 1]);
      UnlimitedGrantsAll(b, times[..|times| - 1]);
    }
  }
}
