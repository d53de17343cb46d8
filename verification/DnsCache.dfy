/** The DNS cache (src/route/dns_cache.rs, 41-225): a timed map with a bounded size, compared with
    a map that never forgets. Times are milliseconds, read from the clock at the start of each
    operation. */
module DnsCaches {
  import opened Prelude

  const MAX_ENTRIES := 10_000

  datatype Entry = Entry(addrs: seq<string>, expiresAt: nat, negative: bool)

  datatype Outcome = Positive(addrs: seq<string>) | Negative | Miss

  datatype Op =
    | Lookup(host: string)
    | Store(host: string, addrs: seq<string>)
    | StoreNegative(host: string)
    | SetTtl(defaultSecs: nat, negativeSecs: nat)
    | Remove(host: string)
    | Clear

  datatype Cache = Cache(
    inner: map<string, Entry>,
    defaultTtl: nat,
    negativeTtl: nat,
    hits: nat,
    misses: nat,
    negatives: nat)

  function Fresh(defaultSecs: nat, negativeSecs: nat): Cache {
    Cache(map[], defaultSecs, negativeSecs, 0, 0, 0)
  }

  /** Seconds to milliseconds and the sum both wrap at 64 bits. */
  function ExpiresAt(now: nat, ttlSecs: nat): nat {
    (now + (ttlSecs * 1000) % U64) % U64
  }

  predicate Expired(e: Entry, now: nat) { now >= e.expiresAt }

  function Unexpired(m: map<string, Entry>, now: nat): map<string, Entry> {
    map h | h in m && !Expired(m[h], now) :: m[h]
  }

  ghost predicate SubMap(r: map<string, Entry>, m: map<string, Entry>) {
    forall h :: h in r ==> h in m && r[h] == m[h]
  }

  /** What is left out of r expires no later than what is in it. */
  ghost predicate SoonestGone(m: map<string, Entry>, r: map<string, Entry>) {
    forall g, h :: g in m && g !in r && h in r ==> m[g].expiresAt <= r[h].expiresAt
  }

  /** r may be what eviction makes of m: nothing is dropped from a map that fits; expired entries
      go first; if that is not enough, those that expire soonest go until the rest just fits. */
  ghost predicate Evicted(m: map<string, Entry>, now: nat, r: map<string, Entry>) {
    var live := Unexpired(m, now);
    if |m| <= MAX_ENTRIES then r == m
    else if |live| <= MAX_ENTRIES then r == live
    else |r| == MAX_ENTRIES && SubMap(r, live) && SoonestGone(live, r)
  }

  // ---- one operation ----

  function Answer(c: Cache, host: string, now: nat): Outcome {
    if host !in c.inner || Expired(c.inner[host], now) then Miss
    else if c.inner[host].negative then Negative
    else Positive(c.inner[host].addrs)
  }

  function LookedUp(c: Cache, host: string, now: nat): Cache {
    match Answer(c, host, now)
    case Miss => c.(inner := c.inner - {host}, misses := c.misses + 1)
    case Negative => c.(negatives := c.negatives + 1)
    case Positive(_) => c.(hits := c.hits + 1)
  }

  ghost predicate Stored(c: Cache, ttlSecs: nat, host: string, addrs: seq<string>, negative: bool, now: nat, d: Cache) {
    if ttlSecs == 0 then d == c
    else
      && d == c.(inner := d.inner)
      && Evicted(c.inner[host := Entry(addrs, ExpiresAt(now, ttlSecs), negative)], now, d.inner)
  }

  /** Operation op at time now may turn c into d. */
  ghost predicate Step(c: Cache, op: Op, now: nat, d: Cache) {
    match op
    case Lookup(host) => d == LookedUp(c, host, now)
    case Store(host, addrs) => Stored(c, c.defaultTtl, host, addrs, false, now, d)
    case StoreNegative(host) => Stored(c, c.negativeTtl, host, [], true, now, d)
    case SetTtl(a, b) =>
      d == c.(defaultTtl := a, negativeTtl := b,
              inner := if (a, b) != (c.defaultTtl, c.negativeTtl) then map[] else c.inner)
    case Remove(host) => d == c.(inner := c.inner - {host})
    case Clear => d == c.(inner := map[])
  }

  // ---- the cache itself ----

  class DnsCache {
    var inner: map<string, Entry>
    var defaultTtl: nat
    var negativeTtl: nat
    var hits: nat
    var misses: nat
    var negatives: nat

    constructor ()
      ensures Abs() == Fresh(30, 10)
    {
      inner, defaultTtl, negativeTtl, hits, misses, negatives := map[], 30, 10, 0, 0, 0;
    }

    constructor WithTtl(defaultSecs: nat, negativeSecs: nat)
      ensures Abs() == Fresh(defaultSecs, negativeSecs)
    {
      inner, defaultTtl, negativeTtl, hits, misses, negatives := map[], defaultSecs, negativeSecs, 0, 0, 0;
    }

    function Abs(): Cache
      reads this
    {
      Cache(inner, defaultTtl, negativeTtl, hits, misses, negatives)
    }

    method DoSetTtl(defaultSecs: nat, negativeSecs: nat)
      modifies this
      ensures Step(old(Abs()), SetTtl(defaultSecs, negativeSecs), 0, Abs())
    {
      var previousDefault, previousNegative := defaultTtl, negativeTtl;
      defaultTtl, negativeTtl := defaultSecs, negativeSecs;
      if previousDefault != defaultSecs || previousNegative != negativeSecs {
        DoClear();
      }
    }

    method LookupStatus(host: string, now: nat) returns (r: Outcome)
      modifies this
      ensures r == Answer(old(Abs()), host, now)
      ensures Step(old(Abs()), Lookup(host), now, Abs())
    {
      if host in inner && now >= inner[host].expiresAt {
        inner := inner - {host};
        misses := misses + 1;
        return Miss;
      }
      if host !in inner {
        assert inner - {host} == inner;
        misses := misses + 1;
        return Miss;
      }
      if inner[host].negative {
        negatives := negatives + 1;
        return Negative;
      }
      hits := hits + 1;
      r := Positive(inner[host].addrs);
    }

    method DoStore(host: string, addrs: seq<string>, now: nat)
      modifies this
      ensures Step(old(Abs()), Store(host, addrs), now, Abs())
    {
      if defaultTtl == 0 {
        return;
      }
      inner := inner[host := Entry(addrs, ExpiresAt(now, defaultTtl), false)];
      EvictIfOverCapacity(now);
    }

    method DoStoreNegative(host: string, now: nat)
      modifies this
      ensures Step(old(Abs()), StoreNegative(host), now, Abs())
    {
      if negativeTtl == 0 {
        return;
      }
      inner := inner[host := Entry([], ExpiresAt(now, negativeTtl), true)];
      EvictIfOverCapacity(now);
    }

    method EvictIfOverCapacity(now: nat)
      modifies this`inner
      ensures Evicted(old(inner), now, inner)
    {
      if |inner| <= MAX_ENTRIES {
        return;
      }
      var expired := set h | h in inner && now >= inner[h].expiresAt;
      while expired != {}
        invariant expired <= inner.Keys
        invariant forall h :: h in expired ==> Expired(inner[h], now)
        invariant Unexpired(inner, now) == Unexpired(old(inner), now)
        invariant forall h :: h in inner && Expired(inner[h], now) ==> h in expired
        decreases expired
      {
        var h :| h in expired;
        inner := inner - {h};
        expired := expired - {h};
      }
      assert inner == Unexpired(old(inner), now);
      if |inner| <= MAX_ENTRIES {
        return;
      }
      EvictSoonest(|inner| - MAX_ENTRIES);
    }

    /** Drops the entries that expire soonest; which of several equal ones is left open. */
    method EvictSoonest(toRemove: nat)
      requires toRemove <= |inner|
      modifies this`inner
      ensures |inner| == |old(inner)| - toRemove
      ensures SubMap(inner, old(inner)) && SoonestGone(old(inner), inner)
    {
      for i := 0 to toRemove
        invariant |inner| == |old(inner)| - i
        invariant SubMap(inner, old(inner)) && SoonestGone(old(inner), inner)
      {
        var h := Soonest(inner);
        assert inner.Keys == (inner - {h}).Keys + {h};
        inner := inner - {h};
      }
    }

    method DoRemove(host: string)
      modifies this
      ensures Step(old(Abs()), Remove(host), 0, Abs())
    {
      inner := inner - {host};
    }

    method DoClear()
      modifies this
      ensures Step(old(Abs()), Clear, 0, Abs())
    {
      inner := map[];
    }
  }

  method Soonest(m: map<string, Entry>) returns (h: string)
    requires |m| > 0
    ensures h in m && forall g :: g in m ==> m[h].expiresAt <= m[g].expiresAt
  {
    var todo := m.Keys;
    h :| h in todo;
    todo := todo - {h};
    while todo != {}
      invariant h in m && todo <= m.Keys
      invariant forall g :: g in m && g !in todo ==> m[h].expiresAt <= m[g].expiresAt
      decreases todo
    {
      var g :| g in todo;
      if m[g].expiresAt < m[h].expiresAt { h := g; }
      todo := todo - {g};
    }
  }

  // ---- eviction ----

  /** Eviction bounds the size, alters no entry, and what it drops expires no later than anything
      it keeps. It drops an unexpired entry only to leave exactly the maximum behind. */
  lemma EvictionIsFair(m: map<string, Entry>, now: nat, r: map<string, Entry>)
    requires Evicted(m, now, r)
    ensures |r| <= 10_000 && SubMap(r, m) && SoonestGone(m, r)
    ensures forall h :: h in m && h !in r && now < m[h].expiresAt ==> |r| == 10_000
    ensures |m| <= 10_000 ==> r == m
  {
  }

  // ---- runs against a map that never forgets ----

  /** What was stored last for every host since the last removal or clearing, by plain look at the
      operations: no expiry, no capacity. */
  datatype Memory = Memory(
    latest: map<string, Entry>,
    defaultTtl: nat,
    negativeTtl: nat,
    lookups: nat,
    now: nat)

  function Remember(m: Memory, op: Op, now: nat): Memory {
    var t := m.(now := now);
    match op
    case Lookup(_) => t.(lookups := m.lookups + 1)
    case Store(host, addrs) =>
      if m.defaultTtl == 0 then t
      else t.(latest := m.latest[host := Entry(addrs, ExpiresAt(now, m.defaultTtl), false)])
    case StoreNegative(host) =>
      if m.negativeTtl == 0 then t
      else t.(latest := m.latest[host := Entry([], ExpiresAt(now, m.negativeTtl), true)])
    case SetTtl(a, b) =>
      t.(defaultTtl := a, negativeTtl := b,
         latest := if (a, b) != (m.defaultTtl, m.negativeTtl) then map[] else m.latest)
    case Remove(host) => t.(latest := m.latest - {host})
    case Clear => t.(latest := map[])
  }

  datatype Event = Event(op: Op, now: nat, after: Cache)

  function StateAfter(c: Cache, es: seq<Event>): Cache {
    if es == [] then c else es[|es| - 1].after
  }

  function MemoryAfter(c: Cache, es: seq<Event>): Memory {
    if es == [] then Memory(map[], c.defaultTtl, c.negativeTtl, 0, 0)
    else Remember(MemoryAfter(c, es[..|es| - 1]), es[|es| - 1].op, es[|es| - 1].now)
  }

  /** The events are steps of the cache and the clock never goes back. */
  ghost predicate Run(c: Cache, es: seq<Event>) {
    es == [] || (
      var front, e := es[..|es| - 1], es[|es| - 1];
      && Run(c, front)
      && MemoryAfter(c, front).now <= e.now
      && Step(StateAfter(c, front), e.op, e.now, e.after))
  }

  /** At no time more hosts are remembered than the cache can hold. */
  ghost predicate Fits(c: Cache, es: seq<Event>) {
    es == [] || (Fits(c, es[..|es| - 1]) && |MemoryAfter(c, es).latest| <= MAX_ENTRIES)
  }

  /** The cache holds nothing but what is remembered, and never too much. */
  ghost predicate Refines(c: Cache, m: Memory) {
    && c.defaultTtl == m.defaultTtl && c.negativeTtl == m.negativeTtl
    && SubMap(c.inner, m.latest) && |c.inner| <= MAX_ENTRIES
    && c.hits + c.misses + c.negatives == m.lookups
  }

  /** What is remembered and not in the cache has expired. */
  ghost predicate Complete(c: Cache, m: Memory) {
    forall h :: h in m.latest && h !in c.inner ==> Expired(m.latest[h], m.now)
  }

  lemma RemovedSmaller(m: map<string, Entry>, host: string)
    ensures |m - {host}| <= |m|
  {
    SubMapSmaller(m - {host}, m);
  }

  lemma SubMapSmaller(r: map<string, Entry>, m: map<string, Entry>)
    requires SubMap(r, m)
    ensures |r| <= |m|
  {
    assert m.Keys == r.Keys + (m.Keys - r.Keys);
  }

  lemma LookupRefines(c: Cache, m: Memory, host: string, now: nat)
    requires Refines(c, m)
    ensures Refines(LookedUp(c, host, now), Remember(m, Lookup(host), now))
  {
    RemovedSmaller(c.inner, host);
  }

  lemma RemoveRefines(c: Cache, m: Memory, host: string, now: nat)
    requires Refines(c, m)
    ensures Refines(c.(inner := c.inner - {host}), Remember(m, Remove(host), now))
  {
    RemovedSmaller(c.inner, host);
  }

  lemma StepRefines(c: Cache, m: Memory, op: Op, now: nat, d: Cache)
    requires Refines(c, m) && Step(c, op, now, d)
    ensures Refines(d, Remember(m, op, now))
  {
    match op
    case Lookup(host) => LookupRefines(c, m, host, now);
    case Remove(host) => RemoveRefines(c, m, host, now);
    case Store(host, addrs) =>
      StoreRefines(c, m, c.defaultTtl, host, addrs, false, now, d);
      hide SubMap, Stored, ExpiresAt;
    case StoreNegative(host) =>
      StoreRefines(c, m, c.negativeTtl, host, [], true, now, d);
      hide SubMap, Stored, ExpiresAt;
    case _ =>
  }

  lemma StoreRefines(c: Cache, m: Memory, ttlSecs: nat, host: string, addrs: seq<string>, negative: bool, now: nat, d: Cache)
    requires Refines(c, m) && Stored(c, ttlSecs, host, addrs, negative, now, d)
    ensures d == c.(inner := d.inner) && |d.inner| <= MAX_ENTRIES
    ensures SubMap(d.inner, if ttlSecs == 0 then m.latest
                            else m.latest[host := Entry(addrs, ExpiresAt(now, ttlSecs), negative)])
  {
    hide Evicted, ExpiresAt;
    if ttlSecs != 0 {
      EvictionIsFair(c.inner[host := Entry(addrs, ExpiresAt(now, ttlSecs), negative)], now, d.inner);
    }
  }

  lemma LookupComplete(c: Cache, m: Memory, host: string, now: nat)
    requires Refines(c, m) && Complete(c, m) && m.now <= now
    ensures Complete(LookedUp(c, host, now), Remember(m, Lookup(host), now))
  {
  }

  /** What the memory holds after a store. */
  function StoredLatest(m: Memory, ttlSecs: nat, host: string, addrs: seq<string>, negative: bool, now: nat): map<string, Entry> {
    if ttlSecs == 0 then m.latest else m.latest[host := Entry(addrs, ExpiresAt(now, ttlSecs), negative)]
  }

  lemma StoredComplete(c: Cache, m: Memory, ttlSecs: nat, host: string, addrs: seq<string>, negative: bool, now: nat, d: Cache)
    requires Refines(c, m) && Complete(c, m) && m.now <= now && Stored(c, ttlSecs, host, addrs, negative, now, d)
    requires |StoredLatest(m, ttlSecs, host, addrs, negative, now)| <= MAX_ENTRIES
    ensures Complete(d, m.(now := now, latest := StoredLatest(m, ttlSecs, host, addrs, negative, now)))
  {
    hide ExpiresAt, Evicted;
    if ttlSecs != 0 { StoreComplete(c, m, ttlSecs, host, addrs, negative, now, d); }
  }

  lemma StepComplete(c: Cache, m: Memory, op: Op, now: nat, d: Cache)
    requires Refines(c, m) && Complete(c, m) && m.now <= now && Step(c, op, now, d)
    requires |Remember(m, op, now).latest| <= MAX_ENTRIES
    ensures Complete(d, Remember(m, op, now))
  {
    match op
    case Lookup(host) => LookupComplete(c, m, host, now);
    case Store(host, addrs) =>
      SameTtl(c, m);
      hide Complete, Refines, Stored, ExpiresAt;
      StoredComplete(c, m, c.defaultTtl, host, addrs, false, now, d);
    case StoreNegative(host) =>
      SameTtl(c, m);
      hide Complete, Refines, Stored, ExpiresAt;
      StoredComplete(c, m, c.negativeTtl, host, [], true, now, d);
    case _ =>
  }

  lemma SameTtl(c: Cache, m: Memory)
    requires Refines(c, m)
    ensures c.defaultTtl == m.defaultTtl && c.negativeTtl == m.negativeTtl
  {
  }

  lemma StoreComplete(c: Cache, m: Memory, ttlSecs: nat, host: string, addrs: seq<string>, negative: bool, now: nat, d: Cache)
    requires Refines(c, m) && Complete(c, m) && m.now <= now && Stored(c, ttlSecs, host, addrs, negative, now, d)
    requires ttlSecs != 0
    requires |m.latest[host := Entry(addrs, ExpiresAt(now, ttlSecs), negative)]| <= MAX_ENTRIES
    ensures d == c.(inner := d.inner)
    ensures d.inner == c.inner[host := Entry(addrs, ExpiresAt(now, ttlSecs), negative)]
  {
    hide ExpiresAt;
    var e := Entry(addrs, ExpiresAt(now, ttlSecs), negative);
    SubMapSmaller(c.inner[host := e], m.latest[host := e]);
  }

  lemma {:induction false} RunRefines(c: Cache, es: seq<Event>)
    requires Run(c, es) && c == Fresh(c.defaultTtl, c.negativeTtl)
    ensures Refines(StateAfter(c, es), MemoryAfter(c, es))
    ensures Fits(c, es) ==> Complete(StateAfter(c, es), MemoryAfter(c, es))
  {
    if es != [] {
      var front, e := es[..|es| - 1], es[|es| - 1];
      RunRefines(c, front);
      hide Refines, Complete, Remember, Step;
      StepRefines(StateAfter(c, front), MemoryAfter(c, front), e.op, e.now, e.after);
      if Fits(c, es) {
        StepComplete(StateAfter(c, front), MemoryAfter(c, front), e.op, e.now, e.after);
      }
    }
  }

  /** After any run a look-up answers only from the latest store for the host, strictly before its
      expiry; and it misses an entry that has not expired only if the cache ever was too small. */
  lemma AnswersAreLatest(c: Cache, es: seq<Event>, host: string, now: nat)
    requires Run(c, es) && c == Fresh(c.defaultTtl, c.negativeTtl)
    requires MemoryAfter(c, es).now <= now
    ensures var latest := MemoryAfter(c, es).latest;
            match Answer(StateAfter(c, es), host, now)
            case Positive(addrs) =>
              host in latest && latest[host] == Entry(addrs, latest[host].expiresAt, false) && now < latest[host].expiresAt
            case Negative => host in latest && latest[host].negative && now < latest[host].expiresAt
            case Miss => Fits(c, es) ==> host in latest ==> now >= latest[host].expiresAt
  {
    RunRefines(c, es);
  }

  /** Every look-up is counted once, and the size stays within the maximum. */
  lemma CountersAddUp(c: Cache, es: seq<Event>)
    requires Run(c, es) && c == Fresh(c.defaultTtl, c.negativeTtl)
    ensures var d := StateAfter(c, es);
            d.hits + d.misses + d.negatives == MemoryAfter(c, es).lookups && |d.inner| <= 10_000
  {
    RunRefines(c, es);
  }

  // ---- in plain milliseconds ----

  /** The operation leaves what is known of the host alone. */
  predicate Untouched(op: Op, host: string) {
    match op
    case Lookup(_) => true
    case Store(h, _) => h != host
    case StoreNegative(h) => h != host
    case Remove(h) => h != host
    case _ => false
  }

  /** Event k stores something for the host, and no later one touches it. */
  ghost predicate LastStored(es: seq<Event>, k: nat, host: string, negative: bool, addrs: seq<string>) {
    && k < |es| && es[k].op == (if negative then StoreNegative(host) else Store(host, addrs))
    && (negative ==> addrs == [])
    && forall j :: k < j < |es| ==> Untouched(es[j].op, host)
  }

  lemma {:induction false} MemoryHolds(c: Cache, es: seq<Event>, k: nat, host: string, negative: bool, addrs: seq<string>, ttl: nat)
    requires LastStored(es, k, host, negative, addrs) && ttl > 0
    requires ttl == if negative then MemoryAfter(c, es[..k]).negativeTtl else MemoryAfter(c, es[..k]).defaultTtl
    ensures var latest := MemoryAfter(c, es).latest;
            host in latest && latest[host] == Entry(addrs, ExpiresAt(es[k].now, ttl), negative)
  {
    hide ExpiresAt;
    var front := es[..|es| - 1];
    if k == |es| - 1 {
      assert front == es[..k];
    } else {
      assert front[..k] == es[..k];
      MemoryHolds(c, front, k, host, negative, addrs, ttl);
    }
  }

  lemma ExpiresExactly(now: nat, ttlSecs: nat)
    requires now + 1000 * ttlSecs < U64
    ensures ExpiresAt(now, ttlSecs) == now + 1000 * ttlSecs
  {
  }

  /** A stored answer is given for exactly its time to live: after any run in which the cache was large
      enough and nothing later touched the host, a look-up finds what was stored until 1000 times the
      configured seconds after the store, in milliseconds, and misses from then on. */
  lemma AnsweredForItsTime(
    c: Cache, es: seq<Event>, k: nat, host: string, negative: bool, addrs: seq<string>, ttl: nat, now: nat)
    requires Run(c, es) && Fits(c, es) && c == Fresh(c.defaultTtl, c.negativeTtl)
    requires LastStored(es, k, host, negative, addrs) && ttl > 0 && es[k].now + 1000 * ttl < U64
    requires ttl == if negative then StateAfter(c, es[..k]).negativeTtl else StateAfter(c, es[..k]).defaultTtl
    requires MemoryAfter(c, es).now <= now
    ensures Answer(StateAfter(c, es), host, now) ==
              if now >= es[k].now + 1000 * ttl then Miss else if negative then Negative else Positive(addrs)
  {
    RunRefines(c, es);
    RunFront(c, es, k);
    RunRefines(c, es[..k]);
    MemoryHolds(c, es, k, host, negative, addrs, ttl);
    ExpiresExactly(es[k].now, ttl);
    hide Run, Fits, MemoryAfter, StateAfter, LastStored, ExpiresAt;
  }

  lemma {:induction false} RunFront(c: Cache, es: seq<Event>, k: nat)
    requires Run(c, es) && k <= |es|
    ensures Run(c, es[..k])
  {
    if k < |es| {
      assert es[..|es| - 1][..k] == es[..k];
      RunFront(c, es[..|es| - 1], k);
    } else {
      assert es[..k] == es;
    }
  }

  /** A look-up bumps exactly the counter of its answer. */
  lemma LookupBumps(c: Cache, host: string, now: nat)
    ensures var d := LookedUp(c, host, now);
            match Answer(c, host, now)
            case Positive(_) => d.hits == c.hits + 1 && d.misses == c.misses && d.negatives == c.negatives
            case Negative => d.hits == c.hits && d.misses == c.misses && d.negatives == c.negatives + 1
            case Miss => d.hits == c.hits && d.misses == c.misses + 1 && d.negatives == c.negatives
  {
  }

  /** What forgets: a removal its host, a clearing and a change of either time to live everything; the same
      times to live, and a store with a time to live of 0, nothing. */
  lemma ForgetsExactly(c: Cache, host: string, h: string, addrs: seq<string>, a: nat, b: nat, now: nat, d: Cache)
    ensures Step(c, Remove(h), now, d) ==> Answer(d, host, now) == if h == host then Miss else Answer(c, host, now)
    ensures Step(c, Clear, now, d) ==> Answer(d, host, now) == Miss
    ensures Step(c, SetTtl(a, b), now, d) ==>
              && d.defaultTtl == a && d.negativeTtl == b
              && Answer(d, host, now) == if a == c.defaultTtl && b == c.negativeTtl then Answer(c, host, now) else Miss
    ensures Step(c, Store(h, addrs), now, d) && c.defaultTtl == 0 ==> d == c
    ensures Step(c, StoreNegative(h), now, d) && c.negativeTtl == 0 ==> d == c
  {
    hide Evicted, ExpiresAt;
  }
}
