/** Which targets share a rate limiter (src/route/target.rs, 226-242). */
module RateKeys {
  import opened Prelude

  const SEPARATOR := 31 as char

  predicate IsDigit(c: char) { '0' <= c <= '9' }

  predicate AllDigits(s: string) { forall i :: 0 <= i < |s| ==> IsDigit(s[i]) }

  function Value(s: string): nat
    requires AllDigits(s)
  {
    if s == [] then 0 else 10 * Value(s[..|s| - 1]) + (s[|s| - 1] as int - '0' as int)
  }

  /** str::parse::<u64>: an optional plus sign, at least one digit, no overflow. */
  function ParseU64(s: string): (r: Option<nat>)
    ensures r.Some? ==> r.value < U64
  {
    var digits := if s != [] && s[0] == '+' then s[1..] else s;
    if digits != [] && AllDigits(digits) && Value(digits) < U64 then Some(Value(digits)) else None
  }

  function Decimal(n: nat): (s: string)
    ensures s != [] && AllDigits(s)
  {
    if n < 10 then [('0' as int + n) as char]
    else Decimal(n / 10) + [('0' as int + n % 10) as char]
  }

  function RateLimitOverride(opts: map<string, string>): Option<(nat, nat)> {
    if "ratelimit" !in opts then None
    else match ParseU64(opts["ratelimit"])
         case None => None
         case Some(rate) =>
           var burst := if "burst" in opts then ParseU64(opts["burst"]) else None;
           Some((rate, if burst.Some? then burst.value else rate))
  }

  function Policy(limits: Option<(nat, nat)>): string {
    match limits
    case Some((rate, burst)) => "override:" + Decimal(rate) + ":" + Decimal(burst)
    case None => "global"
  }

  function RegistryKey(url: string, opts: map<string, string>): string {
    url + [SEPARATOR] + Policy(RateLimitOverride(opts))
  }

  /** Printing and parsing are inverse. */
  lemma {:induction false} ValueOfDecimal(n: nat)
    ensures Value(Decimal(n)) == n
  {
    if n < 10 {
      assert Value([]) == 0;
    } else {
      var front := Decimal(n / 10);
      ValueOfDecimal(n / 10);
      assert Decimal(n)[..|front|] == front;
    }
  }

  lemma NoneAfter(u: string, p: string, c: char)
    requires forall i :: 0 <= i < |p| ==> p[i] != c
    ensures forall k :: |u| < k < |u + [c] + p| ==> (u + [c] + p)[k] != c
  {
  }

  /** A separator that the tails do not hold splits a string in one way. */
  lemma OneSplit(u: string, p: string, v: string, q: string, c: char)
    requires u + [c] + p == v + [c] + q
    requires forall i :: 0 <= i < |p| ==> p[i] != c
    requires forall i :: 0 <= i < |q| ==> q[i] != c
    ensures u == v && p == q
  {
    var x := u + [c] + p;
    NoneAfter(u, p, c);
    NoneAfter(v, q, c);
    assert x[|u|] == c && x[|v|] == c;
    assert u == x[..|u|] && v == x[..|v|];
    assert p == x[|u| + 1..] && q == x[|v| + 1..];
  }

  lemma PolicyHasNoSeparator(limits: Option<(nat, nat)>)
    ensures forall i :: 0 <= i < |Policy(limits)| ==> Policy(limits)[i] != SEPARATOR
  {
    var s := "override:";
    assert forall i :: 0 <= i < |s| ==> s[i] != SEPARATOR;
  }

  lemma PolicyStart(a: Option<(nat, nat)>)
    ensures Policy(a) != [] && Policy(a)[0] == if a.Some? then 'o' else 'g'
  {
  }

  lemma PolicyInjective(a: Option<(nat, nat)>, b: Option<(nat, nat)>)
    requires Policy(a) == Policy(b)
    ensures a == b
  {
    if a.Some? && b.Some? {
      var (ar, ab) := a.value;
      var (br, bb) := b.value;
      OneSplit("override:" + Decimal(ar), Decimal(ab), "override:" + Decimal(br), Decimal(bb), ':');
      assert Decimal(ar) == ("override:" + Decimal(ar))[9..];
      assert Decimal(br) == ("override:" + Decimal(br))[9..];
      ValueOfDecimal(ar);
      ValueOfDecimal(br);
      ValueOfDecimal(ab);
      ValueOfDecimal(bb);
    } else {
      PolicyStart(a);
      PolicyStart(b);
    }
  }

  /** Two targets share a rate limiter exactly when they have one URL and one effective override,
      however the options spell it. */
  lemma SharedExactly(url: string, opts: map<string, string>, otherUrl: string, otherOpts: map<string, string>)
    ensures RegistryKey(url, opts) == RegistryKey(otherUrl, otherOpts) <==>
              url == otherUrl && RateLimitOverride(opts) == RateLimitOverride(otherOpts)
  {
    var a, b := RateLimitOverride(opts), RateLimitOverride(otherOpts);
    if RegistryKey(url, opts) == RegistryKey(otherUrl, otherOpts) {
      PolicyHasNoSeparator(a);
      PolicyHasNoSeparator(b);
      OneSplit(url, Policy(a), otherUrl, Policy(b), SEPARATOR);
      PolicyInjective(a, b);
    }
  }

  // ---- what the options mean ----

  function Zeros(k: nat): (s: string)
    ensures |s| == k && forall i :: 0 <= i < k ==> s[i] == '0'
  {
    seq(k, _ => '0')
  }

  /** s writes n: an optional plus sign, any number of zeros, and the decimal digits. */
  ghost predicate Writes(s: string, n: nat) {
    n < U64 && exists k :: s == Zeros(k) + Decimal(n) || s == "+" + Zeros(k) + Decimal(n)
  }

  lemma {:induction false} ValueOfZeros(k: nat)
    ensures Value(Zeros(k)) == 0
  {
    if k > 0 {
      ValueOfZeros(k - 1);
      assert Zeros(k)[..k - 1] == Zeros(k - 1);
    }
  }

  lemma {:induction false} ValueOfPadded(k: nat, n: nat)
    ensures AllDigits(Zeros(k) + Decimal(n)) && Value(Zeros(k) + Decimal(n)) == n
  {
    var s := Zeros(k) + Decimal(n);
    ValueOfZeros(k);
    if n < 10 {
      assert s[..|s| - 1] == Zeros(k);
    } else {
      ValueOfPadded(k, n / 10);
      assert s[..|s| - 1] == Zeros(k) + Decimal(n / 10);
    }
  }

  lemma ZeroIsPadding(k: nat, front: string)
    requires front == Zeros(k) + Decimal(0)
    ensures front == Zeros(k + 1)
  {
    assert Decimal(0) == "0";
  }

  /** Digits are the decimal writing of their value after some zeros. */
  lemma {:induction false} DigitsArePadded(s: string) returns (k: nat)
    requires s != [] && AllDigits(s)
    ensures s == Zeros(k) + Decimal(Value(s))
  {
    var front, d := s[..|s| - 1], s[|s| - 1] as int - '0' as int;
    assert s == front + [('0' as int + d) as char];
    if front == [] {
      k := 0;
    } else {
      k := DigitsArePadded(front);
      if Value(front) == 0 {
        ZeroIsPadding(k, front);
        k := k + 1;
      }
    }
  }

  lemma ParseOfPadded(k: nat, n: nat)
    requires n < U64
    ensures ParseU64(Zeros(k) + Decimal(n)) == Some(n)
    ensures ParseU64("+" + Zeros(k) + Decimal(n)) == Some(n)
  {
    ValueOfPadded(k, n);
    var digits := Zeros(k) + Decimal(n);
    assert digits != [] && IsDigit(digits[0]);
    assert "+" + Zeros(k) + Decimal(n) == "+" + digits;
    hide Value, Decimal, Zeros;
    assert ("+" + digits)[1..] == digits;
  }

  lemma ParsedIsWritten(s: string)
    requires ParseU64(s).Some?
    ensures Writes(s, ParseU64(s).value)
  {
    hide Value, Decimal, Zeros;
    var digits := if s != [] && s[0] == '+' then s[1..] else s;
    var k := DigitsArePadded(digits);
    if s[0] == '+' {
      assert s == "+" + digits;
      assert "+" + (Zeros(k) + Decimal(Value(digits))) == "+" + Zeros(k) + Decimal(Value(digits));
    }
  }

  /** Parsing accepts exactly the ways of writing a number below 2^64. */
  lemma ParseExactly(s: string, n: nat)
    ensures ParseU64(s) == Some(n) <==> Writes(s, n)
  {
    hide ParseU64, Decimal, Zeros;
    if ParseU64(s) == Some(n) {
      ParsedIsWritten(s);
    } else if Writes(s, n) {
      var k :| s == Zeros(k) + Decimal(n) || s == "+" + Zeros(k) + Decimal(n);
      ParseOfPadded(k, n);
      assert false;
    }
  }

  ghost predicate IsNumber(s: string) {
    exists n :: Writes(s, n)
  }

  /** A target has the override (rate, burst) exactly when its options write that rate, and write that
      burst or, writing no burst that is a number, leave it to equal the rate. */
  lemma OverrideOf(opts: map<string, string>, rate: nat, burst: nat)
    ensures RateLimitOverride(opts) == Some((rate, burst)) <==>
              && "ratelimit" in opts && Writes(opts["ratelimit"], rate)
              && if "burst" in opts && IsNumber(opts["burst"]) then Writes(opts["burst"], burst) else burst == rate
  {
    hide ParseU64, Writes;
    forall s, n: nat ensures ParseU64(s) == Some(n) <==> Writes(s, n) { ParseExactly(s, n); }
  }
}
