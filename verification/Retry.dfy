/** The retry policies: when a failed request is sent again, and how long the client waits before. */
module Retry {
  import opened Numbers
  import opened Tally

  datatype BceError =
    | NilError
    | NetError                                          // anything that implements net.Error
    | ServiceError(code: string, statusCode: int)
    | OtherError

  datatype Policy =
    | NoRetry
    | BackOff(maxErrorRetry: int, maxDelayInMillis: int, baseIntervalInMillis: int)
    | Custom(decide: (BceError, int) -> bool, delay: (BceError, int) -> int)

  predicate ShouldRetry(policy: Policy, err: BceError, attempts: int) {
    match policy
    case NoRetry => false
    case Custom(decide, _) => decide(err, attempts)
    case BackOff(maxErrorRetry, _, _) =>
      if attempts >= maxErrorRetry then false
      else
        match err
        case NilError => false
        case NetError => true
        case ServiceError(code, statusCode) =>
          code == "RequestExpired" || statusCode == 421 || code == "RateLimit" || 500 <= statusCode < 600
        case OtherError => false
  }

  /** Whether SendRequest keeps what the transport reads of the body. */
  predicate ShouldBufferBody(policy: Policy) {
    match policy
    case NoRetry => false
    case BackOff(maxErrorRetry, _, _) => maxErrorRetry > 0
    case Custom(_, _) => true
  }

  /** The body is kept whenever some failure could lead to a retry; for the built-in policies only then. */
  lemma BufferedWhenRetrying(policy: Policy, err: BceError, attempts: nat)
    ensures ShouldRetry(policy, err, attempts) ==> ShouldBufferBody(policy)
    ensures !policy.Custom? && ShouldBufferBody(policy) ==> ShouldRetry(policy, NetError, 0)
  {
  }

  /** What back-off retries, below its limit: I/O errors, expired requests, rate limits and all 5xx; nothing else. */
  lemma RetriedErrors(policy: Policy, err: BceError, attempts: int)
    requires policy.BackOff?
    ensures ShouldRetry(policy, err, attempts)
       <==> attempts < policy.maxErrorRetry
            && (err == NetError
                || (err.ServiceError? && (err.code in {"RequestExpired", "RateLimit"} || err.statusCode == 421
                                          || err.statusCode / 100 == 5)))
  {
  }

  /** The other policies: no retry at all, or what the caller's own policy says. */
  lemma OtherPolicies(policy: Policy, err: BceError, attempts: int, jitter: real)
    requires !policy.BackOff?
    ensures ShouldRetry(policy, err, attempts) <==> policy.Custom? && policy.decide(err, attempts)
    ensures DelayMillis(policy, err, attempts, jitter) == if policy.Custom? then policy.delay(err, attempts) else 0
  {
  }

  // ---------------------------------------------------------------- the delay

  const TWO_63 := 0x8000_0000_0000_0000
  const TWO_64 := 0x1_0000_0000_0000_0000

  /** The value of a 64-bit signed integer operation whose exact result is x. */
  function Wrap64(x: int): (w: int)
    ensures -TWO_63 <= w < TWO_63
    ensures x >= 0 ==> w <= x
    ensures -TWO_63 <= x < TWO_63 ==> w == x
  {
    (x + TWO_63) % TWO_64 - TWO_63
  }

  function Pow2(n: nat): nat {
    if n == 0 then 1 else 2 * Pow2(n - 1)
  }

  /** Conversion of a real number to an integer, toward zero. */
  function Trunc(x: real): int {
    if x >= 0.0 then x.Floor else -((-x).Floor)
  }

  /** The back-off before jitter: shift, multiply and clamp, in 64-bit arithmetic. */
  function BackOffMillis(policy: Policy, attempts: nat): int
    requires policy.BackOff?
  {
    var delay := Wrap64(Wrap64(Pow2(attempts)) * policy.baseIntervalInMillis);
    if delay > policy.maxDelayInMillis then policy.maxDelayInMillis else delay
  }

  function Jittered(backOff: int, jitter: real): int {
    Trunc(backOff as real * jitter)
  }

  /** The delay in milliseconds; the jitter is a random number from 0.8 to 1.2. */
  function DelayMillis(policy: Policy, err: BceError, attempts: int, jitter: real): int {
    match policy
    case NoRetry => 0
    case Custom(_, delay) => delay(err, attempts)
    case BackOff(_, _, _) => if attempts < 0 then 0 else Jittered(BackOffMillis(policy, attempts), jitter)
  }

  predicate IsJitter(jitter: real) {
    0.8 <= jitter <= 1.2
  }

  /** Time actually spent for a delay: a negative one returns at once. */
  function Slept(delay: int): (time: nat)
    ensures time >= delay && (time == delay || time == 0)
  {
    if delay > 0 then delay else 0
  }

  lemma WrapCongruent(x: int, k: int)
    ensures Wrap64(x + k * TWO_64) == Wrap64(x)
  {
    var q, r := (x + TWO_63) / TWO_64, (x + TWO_63) % TWO_64;
    assert x + k * TWO_64 + TWO_63 == (q + k) * TWO_64 + r;
  }

  lemma WrapFactor(a: int, b: int)
    ensures Wrap64(Wrap64(a) * b) == Wrap64(a * b)
  {
    var k := (a + TWO_63) / TWO_64;
    assert a == Wrap64(a) + k * TWO_64;
    assert a * b == Wrap64(a) * b + (k * b) * TWO_64 by {
      assert (Wrap64(a) + k * TWO_64) * b == Wrap64(a) * b + k * TWO_64 * b;
    }
    WrapCongruent(Wrap64(a) * b, k * b);
  }

  lemma WrapProduct(a: nat, b: nat)
    ensures Wrap64(Wrap64(a) * b) <= a * b
    ensures a * b >= 0
  {
    WrapFactor(a, b);
  }

  /** Overflow can only shorten the back-off: it never exceeds the exact product, nor the limit. */
  lemma BackOffBounded(policy: Policy, attempts: nat)
    requires policy.BackOff? && policy.baseIntervalInMillis >= 0
    ensures BackOffMillis(policy, attempts) <= policy.maxDelayInMillis
    ensures BackOffMillis(policy, attempts) <= Pow2(attempts) * policy.baseIntervalInMillis
    ensures Pow2(attempts) * policy.baseIntervalInMillis >= 0
  {
    WrapProduct(Pow2(attempts), policy.baseIntervalInMillis);
  }

  /** As long as the shift does not overflow, the back-off starts at the base interval and doubles up to the limit. */
  lemma BackOffDoubles(policy: Policy, attempts: nat)
    requires policy.BackOff? && 0 <= policy.baseIntervalInMillis < TWO_63 && policy.maxDelayInMillis >= 0
    requires Pow2(attempts + 1) * policy.baseIntervalInMillis < TWO_63
    ensures BackOffMillis(policy, 0) == Min(policy.baseIntervalInMillis, policy.maxDelayInMillis)
    ensures BackOffMillis(policy, attempts + 1) == Min(2 * BackOffMillis(policy, attempts), policy.maxDelayInMillis)
  {
    var base := policy.baseIntervalInMillis;
    WrapFactor(1, base);
    WrapFactor(Pow2(attempts), base);
    WrapFactor(Pow2(attempts + 1), base);
    Doubled(Pow2(attempts), base);
  }

  lemma Doubled(a: nat, b: nat)
    ensures (2 * a) * b == 2 * (a * b) && 0 <= a * b <= 2 * (a * b)
  {
    assert a * b >= 0;
  }

  lemma ScaleStrict(x: real, a: real, b: real)
    requires x > 0.0 && a < b
    ensures x * a < x * b
  {
  }

  lemma ScaledRange(backOff: int, jitter: real, x: real)
    requires x == backOff as real * jitter && IsJitter(jitter)
    ensures backOff > 0 ==> 0.0 < x <= backOff as real * 1.2
    ensures backOff <= 0 ==> x <= 0.0
  {
    if backOff > 0 {
      if jitter < 1.2 {
        ScaleStrict(backOff as real, jitter, 1.2);
      }
      ScaleStrict(backOff as real, 0.0, jitter);
    } else if backOff < 0 {
      ScaleStrict(-(backOff as real), 0.0, jitter);
      assert -(backOff as real) * jitter == -x;
    }
  }

  /** Rounding toward zero, as far as the bounds need it. */
  lemma TruncRange(backOff: int, x: real, n: int)
    requires backOff > 0 ==> 0.0 < x <= backOff as real * 1.2
    requires backOff <= 0 ==> x <= 0.0
    ensures backOff > 0 ==> 0 <= 5 * Trunc(x) <= 6 * backOff
    ensures backOff <= 0 ==> Trunc(x) <= 0
    ensures 6 * backOff < 5 * (n + 1) && n >= 0 ==> Trunc(x) <= n
  {
    if backOff > 0 {
      var t := x.Floor;
      assert t as real <= x < t as real + 1.0;
      assert (5 * t) as real == 5.0 * (t as real);
      assert (6 * backOff) as real == 5.0 * (backOff as real * 1.2);
    }
  }

  lemma JitteredBounded(backOff: int, jitter: real, bound: int)
    requires IsJitter(jitter) && backOff <= bound && bound >= 0
    ensures 5 * Slept(Jittered(backOff, jitter)) <= 6 * bound
  {
    var x := backOff as real * jitter;
    ScaledRange(backOff, jitter, x);
    TruncRange(backOff, x, 0);
  }

  lemma JitteredWithin(backOff: int, jitter: real, limit: nat)
    requires IsJitter(jitter) && 6 * backOff < 5 * (limit + 1)
    ensures Jittered(backOff, jitter) <= limit
  {
    var x := backOff as real * jitter;
    ScaledRange(backOff, jitter, x);
    TruncRange(backOff, x, limit);
  }

  lemma ScaleCancel(x: real, a: real, b: real)
    requires x > 0.0 && x * a <= x * b
    ensures a <= b
  {
    if b < a {
      ScaleStrict(x, b, a);
    }
  }

  lemma Quotient(a: real, b: real) returns (q: real)
    requires b > 0.0
    ensures b * q == a
  {
    q := a / b;
  }

  /** A number between 0.8 and 1.2 times b is b times a jitter. */
  lemma Factor(a: real, b: real, low: real, high: real) returns (q: real)
    requires b > 0.0 && low == b * 0.8 && high == b * 1.2
    requires low <= a <= high
    ensures IsJitter(q) && b * q == a
  {
    q := Quotient(a, b);
    ScaleCancel(b, 0.8, q);
    ScaleCancel(b, q, 1.2);
  }

  /** The jitter that takes the back-off just past the limit. */
  lemma ReachingJitter(backOff: int, limit: nat) returns (jitter: real)
    requires backOff <= limit && 6 * backOff >= 5 * (limit + 1)
    ensures IsJitter(jitter) && Jittered(backOff, jitter) == limit + 1
  {
    var a, b := (limit + 1) as real, backOff as real;
    assert (6 * backOff) as real == 5.0 * (b * 1.2);
    assert (5 * (limit + 1)) as real == 5.0 * a;
    jitter := Factor(a, b, b * 0.8, b * 1.2);
    assert Trunc(a) == limit + 1;
  }

  /** Jitter is applied after the clamp, so the delay stays within 1.2 times the clamped back-off. */
  lemma DelayBounded(policy: Policy, err: BceError, attempts: nat, jitter: real)
    requires policy.BackOff? && policy.baseIntervalInMillis >= 0 && policy.maxDelayInMillis >= 0 && IsJitter(jitter)
    ensures 5 * Slept(DelayMillis(policy, err, attempts, jitter)) <= 6 * policy.maxDelayInMillis
    ensures 5 * Slept(DelayMillis(policy, err, attempts, jitter)) <= 6 * (Pow2(attempts) * policy.baseIntervalInMillis)
  {
    BackOffBounded(policy, attempts);
    JitteredBounded(BackOffMillis(policy, attempts), jitter, policy.maxDelayInMillis);
    JitteredBounded(BackOffMillis(policy, attempts), jitter, Pow2(attempts) * policy.baseIntervalInMillis);
  }

  /** Nor does the jitter take away more than a fifth: 0.8 times the back-off, rounded down, is always slept. */
  lemma DelayAtLeast(policy: Policy, err: BceError, attempts: nat, jitter: real)
    requires policy.BackOff? && BackOffMillis(policy, attempts) >= 0 && IsJitter(jitter)
    ensures DelayMillis(policy, err, attempts, jitter) >= 4 * BackOffMillis(policy, attempts) / 5
  {
    var backOff := BackOffMillis(policy, attempts);
    var x := backOff as real * jitter;
    ScaledAtLeast(backOff, jitter, x);
    FloorAtLeast(backOff, x);
  }

  lemma ScaledAtLeast(backOff: nat, jitter: real, x: real)
    requires x == backOff as real * jitter && IsJitter(jitter)
    ensures x >= backOff as real * 0.8
  {
    if backOff > 0 && jitter > 0.8 {
      ScaleStrict(backOff as real, 0.8, jitter);
    }
  }

  lemma FloorAtLeast(backOff: nat, x: real)
    requires x >= backOff as real * 0.8
    ensures Trunc(x) >= 4 * backOff / 5
  {
    var t, q := x.Floor, 4 * backOff / 5;
    assert 5 * q <= 4 * backOff;
    assert (5 * q) as real == 5.0 * (q as real) && (4 * backOff) as real == 5.0 * (backOff as real * 0.8);
    assert q as real <= x < t as real + 1.0;
  }

  /**
    The documented limit on the delay holds for every jitter exactly when 1.2 times the clamped
    back-off stays below the limit plus one millisecond.
   */
  lemma DelayWithinLimit(policy: Policy, err: BceError, attempts: nat)
    requires policy.BackOff? && policy.maxDelayInMillis >= 0
    ensures (forall jitter :: IsJitter(jitter) ==>
        DelayMillis(policy, err, attempts, jitter) <= policy.maxDelayInMillis)
       <==> 6 * BackOffMillis(policy, attempts) < 5 * (policy.maxDelayInMillis + 1)
  {
    var backOff, limit := BackOffMillis(policy, attempts), policy.maxDelayInMillis;
    if 6 * backOff < 5 * (limit + 1) {
      forall jitter | IsJitter(jitter) ensures DelayMillis(policy, err, attempts, jitter) <= limit {
        JitteredWithin(backOff, jitter, limit);
      }
    } else {
      var jitter := ReachingJitter(backOff, limit);
      assert DelayMillis(policy, err, attempts, jitter) == limit + 1;
    }
  }

  /** The default policy, 3 retries from 300 ms with a limit of 20 s, stays below its limit. */
  lemma DefaultPolicyWithinLimit(err: BceError, attempts: nat, jitter: real)
    requires IsJitter(jitter) && attempts < 3
    ensures DelayMillis(BackOff(3, 20000, 300), err, attempts, jitter) <= 20000
  {
    assert Pow2(1) == 2 && Pow2(2) == 4;
    JitteredWithin(BackOffMillis(BackOff(3, 20000, 300), attempts), jitter, 20000);
  }

  /** With 8 retries the same intervals pass the limit. */
  lemma EightRetriesPassLimit(err: BceError)
    ensures DelayMillis(BackOff(8, 20000, 300), err, 7, 1.1) == 22000
  {
    assert Pow2(3) == 8 && Pow2(6) == 64 && Pow2(7) == 128;
  }

  /**
    Total sleep over the first retries: at most 1.2 times both the geometric sum and the number of
    retries times the limit.
   */
  lemma {:induction false} TotalSleepBounded(policy: Policy, errs: seq<BceError>, jitters: seq<real>, delays: seq<int>)
    requires policy.BackOff? && policy.baseIntervalInMillis >= 0 && policy.maxDelayInMillis >= 0
    requires |errs| == |jitters| == |delays|
    requires forall i :: 0 <= i < |delays| ==>
        IsJitter(jitters[i]) && delays[i] == DelayMillis(policy, errs[i], i, jitters[i])
    ensures 5 * Sum(delays, Slept) <= 6 * (|delays| * policy.maxDelayInMillis)
    ensures 5 * Sum(delays, Slept) <= 6 * ((Pow2(|delays|) - 1) * policy.baseIntervalInMillis)
  {
    if delays == [] {
      assert 0 * policy.maxDelayInMillis == 0 && 0 * policy.baseIntervalInMillis == 0;
    } else {
      var n := |delays| - 1;
      TotalSleepBounded(policy, errs[..n], jitters[..n], delays[..n]);
      assert delays[n] == DelayMillis(policy, errs[n], n, jitters[n]);
      DelayBounded(policy, errs[n], n, jitters[n]);
      OneMore(n, 1, policy.maxDelayInMillis);
      OneMore(Pow2(n) - 1, Pow2(n), policy.baseIntervalInMillis);
    }
  }

  lemma OneMore(a: int, b: int, x: int)
    ensures (a + b) * x == a * x + b * x
  {
  }
}
