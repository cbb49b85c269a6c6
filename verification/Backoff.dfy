/**
 Backoff arithmetic: exponential delays in milliseconds with 128-bit saturation, truncation to 64
 bits, a cap and jitter; and the restart delays of agents, over the reals.
 */
module Backoff {
  import opened Base
  import Retry

  const TWO_TO_64: nat := 0x1_0000_0000_0000_0000
  const TWO_TO_128: nat := TWO_TO_64 * TWO_TO_64

  function Pow2(n: nat): nat
    ensures Pow2(n) > 0
  {
    if n == 0 then 1 else 2 * Pow2(n - 1)
  }

  /** base * 2^attempt as an unsigned 128-bit number, saturating. The power itself does not fit from
      attempt 128 on. */
  function Exponential(base: nat, attempt: nat): nat
    requires attempt < 128
  {
    var exact := base * Pow2(attempt);
    if exact < TWO_TO_128 then exact else TWO_TO_128 - 1
  }

  /** The cast of a 128-bit number to 64 bits. */
  function Truncate(n: nat): nat {
    n % TWO_TO_64
  }

  /** The part of the delay that is not jitter. */
  function Capped(base: nat, max: nat, attempt: nat): nat
    requires attempt < 128
  {
    Min(Truncate(Exponential(base, attempt)), Truncate(max))
  }

  predicate JitterOk(base: nat, max: nat, attempt: nat, jitter: nat)
    requires attempt < 128
  {
    var cap := Capped(base, max, attempt);
    if cap > 0 then jitter < cap else jitter == 0
  }

  /** `RetryConfig::calculate_delay` for the jitter drawn. */
  function Delay(base: nat, max: nat, attempt: nat, jitter: nat): nat
    requires attempt < 128
  {
    var cap := Capped(base, max, attempt);
    Min(Min(cap + jitter, TWO_TO_64 - 1), Truncate(max))
  }

  /** The provider crate's copy adds without saturating, so its sum wraps around. */
  function ProviderDelay(base: nat, max: nat, attempt: nat, jitter: nat): nat
    requires attempt < 128
  {
    var cap := Capped(base, max, attempt);
    Min(Truncate(cap + jitter), Truncate(max))
  }

  lemma {:induction false} Pow2Add(a: nat, b: nat)
    ensures Pow2(a + b) == Pow2(a) * Pow2(b)
  {
    if a == 0 {
    } else {
      Pow2Add(a - 1, b);
      assert Pow2(a) * Pow2(b) == 2 * (Pow2(a - 1) * Pow2(b));
    }
  }

  lemma Pow2Of64()
    ensures Pow2(64) == TWO_TO_64
  {
    assert Pow2(8) == 256;
    Pow2Add(8, 8);
    assert Pow2(16) == 0x1_0000;
    Pow2Add(16, 16);
    assert Pow2(32) == 0x1_0000_0000;
    Pow2Add(32, 32);
  }

  /** The delay never exceeds the configured maximum, even when the cast truncates. */
  lemma DelayCapped(base: nat, max: nat, attempt: nat, jitter: nat)
    requires attempt < 128
    ensures Delay(base, max, attempt, jitter) <= max && ProviderDelay(base, max, attempt, jitter) <= max
  {
    assert Truncate(max) <= max;
  }

  /** While the exponential fits in 64 bits the delay lies between it and twice it, both capped. */
  lemma DelayRange(base: nat, max: nat, attempt: nat, jitter: nat)
    requires attempt < 128 && max < TWO_TO_64 && base * Pow2(attempt) < TWO_TO_64
    requires JitterOk(base, max, attempt, jitter)
    ensures var exact := base * Pow2(attempt);
            Min(exact, max) <= Delay(base, max, attempt, jitter) <= Min(2 * exact, max)
  {
    CappedOf(base, max, attempt);
    DelayAround(Capped(base, max, attempt), max, jitter);
  }

  lemma CappedOf(base: nat, max: nat, attempt: nat)
    requires attempt < 128 && max < TWO_TO_64 && base * Pow2(attempt) < TWO_TO_64
    ensures Capped(base, max, attempt) == Min(base * Pow2(attempt), max)
  {
    SmallTruncates(base * Pow2(attempt));
    SmallTruncates(max);
  }

  lemma SmallTruncates(n: nat)
    requires n < TWO_TO_64
    ensures Truncate(n) == n < TWO_TO_128
  {
  }

  lemma DelayAround(cap: nat, max: nat, jitter: nat)
    requires max < TWO_TO_64 && cap <= max && (if cap > 0 then jitter < cap else jitter == 0)
    ensures cap <= Min(Min(cap + jitter, TWO_TO_64 - 1), Truncate(max)) <= Min(2 * cap, max)
  {
    SmallTruncates(max);
  }

  /** The documented lower bound, for every jitter, holds exactly when the exponential fits in 64 bits
      or what the cast leaves of it still reaches the maximum. */
  lemma LowerBoundIff(base: nat, max: nat, attempt: nat)
    requires attempt < 128 && max < TWO_TO_64
    ensures (forall jitter: nat :: JitterOk(base, max, attempt, jitter) ==>
               Delay(base, max, attempt, jitter) >= Min(base * Pow2(attempt), max))
       <==> base * Pow2(attempt) < TWO_TO_64 || Truncate(Exponential(base, attempt)) >= max
  {
    var exact, left := base * Pow2(attempt), Truncate(Exponential(base, attempt));
    SmallTruncates(max);
    if exact < TWO_TO_64 {
      forall jitter: nat | JitterOk(base, max, attempt, jitter)
        ensures Delay(base, max, attempt, jitter) >= Min(exact, max)
      {
        DelayRange(base, max, attempt, jitter);
      }
    } else {
      forall jitter: nat | JitterOk(base, max, attempt, jitter)
        ensures Delay(base, max, attempt, jitter) >= Min(left, max)
      {
        DelayAround(Min(left, max), max, jitter);
      }
      assert JitterOk(base, max, attempt, 0);
      assert Delay(base, max, attempt, 0) == Min(left, max);
    }
  }

  /** From attempt 64 on, and until the product saturates, the cast leaves nothing: the backoff is
      gone whatever the base delay. */
  lemma BackoffCollapses(base: nat, max: nat, attempt: nat, jitter: nat)
    requires 64 <= attempt < 128 && base * Pow2(attempt) < TWO_TO_128
    requires JitterOk(base, max, attempt, jitter)
    ensures Delay(base, max, attempt, jitter) == 0
  {
    Pow2Of64();
    Pow2Add(attempt - 64, 64);
    ProductAssociates(base, Pow2(attempt - 64), Pow2(64));
    MultipleVanishes(base * Pow2(attempt - 64));
    assert Truncate(Exponential(base, attempt)) == 0;
  }

  lemma ProductAssociates(a: nat, b: nat, c: nat)
    ensures a * (b * c) == (a * b) * c
  {
  }

  lemma MultipleVanishes(n: nat)
    ensures Truncate(n * TWO_TO_64) == 0
  {
  }

  /** Once the product saturates the cast leaves all ones, and the delay is the maximum again. */
  lemma SaturationRestores(base: nat, max: nat, attempt: nat, jitter: nat)
    requires attempt < 128 && max < TWO_TO_64 && base * Pow2(attempt) >= TWO_TO_128
    ensures Delay(base, max, attempt, jitter) == max
  {
    SmallTruncates(max);
    assert Truncate(TWO_TO_128 - 1) == TWO_TO_64 - 1;
  }

  /** The two copies agree exactly when the provider's sum does not wrap around. */
  lemma SumWraps(base: nat, max: nat, attempt: nat, jitter: nat)
    requires attempt < 128 && max < TWO_TO_64 && JitterOk(base, max, attempt, jitter)
    ensures ProviderDelay(base, max, attempt, jitter) == Delay(base, max, attempt, jitter)
       <==> Capped(base, max, attempt) + jitter < TWO_TO_64
  {
    var sum := Capped(base, max, attempt) + jitter;
    SmallTruncates(max);
    if sum < TWO_TO_64 {
      SmallTruncates(sum);
    } else {
      assert Truncate(sum) == sum - TWO_TO_64 < max;
    }
  }

  /** They agree for every jitter exactly when the delay before jitter is at most half the 64-bit range. */
  lemma CopiesAgree(base: nat, max: nat, attempt: nat)
    requires attempt < 128 && max < TWO_TO_64
    ensures (forall jitter: nat :: JitterOk(base, max, attempt, jitter) ==>
               ProviderDelay(base, max, attempt, jitter) == Delay(base, max, attempt, jitter))
       <==> 2 * Capped(base, max, attempt) <= TWO_TO_64
  {
    var cap := Capped(base, max, attempt);
    forall jitter: nat | JitterOk(base, max, attempt, jitter)
      ensures ProviderDelay(base, max, attempt, jitter) == Delay(base, max, attempt, jitter) <==> cap + jitter < TWO_TO_64
    {
      SumWraps(base, max, attempt, jitter);
    }
    if cap > 0 {
      var most: nat := cap - 1;
      assert JitterOk(base, max, attempt, most);
    }
  }

  /** Total wait over the first `k` retries, with the jitter drawn for each. */
  function TotalWait(base: nat, max: nat, k: nat, jitters: seq<nat>): nat
    requires k <= |jitters| && k <= 128
  {
    if k == 0 then 0 else TotalWait(base, max, k - 1, jitters) + Delay(base, max, k - 1, jitters[k - 1])
  }

  lemma DoublingSum(base: nat, p: nat)
    requires p > 0
    ensures 2 * base * (p - 1) + 2 * (base * p) == 2 * base * (2 * p - 1)
  {
    assert 2 * base * (p - 1) == 2 * (base * p) - 2 * base;
    assert 2 * base * (2 * p - 1) == 4 * (base * p) - 2 * base;
  }

  lemma WaitStep(w: nat, last: nat, base: nat, p: nat, k: nat, max: nat)
    requires p > 0 && k > 0
    requires w <= (k - 1) * max && w <= 2 * base * (p - 1)
    requires last <= max && last <= 2 * (base * p)
    ensures w + last <= k * max && w + last <= 2 * base * (2 * p - 1)
  {
    DoublingSum(base, p);
    assert k * max == (k - 1) * max + max;
  }

  /** The delay of one attempt, truncated or not: the casts only lower it. */
  lemma DelayOfAttempt(base: nat, max: nat, a: nat, jitter: nat)
    requires a < 128 && JitterOk(base, max, a, jitter)
    ensures Delay(base, max, a, jitter) <= max && Delay(base, max, a, jitter) <= 2 * (base * Pow2(a))
  {
    DelayCapped(base, max, a, jitter);
    TruncateLowers(Exponential(base, a));
  }

  lemma TruncateLowers(n: nat)
    ensures Truncate(n) <= n
  {
  }

  /** The jitters drawn for the first `k` attempts are admissible. */
  ghost predicate JittersOk(base: nat, max: nat, k: nat, jitters: seq<nat>)
    requires k <= |jitters| && k <= 128
  {
    forall a :: 0 <= a < k ==> JitterOk(base, max, a, jitters[a])
  }

  /** `k` retries wait at most `k` times the maximum, and at most twice the sum of the exponentials. */
  lemma {:induction false} TotalWaitBound(base: nat, max: nat, k: nat, jitters: seq<nat>)
    requires k <= |jitters| && k <= 128 && JittersOk(base, max, k, jitters)
    ensures TotalWait(base, max, k, jitters) <= k * max
    ensures TotalWait(base, max, k, jitters) <= 2 * base * (Pow2(k) - 1)
  {
    if k == 0 {
    } else {
      TotalWaitBound(base, max, k - 1, jitters);
      DelayOfAttempt(base, max, k - 1, jitters[k - 1]);
      WaitStep(TotalWait(base, max, k - 1, jitters), Delay(base, max, k - 1, jitters[k - 1]), base, Pow2(k - 1), k, max);
    }
  }

  /** The time slept through for a list of attempts. */
  function SleptFor(base: nat, max: nat, waits: seq<nat>, jitters: seq<nat>): nat
    requires |waits| <= |jitters| && forall i :: 0 <= i < |waits| ==> waits[i] < 128
  {
    if waits == [] then 0
    else
      var n := |waits| - 1;
      SleptFor(base, max, waits[..n], jitters) + Delay(base, max, waits[n], jitters[n])
  }

  lemma {:induction false} SleepsInOrder(base: nat, max: nat, waits: seq<nat>, jitters: seq<nat>)
    requires |waits| <= |jitters| && |waits| <= 128 && forall i :: 0 <= i < |waits| ==> waits[i] == i
    ensures SleptFor(base, max, waits, jitters) == TotalWait(base, max, |waits|, jitters)
  {
    if waits == [] {
    } else {
      SleepsInOrder(base, max, waits[..|waits| - 1], jitters);
    }
  }

  /** A retry loop that makes `n` calls sleeps `n - 1` times, and for no longer than the bounds say.
      Only the attempts that are made count. */
  lemma RetryLoopWait<T, E>(f: nat -> Result<T, E>, retryable: E -> bool, maxRetries: nat, at: nat,
                            base: nat, max: nat, jitters: seq<nat>)
    requires var made := |Retry.Waits(Retry.Once(f), retryable, maxRetries, 0, at)|;
             made <= |jitters| && made <= 128 && JittersOk(base, max, made, jitters)
    ensures var (_, next) := Retry.Attempts(Retry.Once(f), retryable, maxRetries, 0, at);
            var waits := Retry.Waits(Retry.Once(f), retryable, maxRetries, 0, at);
            var k := next - at - 1;
            && 0 <= k == |waits| <= maxRetries && (forall i :: 0 <= i < |waits| ==> waits[i] < 128)
            && SleptFor(base, max, waits, jitters) <= k * max
            && SleptFor(base, max, waits, jitters) <= 2 * base * (Pow2(k) - 1)
  {
    var waits := Retry.Waits(Retry.Once(f), retryable, maxRetries, 0, at);
    Retry.OneWaitPerRetry(f, retryable, maxRetries, 0, at);
    Retry.FirstDecisiveOutcome(f, retryable, maxRetries, 0, at);
    SleepsInOrder(base, max, waits, jitters);
    TotalWaitBound(base, max, |waits|, jitters);
  }

  // ---- agent restarts ----

  /** Delays in seconds, multiplied by a constant factor per attempt and capped. */
  datatype RestartPolicy = RestartPolicy(maxRetries: nat, initialDelay: real, maxDelay: real, multiplier: real)

  function Power(x: real, n: nat): real {
    if n == 0 then 1.0 else x * Power(x, n - 1)
  }

  function DelayForAttempt(p: RestartPolicy, attempt: nat): real {
    var secs := p.initialDelay * Power(p.multiplier, attempt);
    if secs <= p.maxDelay then secs else p.maxDelay
  }

  lemma {:induction false} PowerAtLeastOne(x: real, n: nat)
    requires x >= 1.0
    ensures Power(x, n) >= 1.0
  {
    if n == 0 {
    } else {
      PowerAtLeastOne(x, n - 1);
      Scaled(1.0, x, Power(x, n - 1));
    }
  }

  lemma Scaled(a: real, b: real, c: real)
    requires a <= b && c >= 0.0
    ensures a * c <= b * c
  {
    assert (b - a) * c >= 0.0;
  }

  /** With a multiplier of at least one, successive delays never shrink and never pass the maximum. */
  lemma DelaysGrow(p: RestartPolicy, attempt: nat)
    requires p.initialDelay >= 0.0 && p.multiplier >= 1.0
    ensures DelayForAttempt(p, attempt) <= DelayForAttempt(p, attempt + 1) <= p.maxDelay
  {
    var power := Power(p.multiplier, attempt);
    PowerAtLeastOne(p.multiplier, attempt);
    Scaled(1.0, p.multiplier, power);
    var more := p.multiplier * power;
    assert power <= more;
    assert p.initialDelay * power <= p.initialDelay * more by {
      Scaled(power, more, p.initialDelay);
      assert power * p.initialDelay == p.initialDelay * power;
      assert more * p.initialDelay == p.initialDelay * more;
    }
  }

  /** Each delay is the one before multiplied, up to the maximum; the first is the initial one. */
  lemma DelayRecurrence(p: RestartPolicy, attempt: nat)
    requires p.initialDelay >= 0.0 && p.multiplier >= 1.0 && p.maxDelay >= 0.0
    ensures DelayForAttempt(p, 0) == (if p.initialDelay <= p.maxDelay then p.initialDelay else p.maxDelay)
    ensures var next := DelayForAttempt(p, attempt) * p.multiplier;
            DelayForAttempt(p, attempt + 1) == if next <= p.maxDelay then next else p.maxDelay
  {
    var secs := p.initialDelay * Power(p.multiplier, attempt);
    assert p.initialDelay * (p.multiplier * Power(p.multiplier, attempt)) == secs * p.multiplier;
    if secs > p.maxDelay {
      Scaled(1.0, p.multiplier, p.maxDelay);
      Scaled(p.maxDelay, secs, p.multiplier);
      assert p.multiplier * p.maxDelay == p.maxDelay * p.multiplier;
      PastTheMaximum(p.maxDelay, secs, p.multiplier);
    }
  }

  lemma PastTheMaximum(max: real, secs: real, m: real)
    requires 0.0 <= max < secs && m >= 1.0
    ensures secs * m > max && (max * m <= max ==> max * m == max)
  {
    assert secs * (m - 1.0) >= 0.0 && max * (m - 1.0) >= 0.0;
  }

  class RestartState {
    const policy: RestartPolicy
    var attempt: nat

    constructor (policy: RestartPolicy)
      ensures this.policy == policy && attempt == 0
    {
      this.policy := policy;
      this.attempt := 0;
    }

    function ShouldRestart(): bool
      reads this
    {
      attempt < policy.maxRetries
    }

    method RecordAttempt()
      modifies this`attempt
      ensures attempt == old(attempt) + 1
    {
      attempt := attempt + 1;
    }

    /** A loop that dies after every restart is restarted exactly `maxRetries` times in all, each
        after the delay of its attempt. */
    method RestartUntilExhausted() returns (delays: seq<real>)
      requires attempt <= policy.maxRetries
      modifies this`attempt
      ensures attempt == policy.maxRetries && |delays| == policy.maxRetries - old(attempt)
      ensures forall i :: 0 <= i < |delays| ==> delays[i] == DelayForAttempt(policy, old(attempt) + i)
    {
      delays := [];
      while ShouldRestart()
        invariant old(attempt) <= attempt <= policy.maxRetries && |delays| == attempt - old(attempt)
        invariant forall i :: 0 <= i < |delays| ==> delays[i] == DelayForAttempt(policy, old(attempt) + i)
        decreases policy.maxRetries - attempt
      {
        delays := delays + [DelayForAttempt(policy, attempt)];
        RecordAttempt();
      }
    }
  }
}
