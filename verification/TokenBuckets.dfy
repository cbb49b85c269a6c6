/**
 The token bucket that limits inbound webhook requests, with real-valued tokens and time in seconds.
 The laws are stated for any refill function of the elapsed time that is additive and never
 negative; a constant rate is one.
 */
module TokenBuckets {

  /** Tokens gained in a span of time. */
  type Refill = real -> real

  datatype Level = Level(tokens: real, lastRefill: real)

  /** Time since `since`; a clock that ran backwards counts as not having moved. */
  function Elapsed(now: real, since: real): real {
    if now >= since then now - since else 0.0
  }

  function Least(a: real, b: real): real {
    if a <= b then a else b
  }

  function Refilled(capacity: real, refill: Refill, l: Level, now: real): real {
    Least(l.tokens + refill(Elapsed(now, l.lastRefill)), capacity)
  }

  /** One call of `try_consume` at `now`. */
  function Consume(capacity: real, refill: Refill, l: Level, now: real): (bool, Level) {
    var tokens := Refilled(capacity, refill, l, now);
    if tokens >= 1.0 then (true, Level(tokens - 1.0, now)) else (false, Level(tokens, now))
  }

  /** The refill of a bucket of the given capacity and period; a zero period fills it at once. */
  function RefillOf(capacity: real, per: real): Refill
    requires per >= 0.0
  {
    if per == 0.0 then (dt: real) => capacity else (dt: real) => dt * (capacity / per)
  }

  class TokenBucket {
    const capacity: real
    const per: real
    var tokens: real
    var lastRefill: real

    function State(): Level
      reads this
    {
      Level(tokens, lastRefill)
    }

    ghost predicate Valid()
      reads this
    {
      0.0 <= tokens <= capacity && per >= 0.0
    }

    constructor (capacity: nat, per: real, now: real)
      requires per >= 0.0
      ensures Valid() && State() == Level(capacity as real, now)
      ensures this.capacity == capacity as real && this.per == per
    {
      this.capacity := capacity as real;
      this.per := per;
      this.tokens := capacity as real;
      this.lastRefill := now;
    }

    method TryConsume(now: real) returns (allowed: bool)
      requires Valid()
      modifies this`tokens, this`lastRefill
      ensures Valid()
      ensures (allowed, State()) == Consume(capacity, RefillOf(capacity, per), old(State()), now)
    {
      var elapsed := if now >= lastRefill then now - lastRefill else 0.0;
      if per > 0.0 {
        var gained := elapsed * (capacity / per);
        ProductNonNegative(elapsed, capacity / per);
        assert gained == RefillOf(capacity, per)(elapsed);
        tokens := Least(tokens + gained, capacity);
      } else {
        tokens := capacity;
      }
      lastRefill := now;
      if tokens >= 1.0 {
        tokens := tokens - 1.0;
        allowed := true;
      } else {
        allowed := false;
      }
    }
  }

  // ---- additive refills ----

  ghost predicate Gains(refill: Refill, x: real) {
    x >= 0.0 ==> refill(x) >= 0.0
  }

  ghost predicate Adds(refill: Refill, x: real, y: real) {
    x >= 0.0 && y >= 0.0 ==> refill(x + y) == refill(x) + refill(y)
  }

  ghost predicate Additive(refill: Refill) {
    && refill(0.0) == 0.0
    && (forall x :: Gains(refill, x))
    && (forall x, y :: Adds(refill, x, y))
  }

  lemma AdditiveAt(refill: Refill, x: real, y: real)
    requires Additive(refill) && x >= 0.0 && y >= 0.0
    ensures refill(x + y) == refill(x) + refill(y)
    ensures refill(x) >= 0.0 && refill(y) >= 0.0
  {
    assert Gains(refill, x) && Gains(refill, y) && Adds(refill, x, y);
  }

  lemma ProductNonNegative(x: real, r: real)
    requires x >= 0.0 && r >= 0.0
    ensures x * r >= 0.0
  {
  }

  /** A bucket with a positive period refills additively. */
  lemma RateAdditive(capacity: real, per: real)
    requires capacity >= 0.0 && per > 0.0
    ensures Additive(RefillOf(capacity, per))
  {
    var rate := capacity / per;
    assert rate >= 0.0;
    var refill := RefillOf(capacity, per);
    forall x
      ensures Gains(refill, x)
    {
      if x >= 0.0 {
        ProductNonNegative(x, rate);
      }
    }
    forall x, y
      ensures Adds(refill, x, y)
    {
      assert (x + y) * rate == x * rate + y * rate;
    }
  }

  // ---- whole runs ----

  /** The bucket after calls at the given times. */
  function After(capacity: real, refill: Refill, l: Level, stamps: seq<real>): Level {
    if stamps == [] then l
    else Consume(capacity, refill, After(capacity, refill, l, stamps[..|stamps| - 1]), stamps[|stamps| - 1]).1
  }

  /** The verdicts on those calls. */
  function Verdicts(capacity: real, refill: Refill, l: Level, stamps: seq<real>): (vs: seq<bool>)
    ensures |vs| == |stamps|
  {
    if stamps == [] then []
    else
      var before := stamps[..|stamps| - 1];
      Verdicts(capacity, refill, l, before)
        + [Consume(capacity, refill, After(capacity, refill, l, before), stamps[|stamps| - 1]).0]
  }

  function Accepted(vs: seq<bool>): nat {
    if vs == [] then 0 else Accepted(vs[..|vs| - 1]) + if vs[|vs| - 1] then 1 else 0
  }

  /** The clock never runs backwards. */
  ghost predicate Monotone(start: real, stamps: seq<real>) {
    && (forall i :: 0 <= i < |stamps| ==> start <= stamps[i])
    && (forall i, j :: 0 <= i < j < |stamps| ==> stamps[i] <= stamps[j])
  }

  /** What the window of calls from `i` may still admit at call `j`. */
  ghost function Allowance(capacity: real, refill: Refill, stamps: seq<real>, vs: seq<bool>, i: nat, j: nat): real
    requires i <= j < |stamps| == |vs|
  {
    capacity + refill(stamps[j] - stamps[i]) - Accepted(vs[i..j]) as real
  }

  /** Tokens available to call `j`. */
  ghost function Available(capacity: real, refill: Refill, l: Level, stamps: seq<real>, j: nat): real
    requires j < |stamps|
  {
    Refilled(capacity, refill, After(capacity, refill, l, stamps[..j]), stamps[j])
  }

  lemma {:induction false} VerdictAt(capacity: real, refill: Refill, l: Level, stamps: seq<real>, j: nat)
    requires j < |stamps|
    ensures Verdicts(capacity, refill, l, stamps)[j] == (Available(capacity, refill, l, stamps, j) >= 1.0)
  {
    var before := stamps[..|stamps| - 1];
    if j < |stamps| - 1 {
      VerdictAt(capacity, refill, l, before, j);
      assert before[..j] == stamps[..j];
    } else {
      assert before == stamps[..j];
    }
  }

  lemma LastRefillOf(capacity: real, refill: Refill, l: Level, stamps: seq<real>)
    ensures After(capacity, refill, l, stamps).lastRefill == if stamps == [] then l.lastRefill else stamps[|stamps| - 1]
  {
  }

  lemma AfterStep(capacity: real, refill: Refill, l: Level, stamps: seq<real>, j: nat)
    requires j < |stamps|
    ensures After(capacity, refill, l, stamps[..j + 1])
         == Consume(capacity, refill, After(capacity, refill, l, stamps[..j]), stamps[j]).1
  {
    assert stamps[..j + 1][..j] == stamps[..j];
  }

  lemma ConsumeThenRefill(capacity: real, refill: Refill, l: Level, now: real, next: real)
    requires now <= next
    ensures var tokens := Refilled(capacity, refill, l, now);
            Refilled(capacity, refill, Consume(capacity, refill, l, now).1, next)
            == Least(tokens - (if tokens >= 1.0 then 1.0 else 0.0) + refill(next - now), capacity)
  {
  }

  lemma AvailableStep(capacity: real, refill: Refill, l: Level, stamps: seq<real>, j: nat)
    requires j + 1 < |stamps| && stamps[j] <= stamps[j + 1]
    ensures var v := Verdicts(capacity, refill, l, stamps)[j];
            Available(capacity, refill, l, stamps, j + 1)
            == Least(Available(capacity, refill, l, stamps, j) - (if v then 1.0 else 0.0)
                       + refill(stamps[j + 1] - stamps[j]),
                     capacity)
  {
    VerdictAt(capacity, refill, l, stamps, j);
    AfterStep(capacity, refill, l, stamps, j);
    ConsumeThenRefill(capacity, refill, After(capacity, refill, l, stamps[..j]), stamps[j], stamps[j + 1]);
  }

  /** The window from `i`, one call later. */
  lemma AllowanceStep(capacity: real, refill: Refill, stamps: seq<real>, vs: seq<bool>, i: nat, j: nat)
    requires Additive(refill) && i <= j && j + 1 < |stamps| == |vs|
    requires stamps[i] <= stamps[j] <= stamps[j + 1]
    ensures Allowance(capacity, refill, stamps, vs, i, j + 1)
         == Allowance(capacity, refill, stamps, vs, i, j) + refill(stamps[j + 1] - stamps[j]) - if vs[j] then 1.0 else 0.0
  {
    AdditiveAt(refill, stamps[j] - stamps[i], stamps[j + 1] - stamps[j]);
    assert (stamps[j] - stamps[i]) + (stamps[j + 1] - stamps[j]) == stamps[j + 1] - stamps[i];
    assert vs[i..j + 1][..j - i] == vs[i..j];
  }

  lemma AllowanceSelf(capacity: real, refill: Refill, stamps: seq<real>, vs: seq<bool>, j: nat)
    requires Additive(refill) && j < |stamps| == |vs|
    ensures Allowance(capacity, refill, stamps, vs, j, j) == capacity
  {
    assert vs[j..j] == [];
  }

  lemma {:induction false} AvailableBelowAllowance(capacity: real, refill: Refill, l: Level, stamps: seq<real>, i: nat, j: nat)
    requires Additive(refill) && Monotone(l.lastRefill, stamps) && i <= j < |stamps|
    ensures Available(capacity, refill, l, stamps, j)
         <= Allowance(capacity, refill, stamps, Verdicts(capacity, refill, l, stamps), i, j)
  {
    var vs := Verdicts(capacity, refill, l, stamps);
    if i == j {
      AllowanceSelf(capacity, refill, stamps, vs, j);
    } else {
      AvailableBelowAllowance(capacity, refill, l, stamps, i, j - 1);
      AvailableStep(capacity, refill, l, stamps, j - 1);
      AllowanceStep(capacity, refill, stamps, vs, i, j - 1);
    }
  }

  /** For a bucket that started full, some window attains the bound. */
  lemma {:induction false} AvailableIsAllowance(capacity: real, refill: Refill, l: Level, stamps: seq<real>, j: nat)
    returns (i: nat)
    requires Additive(refill) && l.tokens == capacity && Monotone(l.lastRefill, stamps) && j < |stamps|
    ensures i <= j
    ensures Available(capacity, refill, l, stamps, j)
         == Allowance(capacity, refill, stamps, Verdicts(capacity, refill, l, stamps), i, j)
  {
    var vs := Verdicts(capacity, refill, l, stamps);
    i := j;
    AllowanceSelf(capacity, refill, stamps, vs, j);
    if j == 0 {
      assert stamps[..0] == [];
      AdditiveAt(refill, Elapsed(stamps[0], l.lastRefill), 0.0);
    } else {
      AvailableStep(capacity, refill, l, stamps, j - 1);
      if Available(capacity, refill, l, stamps, j) != capacity {
        i := AvailableIsAllowance(capacity, refill, l, stamps, j - 1);
        AllowanceStep(capacity, refill, stamps, vs, i, j - 1);
      }
    }
  }

  lemma {:induction false} AfterNonNegative(capacity: real, refill: Refill, l: Level, stamps: seq<real>)
    requires Additive(refill) && 0.0 <= l.tokens <= capacity
    ensures 0.0 <= After(capacity, refill, l, stamps).tokens <= capacity
  {
    if stamps == [] {
    } else {
      var before := stamps[..|stamps| - 1];
      AfterNonNegative(capacity, refill, l, before);
      AdditiveAt(refill, Elapsed(stamps[|stamps| - 1], After(capacity, refill, l, before).lastRefill), 0.0);
    }
  }

  // ---- the laws ----

  /** Any window of calls, from any state of the bucket, has at most capacity + refill(length) accepted. */
  lemma WindowBound(capacity: real, refill: Refill, l: Level, stamps: seq<real>, i: nat, j: nat)
    requires Additive(refill) && 0.0 <= l.tokens <= capacity
    requires Monotone(l.lastRefill, stamps) && i <= j < |stamps|
    ensures Accepted(Verdicts(capacity, refill, l, stamps)[i..j + 1]) as real
         <= capacity + refill(stamps[j] - stamps[i])
  {
    var vs := Verdicts(capacity, refill, l, stamps);
    AvailableBelowAllowance(capacity, refill, l, stamps, i, j);
    VerdictAt(capacity, refill, l, stamps, j);
    AfterNonNegative(capacity, refill, l, stamps[..j]);
    AdditiveAt(refill, Elapsed(stamps[j], After(capacity, refill, l, stamps[..j]).lastRefill), 0.0);
    assert vs[i..j + 1][..j - i] == vs[i..j];
  }

  lemma WindowBoundOf(capacity: real, per: real, l: Level, stamps: seq<real>, i: nat, j: nat)
    requires per > 0.0 && 0.0 <= l.tokens <= capacity
    requires Monotone(l.lastRefill, stamps) && i <= j < |stamps|
    ensures Accepted(Verdicts(capacity, RefillOf(capacity, per), l, stamps)[i..j + 1]) as real
         <= capacity + RefillOf(capacity, per)(stamps[j] - stamps[i])
  {
    RateAdditive(capacity, per);
    WindowBound(capacity, RefillOf(capacity, per), l, stamps, i, j);
  }

  /** `n` calls in a window of length `dt`: the capacity plus what the window refills. */
  predicate WithinRate(n: nat, capacity: real, per: real, dt: real)
    requires per > 0.0
  {
    n as real <= capacity + dt * (capacity / per)
  }

  lemma RateAt(n: nat, capacity: real, per: real, dt: real)
    requires per > 0.0 && n as real <= capacity + RefillOf(capacity, per)(dt)
    ensures WithinRate(n, capacity, per, dt)
  {
  }

  /** The bucket the limiter uses, whose capacity is refilled once per period. */
  lemma BucketWindowBound(capacity: real, per: real, l: Level, stamps: seq<real>, i: nat, j: nat)
    requires per > 0.0 && 0.0 <= l.tokens <= capacity
    requires Monotone(l.lastRefill, stamps) && i <= j < |stamps|
    ensures WithinRate(Accepted(Verdicts(capacity, RefillOf(capacity, per), l, stamps)[i..j + 1]),
                       capacity, per, stamps[j] - stamps[i])
  {
    WindowBoundOf(capacity, per, l, stamps, i, j);
    RateAt(Accepted(Verdicts(capacity, RefillOf(capacity, per), l, stamps)[i..j + 1]), capacity, per, stamps[j] - stamps[i]);
  }

  /** With a zero period there is no limit, or, without capacity, nothing but refusals. */
  lemma {:induction false} ZeroPeriodVerdicts(capacity: real, l: Level, stamps: seq<real>)
    requires 0.0 <= l.tokens && 0.0 <= capacity
    ensures After(capacity, RefillOf(capacity, 0.0), l, stamps).tokens >= 0.0
    ensures forall j :: 0 <= j < |stamps| ==>
              Verdicts(capacity, RefillOf(capacity, 0.0), l, stamps)[j] == (capacity >= 1.0)
  {
    if stamps == [] {
    } else {
      ZeroPeriodVerdicts(capacity, l, stamps[..|stamps| - 1]);
    }
  }

  /** A fresh bucket accepts a call exactly when no window ending with it would then hold more than
      the capacity plus what the window's length refills. */
  lemma AcceptedIffEveryWindowAllows(capacity: real, refill: Refill, l: Level, stamps: seq<real>, j: nat)
    requires Additive(refill) && l.tokens == capacity && Monotone(l.lastRefill, stamps) && j < |stamps|
    ensures var vs := Verdicts(capacity, refill, l, stamps);
            vs[j] <==> forall i :: 0 <= i <= j ==> Allowance(capacity, refill, stamps, vs, i, j) >= 1.0
  {
    var vs := Verdicts(capacity, refill, l, stamps);
    VerdictAt(capacity, refill, l, stamps, j);
    forall i | 0 <= i <= j
      ensures Available(capacity, refill, l, stamps, j) <= Allowance(capacity, refill, stamps, vs, i, j)
    {
      AvailableBelowAllowance(capacity, refill, l, stamps, i, j);
    }
    var tight := AvailableIsAllowance(capacity, refill, l, stamps, j);
    assert Allowance(capacity, refill, stamps, vs, tight, j) == Available(capacity, refill, l, stamps, j);
  }

  /** With one call more, the window from `i` to call `j` is within the bucket's rate. */
  predicate OneMoreFits(capacity: real, per: real, stamps: seq<real>, vs: seq<bool>, i: nat, j: nat)
    requires per > 0.0 && i <= j < |stamps| == |vs|
  {
    WithinRate(Accepted(vs[i..j]) + 1, capacity, per, stamps[j] - stamps[i])
  }

  lemma OneMoreFitsIff(capacity: real, per: real, stamps: seq<real>, vs: seq<bool>, i: nat, j: nat)
    requires per > 0.0 && i <= j < |stamps| == |vs|
    ensures Allowance(capacity, RefillOf(capacity, per), stamps, vs, i, j) >= 1.0 <==> OneMoreFits(capacity, per, stamps, vs, i, j)
  {
  }

  lemma FullBucketAccepts(capacity: real, per: real, l: Level, stamps: seq<real>, j: nat)
    requires per > 0.0 && 0.0 <= l.tokens == capacity && Monotone(l.lastRefill, stamps) && j < |stamps|
    ensures var vs := Verdicts(capacity, RefillOf(capacity, per), l, stamps);
            vs[j] <==> forall i :: 0 <= i <= j ==> Allowance(capacity, RefillOf(capacity, per), stamps, vs, i, j) >= 1.0
  {
    RateAdditive(capacity, per);
    AcceptedIffEveryWindowAllows(capacity, RefillOf(capacity, per), l, stamps, j);
  }

  /** The same for the bucket itself: a full one accepts call `j` exactly when, in every window of calls
      ending there, the calls accepted and this one are within its rate. */
  lemma BucketAcceptsIff(capacity: real, per: real, l: Level, stamps: seq<real>, j: nat)
    requires per > 0.0 && 0.0 <= l.tokens == capacity && Monotone(l.lastRefill, stamps) && j < |stamps|
    ensures var vs := Verdicts(capacity, RefillOf(capacity, per), l, stamps);
            vs[j] <==> forall i :: 0 <= i <= j ==> OneMoreFits(capacity, per, stamps, vs, i, j)
  {
    var vs := Verdicts(capacity, RefillOf(capacity, per), l, stamps);
    FullBucketAccepts(capacity, per, l, stamps, j);
    forall i | 0 <= i <= j
      ensures Allowance(capacity, RefillOf(capacity, per), stamps, vs, i, j) >= 1.0 <==> OneMoreFits(capacity, per, stamps, vs, i, j)
    {
      OneMoreFitsIff(capacity, per, stamps, vs, i, j);
    }
  }

  /** A clock that runs backwards brings no tokens, and what it skipped is counted again later. */
  lemma BackwardClock(capacity: real, per: real, l: Level, now: real)
    requires per > 0.0 && l.tokens <= capacity && now <= l.lastRefill
    ensures var (ok, after) := Consume(capacity, RefillOf(capacity, per), l, now);
            (ok <==> l.tokens >= 1.0) && after == Level(if ok then l.tokens - 1.0 else l.tokens, now)
  {
    assert 0.0 * (capacity / per) == 0.0;
  }

  /** Two refills in a row add up to one. */
  lemma RefillsCompose(capacity: real, refill: Refill, l: Level, t: real, u: real)
    requires Additive(refill) && l.lastRefill <= t <= u
    ensures Refilled(capacity, refill, Level(Refilled(capacity, refill, l, t), t), u) == Refilled(capacity, refill, l, u)
  {
    AdditiveAt(refill, t - l.lastRefill, u - t);
    assert (t - l.lastRefill) + (u - t) == u - l.lastRefill;
  }

  function Skip<T>(s: seq<T>, k: nat): (r: seq<T>)
    requires k < |s|
    ensures |r| == |s| - 1
  {
    s[..k] + s[k + 1..]
  }

  lemma SkipSnoc<T>(s: seq<T>, k: nat)
    requires k < |s| - 1
    ensures var n := |s| - 1;
            && Skip(s, k)[..n - 1] == Skip(s[..n], k)
            && Skip(s, k)[n - 1] == s[n]
            && Skip(s, k) == Skip(s[..n], k) + [s[n]]
  {
  }

  /** The bucket after a rejected call and one more, with and without the rejected call. */
  lemma RejectedThenNext(capacity: real, refill: Refill, l: Level, pre: seq<real>, t: real, next: real)
    requires Additive(refill) && After(capacity, refill, l, pre).lastRefill <= t <= next
    requires !Consume(capacity, refill, After(capacity, refill, l, pre), t).0
    ensures Consume(capacity, refill, After(capacity, refill, l, pre), next)
         == Consume(capacity, refill, Consume(capacity, refill, After(capacity, refill, l, pre), t).1, next)
  {
    RefillsCompose(capacity, refill, After(capacity, refill, l, pre), t, next);
  }

  /** Past the next call, a run does not remember whether the rejected call was made. */
  lemma {:induction false} SkipAfter(capacity: real, refill: Refill, l: Level, stamps: seq<real>, k: nat)
    requires Additive(refill) && k < |stamps| - 1
    requires After(capacity, refill, l, stamps[..k]).lastRefill <= stamps[k] <= stamps[k + 1]
    requires !Consume(capacity, refill, After(capacity, refill, l, stamps[..k]), stamps[k]).0
    ensures After(capacity, refill, l, Skip(stamps, k)) == After(capacity, refill, l, stamps)
    ensures var n := |stamps| - 1;
            Consume(capacity, refill, After(capacity, refill, l, Skip(stamps[..n], k)), stamps[n])
            == Consume(capacity, refill, After(capacity, refill, l, stamps[..n]), stamps[n])
  {
    var n := |stamps| - 1;
    SkipSnoc(stamps, k);
    if k == n - 1 {
      assert Skip(stamps[..n], k) == stamps[..k];
      AfterStep(capacity, refill, l, stamps, k);
      RejectedThenNext(capacity, refill, l, stamps[..k], stamps[k], stamps[n]);
    } else {
      assert stamps[..n][..k] == stamps[..k];
      SkipAfter(capacity, refill, l, stamps[..n], k);
    }
  }

  lemma VerdictsLast(capacity: real, refill: Refill, l: Level, stamps: seq<real>)
    requires stamps != []
    ensures var n := |stamps| - 1;
            Verdicts(capacity, refill, l, stamps)
            == Verdicts(capacity, refill, l, stamps[..n]) + [Consume(capacity, refill, After(capacity, refill, l, stamps[..n]), stamps[n]).0]
  {
  }

  lemma {:induction false} SkipVerdicts(capacity: real, refill: Refill, l: Level, stamps: seq<real>, k: nat)
    requires Additive(refill) && k < |stamps|
    requires k < |stamps| - 1 ==> After(capacity, refill, l, stamps[..k]).lastRefill <= stamps[k] <= stamps[k + 1]
    requires !Consume(capacity, refill, After(capacity, refill, l, stamps[..k]), stamps[k]).0
    ensures Verdicts(capacity, refill, l, Skip(stamps, k)) == Skip(Verdicts(capacity, refill, l, stamps), k)
  {
    var n := |stamps| - 1;
    var vs := Verdicts(capacity, refill, l, stamps);
    VerdictsLast(capacity, refill, l, stamps);
    if k == n {
      assert Skip(stamps, k) == stamps[..n] && Skip(vs, k) == vs[..n];
    } else {
      var before := Skip(stamps[..n], k);
      assert stamps[..n][..k] == stamps[..k];
      SkipVerdicts(capacity, refill, l, stamps[..n], k);
      SkipAfter(capacity, refill, l, stamps, k);
      SkipSnoc(stamps, k);
      SkipSnoc(vs, k);
      assert vs[..n] == Verdicts(capacity, refill, l, stamps[..n]);
      assert Skip(stamps, k)[..n - 1] == before;
      VerdictsLast(capacity, refill, l, Skip(stamps, k));
    }
  }

  /** A rejected call leaves no trace: without it every other verdict is the same. */
  lemma RejectedCallIsInvisible(capacity: real, refill: Refill, l: Level, stamps: seq<real>, k: nat)
    requires Additive(refill) && Monotone(l.lastRefill, stamps) && k < |stamps|
    requires !Verdicts(capacity, refill, l, stamps)[k]
    ensures Verdicts(capacity, refill, l, Skip(stamps, k)) == Skip(Verdicts(capacity, refill, l, stamps), k)
  {
    VerdictAt(capacity, refill, l, stamps, k);
    LastRefillOf(capacity, refill, l, stamps[..k]);
    SkipVerdicts(capacity, refill, l, stamps, k);
  }
}
