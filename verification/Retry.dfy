/**
 The retry loops. An operation is a function from the number of calls made so far to an outcome
 and the number of calls made when it returns, so that one retry loop can wrap another.
 */
module Retry {
  import opened Base

  type Operation<T, E> = nat -> (Result<T, E>, nat)

  /** The attempts from `attempt` on, the first of them starting after `at` calls. */
  function Attempts<T, E>(op: Operation<T, E>, retryable: E -> bool, maxRetries: nat, attempt: nat, at: nat)
    : (Result<T, E>, nat)
    requires attempt <= maxRetries
    decreases maxRetries - attempt
  {
    var (r, next) := op(at);
    if r.Err? && attempt < maxRetries && retryable(r.error) then
      Attempts(op, retryable, maxRetries, attempt + 1, next)
    else
      (r, next)
  }

  /** The attempts that are followed by a retry, and so by a wait. */
  function Waits<T, E>(op: Operation<T, E>, retryable: E -> bool, maxRetries: nat, attempt: nat, at: nat): seq<nat>
    requires attempt <= maxRetries
    decreases maxRetries - attempt
  {
    var (r, next) := op(at);
    if r.Err? && attempt < maxRetries && retryable(r.error) then
      [attempt] + Waits(op, retryable, maxRetries, attempt + 1, next)
    else
      []
  }

  /** One call of `f` per attempt. */
  function Once<T, E>(f: nat -> Result<T, E>): Operation<T, E> {
    (n: nat) => (f(n), n + 1)
  }

  /** The loop of `with_retry` and `with_retry_mapped`; `waits` lists the attempt numbers whose
      backoff delay was slept through. */
  method WithRetry<T, E>(op: Operation<T, E>, retryable: E -> bool, maxRetries: nat, at: nat)
    returns (r: Result<T, E>, next: nat, waits: seq<nat>)
    ensures (r, next) == Attempts(op, retryable, maxRetries, 0, at)
    ensures waits == Waits(op, retryable, maxRetries, 0, at)
  {
    waits := [];
    next := at;
    var attempt := 0;
    while true
      invariant attempt <= maxRetries
      invariant Attempts(op, retryable, maxRetries, attempt, next) == Attempts(op, retryable, maxRetries, 0, at)
      invariant waits + Waits(op, retryable, maxRetries, attempt, next) == Waits(op, retryable, maxRetries, 0, at)
      decreases maxRetries - attempt
    {
      var (outcome, after) := op(next);
      if outcome.Ok? {
        return outcome, after, waits;
      }
      if attempt < maxRetries && retryable(outcome.error) {
        Associate(waits, [attempt], Waits(op, retryable, maxRetries, attempt + 1, after));
        waits := waits + [attempt];
        next := after;
        attempt := attempt + 1;
      } else {
        return outcome, after, waits;
      }
    }
  }

  /** The loop waits once between any two calls, for attempts 0, 1, 2 and so on. */
  lemma {:induction false} OneWaitPerRetry<T, E>(f: nat -> Result<T, E>, retryable: E -> bool,
                                                 maxRetries: nat, attempt: nat, at: nat)
    requires attempt <= maxRetries
    ensures var (_, next) := Attempts(Once(f), retryable, maxRetries, attempt, at);
            var waits := Waits(Once(f), retryable, maxRetries, attempt, at);
            && |waits| == next - at - 1
            && forall i :: 0 <= i < |waits| ==> waits[i] == attempt + i
    decreases maxRetries - attempt
  {
    var (r, next) := Once(f)(at);
    if r.Err? && attempt < maxRetries && retryable(r.error) {
      OneWaitPerRetry(f, retryable, maxRetries, attempt + 1, next);
    }
  }

  /** What the loop returns: the outcome of the first call that succeeds or fails permanently, or
      else of the last call allowed. */
  lemma {:induction false} FirstDecisiveOutcome<T, E>(f: nat -> Result<T, E>, retryable: E -> bool,
                                                      maxRetries: nat, attempt: nat, at: nat)
    requires attempt <= maxRetries
    ensures var (r, next) := Attempts(Once(f), retryable, maxRetries, attempt, at);
            && at < next <= at + maxRetries - attempt + 1
            && r == f(next - 1)
            && (forall n: nat :: at <= n < next - 1 ==> f(n).Err? && retryable(f(n).error))
            && (r.Ok? || !retryable(r.error) || next == at + maxRetries - attempt + 1)
    decreases maxRetries - attempt
  {
    var (r, next) := Once(f)(at);
    if r.Err? && attempt < maxRetries && retryable(r.error) {
      FirstDecisiveOutcome(f, retryable, maxRetries, attempt + 1, next);
    }
  }

  ghost predicate CallsAtMost<T, E>(op: Operation<T, E>, c: nat) {
    forall n: nat :: n < op(n).1 <= n + c
  }

  /** Retrying an operation that costs at most `c` calls costs at most `maxRetries + 1` times that. */
  lemma {:induction false} RetryBound<T, E>(op: Operation<T, E>, retryable: E -> bool,
                                            maxRetries: nat, attempt: nat, at: nat, c: nat)
    requires attempt <= maxRetries && CallsAtMost(op, c)
    ensures at < Attempts(op, retryable, maxRetries, attempt, at).1 <= at + (maxRetries - attempt + 1) * c
    decreases maxRetries - attempt
  {
    var (r, next) := op(at);
    assert at < next <= at + c;
    OneMore(maxRetries - attempt, c);
    if r.Err? && attempt < maxRetries && retryable(r.error) {
      RetryBound(op, retryable, maxRetries, attempt + 1, next, c);
    }
  }

  lemma OneMore(k: nat, c: nat)
    ensures (k + 1) * c == k * c + c && k * c >= 0
  {
  }

  // ---- RetryableChannel.recv ----

  datatype Action = Recv | Sleep(attempt: nat) | Connect

  /** The actions of `recv` when it calls the inner channel's recv `n` times. */
  function ReconnectActions(n: nat): seq<Action>
    requires n > 0
  {
    if n == 1 then [Recv] else ReconnectActions(n - 1) + [Sleep(n - 2), Connect, Recv]
  }

  function Count(acts: seq<Action>, a: Action): nat {
    if acts == [] then 0 else (if acts[0] == a then 1 else 0) + Count(acts[1..], a)
  }

  lemma {:induction false} CountAppend(x: seq<Action>, y: seq<Action>, a: Action)
    ensures Count(x + y, a) == Count(x, a) + Count(y, a)
  {
    if x == [] {
      assert x + y == y;
    } else {
      CountAppend(x[1..], y, a);
      assert (x + y)[1..] == x[1..] + y;
    }
  }

  /** `recv` reconnects once less often than it receives, and never after its last receive. */
  lemma {:induction false} OneConnectFewer(n: nat)
    requires n > 0
    ensures Count(ReconnectActions(n), Recv) == n
    ensures Count(ReconnectActions(n), Connect) == n - 1
    ensures ReconnectActions(n)[|ReconnectActions(n)| - 1] == Recv
  {
    assert [Recv][1..] == [];
    if n > 1 {
      OneConnectFewer(n - 1);
      var step := [Sleep(n - 2), Connect, Recv];
      assert step[1..] == [Connect, Recv] && [Connect, Recv][1..] == [Recv];
      assert Count([Connect, Recv], Recv) == 1 && Count([Connect, Recv], Connect) == 1;
      CountAppend(ReconnectActions(n - 1), step, Recv);
      CountAppend(ReconnectActions(n - 1), step, Connect);
    }
  }

  /** The k-th retry sleeps for attempt k and then connects, between two receives. */
  lemma {:induction false} ActionAt(n: nat, k: nat)
    requires k < n
    ensures var acts := ReconnectActions(n);
            && |acts| == 3 * n - 2 && acts[3 * k] == Recv
            && (k + 1 < n ==> acts[3 * k + 1] == Sleep(k) && acts[3 * k + 2] == Connect)
  {
    if n == 1 {
    } else if k < n - 1 {
      ActionAt(n - 1, k);
    } else {
      ActionAt(n - 1, k - 1);
    }
  }

  method RecvWithReconnect<T, E>(recv: nat -> Result<T, E>, retryable: E -> bool, maxRetries: nat, at: nat)
    returns (r: Result<T, E>, next: nat, acts: seq<Action>)
    ensures (r, next) == Attempts(Once(recv), retryable, maxRetries, 0, at)
    ensures next > at && acts == ReconnectActions(next - at)
  {
    acts := [];
    next := at;
    var attempt := 0;
    while true
      invariant attempt <= maxRetries && next == at + attempt
      invariant acts == if attempt == 0 then [] else ReconnectActions(attempt) + [Sleep(attempt - 1), Connect]
      invariant Attempts(Once(recv), retryable, maxRetries, attempt, next)
             == Attempts(Once(recv), retryable, maxRetries, 0, at)
      decreases maxRetries - attempt
    {
      var outcome := recv(next);
      next := next + 1;
      acts := acts + [Recv];
      if outcome.Ok? || !retryable(outcome.error) || attempt == maxRetries {
        return outcome, next, acts;
      }
      acts := acts + [Sleep(attempt), Connect];
      attempt := attempt + 1;
    }
  }
}
