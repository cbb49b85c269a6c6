/**
 The time-to-live cache that drops repeated ids. The repository writes it twice, for HTTP requests
 and for routed messages; both are proved against `Check`. Stamps are integers (nanoseconds).
 */
module Dedup {
  import opened Base

  type Cache = map<string, int>

  /** Time since `t`, zero if `t` lies ahead. */
  function Since(now: int, t: int): nat {
    if now >= t then now - t else 0
  }

  /** The entries a sweep at `now` keeps. */
  function Sweep(c: Cache, ttl: nat, now: int): Cache {
    map id | id in c && Since(now, c[id]) < ttl :: c[id]
  }

  /** One call: whether the id is new, and the cache afterwards. A call may sweep first. */
  function Check(c: Cache, ttl: nat, id: string, now: int, sweep: bool): (bool, Cache) {
    var c' := if sweep then Sweep(c, ttl, now) else c;
    if id in c' && Since(now, c'[id]) < ttl then (false, c') else (true, c'[id := now])
  }

  const COUNTER_RANGE: nat := 0x1_0000_0000_0000_0000

  class RequestDeduplicator {
    var seen: Cache
    var callCount: nat
    const ttl: nat
    const gcInterval: nat

    constructor (ttl: nat, gcInterval: nat)
      ensures this.ttl == ttl && this.gcInterval == gcInterval && seen == map[] && callCount == 0
    {
      this.ttl := ttl;
      this.gcInterval := gcInterval;
      seen, callCount := map[], 0;
    }

    /** True for a new request. Every `gcInterval` calls the cache is swept. */
    method CheckAndInsert(id: string, now: int) returns (isNew: bool)
      requires gcInterval > 0
      modifies this`seen, this`callCount
      ensures (isNew, seen) == Check(old(seen), ttl, id, now, old(callCount) % gcInterval == 0)
      ensures callCount == (old(callCount) + 1) % COUNTER_RANGE
    {
      var prev := callCount;
      callCount := (callCount + 1) % COUNTER_RANGE;
      if prev % gcInterval == 0 {
        seen := Sweep(seen, ttl, now);
      }
      if id in seen && Since(now, seen[id]) < ttl {
        return false;
      }
      seen := seen[id := now];
      return true;
    }
  }

  // ---- whole runs ----

  datatype Call = Call(id: string, now: int, sweep: bool)

  function Run(ttl: nat, calls: seq<Call>): (r: (seq<bool>, Cache))
    ensures |r.0| == |calls|
  {
    if calls == [] then ([], map[])
    else
      var n := |calls| - 1;
      var (vs, c) := Run(ttl, calls[..n]);
      var (v, c') := Check(c, ttl, calls[n].id, calls[n].now, calls[n].sweep);
      (vs + [v], c')
  }

  /** The stamp of the last accepted call with this id. */
  function LastAccepted(calls: seq<Call>, vs: seq<bool>, id: string): Option<int>
    requires |calls| == |vs|
  {
    if calls == [] then None
    else
      var n := |calls| - 1;
      if vs[n] && calls[n].id == id then Some(calls[n].now) else LastAccepted(calls[..n], vs[..n], id)
  }

  /** The specification, without a cache: an id is new unless it was accepted less than `ttl` ago. */
  function Ideal(ttl: nat, calls: seq<Call>): (vs: seq<bool>)
    ensures |vs| == |calls|
  {
    if calls == [] then []
    else
      var n := |calls| - 1;
      var vs := Ideal(ttl, calls[..n]);
      var last := LastAccepted(calls[..n], vs, calls[n].id);
      vs + [!(last.Some? && Since(calls[n].now, last.value) < ttl)]
  }

  ghost predicate Monotone(calls: seq<Call>) {
    forall i, j :: 0 <= i < j < |calls| ==> calls[i].now <= calls[j].now
  }

  /** The cache agrees with the accepted calls, except that entries expired by the last call may be
      missing. */
  ghost predicate Agrees(ttl: nat, calls: seq<Call>, c: Cache, id: string) {
    var last := LastAccepted(calls, Ideal(ttl, calls), id);
    && (last.Some? ==> calls != [] && last.value <= calls[|calls| - 1].now)
    && if id in c then last == Some(c[id])
    else last.Some? ==> calls != [] && calls[|calls| - 1].now - last.value >= ttl
  }

  lemma CheckAgrees(ttl: nat, calls: seq<Call>, c: Cache, id: string)
    requires calls != []
    requires var n := |calls| - 1;
             && (n > 0 ==> calls[n - 1].now <= calls[n].now)
             && Agrees(ttl, calls[..n], c, id) && Agrees(ttl, calls[..n], c, calls[n].id)
    ensures var k := calls[|calls| - 1];
            var (v, c') := Check(c, ttl, k.id, k.now, k.sweep);
            v == Ideal(ttl, calls)[|calls| - 1] && Agrees(ttl, calls, c', id)
  {
    var n := |calls| - 1;
    assert Ideal(ttl, calls)[..n] == Ideal(ttl, calls[..n]);
  }

  lemma {:induction false} RunAgrees(ttl: nat, calls: seq<Call>)
    requires Monotone(calls)
    ensures Run(ttl, calls).0 == Ideal(ttl, calls)
    ensures forall id :: Agrees(ttl, calls, Run(ttl, calls).1, id)
  {
    if calls == [] {
    } else {
      var n := |calls| - 1;
      RunAgrees(ttl, calls[..n]);
      forall id
        ensures Agrees(ttl, calls, Run(ttl, calls).1, id)
      {
        CheckAgrees(ttl, calls, Run(ttl, calls[..n]).1, id);
      }
      CheckAgrees(ttl, calls, Run(ttl, calls[..n]).1, calls[n].id);
    }
  }

  /** The same calls under another sweeping schedule. */
  ghost predicate SameCalls(a: seq<Call>, b: seq<Call>) {
    |a| == |b| && forall i :: 0 <= i < |a| ==> a[i].id == b[i].id && a[i].now == b[i].now
  }

  lemma {:induction false} LastAcceptedIgnoresSweeps(a: seq<Call>, b: seq<Call>, vs: seq<bool>, id: string)
    requires SameCalls(a, b) && |vs| == |a|
    ensures LastAccepted(a, vs, id) == LastAccepted(b, vs, id)
  {
    if a == [] {
    } else {
      LastAcceptedIgnoresSweeps(a[..|a| - 1], b[..|b| - 1], vs[..|a| - 1], id);
    }
  }

  lemma {:induction false} IdealIgnoresSweeps(ttl: nat, a: seq<Call>, b: seq<Call>)
    requires SameCalls(a, b)
    ensures Ideal(ttl, a) == Ideal(ttl, b)
  {
    if a == [] {
    } else {
      var n := |a| - 1;
      IdealIgnoresSweeps(ttl, a[..n], b[..n]);
      LastAcceptedIgnoresSweeps(a[..n], b[..n], Ideal(ttl, a[..n]), a[n].id);
    }
  }

  /** With a clock that does not run backwards, sweeping is invisible: whatever the schedule, the
      verdicts are those of the cache-free specification. */
  lemma SweepingIsInvisible(ttl: nat, a: seq<Call>, b: seq<Call>)
    requires Monotone(a) && SameCalls(a, b)
    ensures Run(ttl, a).0 == Run(ttl, b).0 == Ideal(ttl, a)
  {
    RunAgrees(ttl, a);
    assert Monotone(b) by {
      forall i, j | 0 <= i < j < |b|
        ensures b[i].now <= b[j].now
      {
        assert a[i].now <= a[j].now;
      }
    }
    RunAgrees(ttl, b);
    IdealIgnoresSweeps(ttl, a, b);
  }

  // ---- stamps taken before the lock ----

  /** No stamp lags an earlier one by more than `d`. */
  ghost predicate Lagging(calls: seq<Call>, d: nat) {
    forall i, j :: 0 <= i < j < |calls| ==> calls[i].now - d <= calls[j].now
  }

  /** An acceptance at `t` is still in the cache, or a later call was `ttl` past it. */
  ghost predicate Remembered(ttl: nat, calls: seq<Call>, c: Cache, id: string, t: int) {
    || (id in c && c[id] == t)
    || exists k :: 0 <= k < |calls| && calls[k].now >= t + ttl
  }

  lemma {:induction false} AcceptedIsRemembered(ttl: nat, calls: seq<Call>, i: nat)
    requires i < |calls| && Run(ttl, calls).0[i]
    ensures Remembered(ttl, calls, Run(ttl, calls).1, calls[i].id, calls[i].now)
  {
    var n := |calls| - 1;
    if i < n {
      var before := calls[..n];
      AcceptedIsRemembered(ttl, before, i);
      var id, t := calls[i].id, calls[i].now;
      if k :| 0 <= k < n && before[k].now >= t + ttl {
        assert calls[k].now >= t + ttl;
      } else {
        // the entry stays, or it is at least ttl old at this call
        assert calls[if ttl == 0 then i else n].now >= t + ttl || Run(ttl, calls).1[id] == t;
      }
    }
  }

  /** If no stamp lags by more than `d`, two acceptances of one id are at least `ttl - d` apart,
      whenever the sweeps happen. */
  lemma AcceptancesAreApart(ttl: nat, calls: seq<Call>, d: nat, i: nat, j: nat)
    requires Lagging(calls, d) && i < j < |calls| && calls[i].id == calls[j].id
    requires Run(ttl, calls).0[i] && Run(ttl, calls).0[j]
    ensures calls[j].now - calls[i].now >= ttl - d
  {
    RunPrefix(ttl, calls, j);
    RunPrefix(ttl, calls, j + 1);
    var before := calls[..j];
    assert calls[..j + 1][..j] == before;
    AcceptedIsRemembered(ttl, before, i);
    var t := calls[i].now;
    if k :| 0 <= k < j && before[k].now >= t + ttl {
      assert calls[k].now - d <= calls[j].now;
    }
  }

  lemma {:induction false} RunPrefix(ttl: nat, calls: seq<Call>, n: nat)
    requires n <= |calls|
    ensures Run(ttl, calls[..n]).0 == Run(ttl, calls).0[..n]
  {
    if n == |calls| {
      assert calls[..n] == calls;
    } else {
      RunPrefix(ttl, calls[..|calls| - 1], n);
      assert calls[..|calls| - 1][..n] == calls[..n];
    }
  }

  /** The bound is attained for every lag, and only because of a sweep: with a lag, sweeping is visible. */
  lemma LagMakesSweepingVisible(ttl: nat, d: nat)
    requires 0 < d && 0 < ttl
    ensures var a := [Call("a", 0, false), Call("b", ttl, true), Call("a", ttl - d, false)];
            var b := [Call("a", 0, false), Call("b", ttl, false), Call("a", ttl - d, false)];
            && Lagging(a, d) && SameCalls(a, b)
            && Run(ttl, a).0 == [true, true, true]
            && Run(ttl, b).0 == [true, true, false]
  {
    var a0, a1, a2 := Call("a", 0, false), Call("b", ttl, true), Call("a", ttl - d, false);
    var b1 := Call("b", ttl, false);
    assert [a0][..0] == [] && [a0, a1][..1] == [a0] && [a0, a1, a2][..2] == [a0, a1];
    assert [a0, b1][..1] == [a0] && [a0, b1, a2][..2] == [a0, b1];
    assert Check(map[], ttl, "a", 0, false) == (true, map["a" := 0]);
    assert Run(ttl, [a0]) == ([] + [true], map["a" := 0]);
    assert Run(ttl, [a0, a1]).1 == map["b" := ttl];
    assert Run(ttl, [a0, b1]).1 == map["a" := 0, "b" := ttl];
  }

  /** Without a time to live every call is new. */
  lemma {:induction false} NoTtlAcceptsAll(calls: seq<Call>)
    ensures forall i :: 0 <= i < |calls| ==> Run(0, calls).0[i]
  {
    if calls == [] {
    } else {
      NoTtlAcceptsAll(calls[..|calls| - 1]);
    }
  }

  /** Sweeping is invisible to all calls whose stamps lag by at most `d` exactly when they do not lag at
      all, or nothing is ever remembered. */
  lemma SweepingInvisibleIff(ttl: nat, d: nat)
    ensures (forall a, b :: Lagging(a, d) && SameCalls(a, b) ==> Run(ttl, a).0 == Run(ttl, b).0) <==> d == 0 || ttl == 0
  {
    if d == 0 || ttl == 0 {
      forall a, b | Lagging(a, d) && SameCalls(a, b)
        ensures Run(ttl, a).0 == Run(ttl, b).0
      {
        if ttl == 0 {
          NoTtlAcceptsAll(a);
          NoTtlAcceptsAll(b);
        } else {
          SweepingIsInvisible(ttl, a, b);
        }
      }
    } else {
      LagMakesSweepingVisible(ttl, d);
      var a := [Call("a", 0, false), Call("b", ttl, true), Call("a", ttl - d, false)];
      var b := [Call("a", 0, false), Call("b", ttl, false), Call("a", ttl - d, false)];
      assert Lagging(a, d) && SameCalls(a, b);
      assert Run(ttl, a).0[2] != Run(ttl, b).0[2];
    }
  }
}
