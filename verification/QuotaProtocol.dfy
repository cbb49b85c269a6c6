/**
 Many tasks using one SecureMemoryStore at once, step by step. A store takes the quota lock, reads
 the usage, and writes or gives up; deletes and clears take no lock. The wrapper is in safe mode.
 */
module QuotaProtocol {
  import opened Base
  import Chat
  import opened SecureMemory

  type Task = nat

  /** Where a task is. `rest` holds the later items of a batch, which a failure drops. */
  datatype Phase =
    | Resting
    | Waiting(item: Item, estimate: nat, rest: seq<Item>)
    | Holding(item: Item, estimate: nat, rest: seq<Item>)
    | Informed(item: Item, estimate: nat, rest: seq<Item>, current: nat)

  datatype System = System(inner: Inner, lock: Option<Task>, phases: map<Task, Phase>)

  datatype Action =
    | Begin(task: Task, items: seq<Item>)
    | Acquire(task: Task)
    | ReadUsage(task: Task)
    | Reject(task: Task)
    | Write(task: Task)
    | InnerFailure(task: Task)
    | Delete(id: string)
    | Clear(namespace: string)

  function PhaseOf(s: System, t: Task): Phase {
    if t in s.phases then s.phases[t] else Resting
  }

  /** The phase that stores the first of the given items; the estimate is taken from the item as
      submitted, before its namespace is rewritten. */
  function Submit(cfg: Config, items: seq<Item>): Phase {
    if items == [] then Resting
    else Waiting(EnforceNamespace(cfg, items[0]), EstimateSize(items[0]), items[1..])
  }

  predicate OverQuota(cfg: Config, p: Phase)
    requires p.Informed?
  {
    SaturatingAdd(p.current, p.estimate) > cfg.quota
  }

  function Release(s: System, t: Task, next: Phase): System {
    s.(lock := None, phases := s.phases[t := next])
  }

  /** One step; an action whose guard does not hold changes nothing. With `mutex` off nobody waits
      for the lock, as in the default `store_with_quota_check`. */
  ghost function Step(cfg: Config, size: Measure, mutex: bool, s: System, a: Action): System {
    match a
    case Begin(t, items) =>
      if PhaseOf(s, t).Resting? then s.(phases := s.phases[t := Submit(cfg, items)]) else s
    case Acquire(t) =>
      (match PhaseOf(s, t)
       case Waiting(item, estimate, rest) =>
         if mutex && s.lock.Some? then s
         else System(s.inner, Some(t), s.phases[t := Holding(item, estimate, rest)])
       case _ => s)
    case ReadUsage(t) =>
      (match PhaseOf(s, t)
       case Holding(item, estimate, rest) =>
         s.(phases := s.phases[t := Informed(item, estimate, rest, Usage(s.inner, size, item.namespace))])
       case _ => s)
    case Reject(t) =>
      var p := PhaseOf(s, t);
      if p.Informed? && OverQuota(cfg, p) then Release(s, t, Resting) else s
    case Write(t) =>
      var p := PhaseOf(s, t);
      if p.Informed? && !OverQuota(cfg, p) then
        Release(s.(inner := s.inner[p.item.id := p.item]), t, Submit(cfg, p.rest))
      else s
    case InnerFailure(t) =>
      var p := PhaseOf(s, t);
      if p.Holding? || p.Informed? then Release(s, t, Resting) else s
    case Delete(id) => s.(inner := s.inner - {id})
    case Clear(ns) =>
      if cfg.isolation && ns != cfg.namespace then s else s.(inner := Cleared(s.inner, ns))
  }

  ghost function Execute(cfg: Config, size: Measure, mutex: bool, inner: Inner, actions: seq<Action>): System {
    if actions == [] then System(inner, None, map[])
    else Step(cfg, size, mutex, Execute(cfg, size, mutex, inner, actions[..|actions| - 1]), actions[|actions| - 1])
  }

  /** The inner store measures the item, as stored, at no more than its estimate plus `excess`, or the
      estimate is so large that no quota admits it. */
  predicate Covered(cfg: Config, size: Measure, excess: nat, item: Item) {
    size(EnforceNamespace(cfg, item)) <= EstimateSize(item) + excess || EstimateSize(item) >= U64_MAX
  }

  ghost predicate Measured(cfg: Config, size: Measure, excess: nat, items: seq<Item>) {
    forall i :: 0 <= i < |items| ==> Covered(cfg, size, excess, items[i])
  }

  /** A task about to store `item`, with `rest` to follow, accounts for what it will write. */
  ghost predicate Accounted(cfg: Config, size: Measure, excess: nat, item: Item, estimate: nat, rest: seq<Item>) {
    && item.namespace == cfg.namespace
    && (size(item) <= estimate + excess || estimate >= U64_MAX)
    && Measured(cfg, size, excess, rest)
  }

  /** What holds of the phase of task `t`. */
  ghost predicate PhaseOk(cfg: Config, size: Measure, excess: nat, s: System, t: Task) {
    match PhaseOf(s, t)
    case Resting => true
    case Waiting(item, estimate, rest) => Accounted(cfg, size, excess, item, estimate, rest)
    case Holding(item, estimate, rest) => s.lock == Some(t) && Accounted(cfg, size, excess, item, estimate, rest)
    case Informed(item, estimate, rest, current) =>
      && s.lock == Some(t) && Accounted(cfg, size, excess, item, estimate, rest)
      && Usage(s.inner, size, cfg.namespace) <= current
  }

  ghost predicate Inv(cfg: Config, size: Measure, excess: nat, s: System) {
    && Usage(s.inner, size, cfg.namespace) <= cfg.quota + excess
    && forall t :: PhaseOk(cfg, size, excess, s, t)
  }

  lemma SubmitOk(cfg: Config, size: Measure, excess: nat, s: System, t: Task, items: seq<Item>)
    requires cfg.isolation && Measured(cfg, size, excess, items)
    requires PhaseOf(s, t) == Submit(cfg, items)
    ensures PhaseOk(cfg, size, excess, s, t)
  {
  }

  /** A step that changes no lock and does not grow the usage leaves other tasks as they were. */
  lemma OthersKeepPhase(cfg: Config, size: Measure, excess: nat, s: System, s': System, t: Task)
    requires PhaseOk(cfg, size, excess, s, t) && PhaseOf(s', t) == PhaseOf(s, t)
    requires s.lock == Some(t) ==> s'.lock == Some(t)
    requires s.lock == Some(t) ==> Usage(s'.inner, size, cfg.namespace) <= Usage(s.inner, size, cfg.namespace)
    ensures PhaseOk(cfg, size, excess, s', t)
  {
  }

  lemma WriteWithinQuota(cfg: Config, size: Measure, excess: nat, s: System, t: Task)
    requires cfg.quota < U64_MAX && PhaseOk(cfg, size, excess, s, t)
    requires PhaseOf(s, t).Informed? && !OverQuota(cfg, PhaseOf(s, t))
    ensures var item := PhaseOf(s, t).item;
            Usage(s.inner[item.id := item], size, cfg.namespace) <= cfg.quota + excess
  {
    UsageAfterWrite(s.inner, size, cfg.namespace, PhaseOf(s, t).item);
  }

  lemma RemovalShrinks(cfg: Config, size: Measure, s: System, a: Action)
    requires a.Delete? || a.Clear?
    ensures var s' := Step(cfg, size, true, s, a);
            Usage(s'.inner, size, cfg.namespace) <= Usage(s.inner, size, cfg.namespace)
  {
    if a.Delete? {
      UsageAfterRemoval(s.inner, {a.id}, size, cfg.namespace);
    } else {
      UsageAfterClear(s.inner, a.namespace, size, cfg.namespace);
    }
  }

  lemma StepKeepsInv(cfg: Config, size: Measure, excess: nat, s: System, a: Action)
    requires cfg.isolation && cfg.quota < U64_MAX && Inv(cfg, size, excess, s)
    requires a.Begin? ==> Measured(cfg, size, excess, a.items)
    ensures Inv(cfg, size, excess, Step(cfg, size, true, s, a))
  {
    var s' := Step(cfg, size, true, s, a);
    if a.Delete? || a.Clear? {
      RemovalShrinks(cfg, size, s, a);
      forall t
        ensures PhaseOk(cfg, size, excess, s', t)
      {
        OthersKeepPhase(cfg, size, excess, s, s', t);
      }
    } else if s' != s {
      var me := a.task;
      assert PhaseOk(cfg, size, excess, s, me);
      if a.Write? {
        WriteWithinQuota(cfg, size, excess, s, me);
      }
      forall t
        ensures PhaseOk(cfg, size, excess, s', t)
      {
        assert PhaseOk(cfg, size, excess, s, t);
        if t != me {
          OthersKeepPhase(cfg, size, excess, s, s', t);
        } else if a.Begin? {
          SubmitOk(cfg, size, excess, s', t, a.items);
        } else if a.Write? {
          SubmitOk(cfg, size, excess, s', t, PhaseOf(s, t).rest);
        }
      }
    }
  }

  ghost predicate AllMeasured(cfg: Config, size: Measure, excess: nat, actions: seq<Action>) {
    forall i :: 0 <= i < |actions| && actions[i].Begin? ==> Measured(cfg, size, excess, actions[i].items)
  }

  lemma {:induction false} InvAlways(cfg: Config, size: Measure, excess: nat, inner: Inner, actions: seq<Action>)
    requires cfg.isolation && cfg.quota < U64_MAX && AllMeasured(cfg, size, excess, actions)
    requires Usage(inner, size, cfg.namespace) <= cfg.quota + excess
    ensures Inv(cfg, size, excess, Execute(cfg, size, true, inner, actions))
  {
    if actions == [] {
    } else {
      var n := |actions| - 1;
      InvAlways(cfg, size, excess, inner, actions[..n]);
      StepKeepsInv(cfg, size, excess, Execute(cfg, size, true, inner, actions[..n]), actions[n]);
    }
  }

  /** In every interleaving of stores, batches, deletes and clears the namespace stays within its
      quota, up to what the inner store measures some item above its estimate; with no such item
      (`excess` zero) the quota itself holds. */
  lemma QuotaHolds(cfg: Config, size: Measure, excess: nat, inner: Inner, actions: seq<Action>)
    requires cfg.isolation && cfg.quota < U64_MAX && AllMeasured(cfg, size, excess, actions)
    requires Usage(inner, size, cfg.namespace) <= cfg.quota
    ensures Usage(Execute(cfg, size, true, inner, actions).inner, size, cfg.namespace) <= cfg.quota + excess
  {
    InvAlways(cfg, size, excess, inner, actions);
  }

  /** Task `t` is past the lock: it has taken it and not given it back. */
  predicate PastLock(s: System, t: Task) {
    PhaseOf(s, t).Holding? || PhaseOf(s, t).Informed?
  }

  lemma {:induction false} HolderIsLock(cfg: Config, size: Measure, inner: Inner, actions: seq<Action>, t: Task)
    ensures var s := Execute(cfg, size, true, inner, actions);
            PastLock(s, t) ==> s.lock == Some(t)
  {
    if actions == [] {
    } else {
      var n := |actions| - 1;
      HolderIsLock(cfg, size, inner, actions[..n], t);
      if !actions[n].Delete? && !actions[n].Clear? {
        HolderIsLock(cfg, size, inner, actions[..n], actions[n].task);
      }
    }
  }

  /** At most one task is past the lock at any time, whatever the configuration, the items and the
      inner store. */
  lemma OneHolder(cfg: Config, size: Measure, inner: Inner, actions: seq<Action>, t: Task, u: Task)
    ensures var s := Execute(cfg, size, true, inner, actions);
            PastLock(s, t) && PastLock(s, u) ==> t == u
  {
    HolderIsLock(cfg, size, inner, actions, t);
    HolderIsLock(cfg, size, inner, actions, u);
  }

  // ---- one task, step by step ----

  lemma ExecuteSnoc(cfg: Config, size: Measure, mutex: bool, inner: Inner, actions: seq<Action>, a: Action)
    ensures Execute(cfg, size, mutex, inner, actions + [a]) == Step(cfg, size, mutex, Execute(cfg, size, mutex, inner, actions), a)
  {
    assert (actions + [a])[..|actions|] == actions;
  }

  /** The phase of a task that has read the usage for one item. */
  ghost function Reading(cfg: Config, size: Measure, inner: Inner, item: Item): Phase {
    Informed(EnforceNamespace(cfg, item), EstimateSize(item), [],
             Usage(inner, size, EnforceNamespace(cfg, item).namespace))
  }

  lemma StepsToReading(cfg: Config, size: Measure, mutex: bool, s: System, t: Task, item: Item)
    requires PhaseOf(s, t).Resting? && (mutex ==> s.lock.None?)
    ensures Step(cfg, size, mutex, Step(cfg, size, mutex, Step(cfg, size, mutex, s, Begin(t, [item])), Acquire(t)), ReadUsage(t))
         == System(s.inner, Some(t), s.phases[t := Reading(cfg, size, s.inner, item)])
  {
    var p := Waiting(EnforceNamespace(cfg, item), EstimateSize(item), []);
    assert Submit(cfg, [item]) == p by {
      assert [item][1..] == [];
    }
    var h := Holding(p.item, p.estimate, []);
    assert s.phases[t := p][t := h] == s.phases[t := h];
    assert s.phases[t := h][t := Reading(cfg, size, s.inner, item)] == s.phases[t := Reading(cfg, size, s.inner, item)];
  }

  /** A task with one item to store goes as far as reading the usage. */
  function ToReading(before: seq<Action>, t: Task, item: Item): seq<Action> {
    before + [Begin(t, [item])] + [Acquire(t)] + [ReadUsage(t)]
  }

  lemma TaskReads(cfg: Config, size: Measure, mutex: bool, inner: Inner, before: seq<Action>, t: Task, item: Item)
    requires var s := Execute(cfg, size, mutex, inner, before);
             PhaseOf(s, t).Resting? && (mutex ==> s.lock.None?)
    ensures var s := Execute(cfg, size, mutex, inner, before);
            Execute(cfg, size, mutex, inner, ToReading(before, t, item))
            == System(s.inner, Some(t), s.phases[t := Reading(cfg, size, s.inner, item)])
  {
    ExecuteSnoc(cfg, size, mutex, inner, before, Begin(t, [item]));
    ExecuteSnoc(cfg, size, mutex, inner, before + [Begin(t, [item])], Acquire(t));
    ExecuteSnoc(cfg, size, mutex, inner, before + [Begin(t, [item])] + [Acquire(t)], ReadUsage(t));
    StepsToReading(cfg, size, mutex, Execute(cfg, size, mutex, inner, before), t, item);
  }

  lemma WriteStep(cfg: Config, size: Measure, mutex: bool, s: System, t: Task, read: Inner, item: Item)
    requires PhaseOf(s, t) == Reading(cfg, size, read, item)
    ensures var s' := Step(cfg, size, mutex, s, Write(t));
            && s'.inner == (if Fits(cfg, size, read, item) then Written(cfg, s.inner, item) else s.inner)
            && forall u :: u != t ==> PhaseOf(s', u) == PhaseOf(s, u)
  {
  }

  // ---- progress ----

  lemma {:induction false} LockIsHeld(cfg: Config, size: Measure, inner: Inner, actions: seq<Action>, t: Task)
    ensures var s := Execute(cfg, size, true, inner, actions);
            s.lock == Some(t) ==> PastLock(s, t)
  {
    if actions == [] {
    } else {
      var n := |actions| - 1;
      LockIsHeld(cfg, size, inner, actions[..n], t);
      HolderIsLock(cfg, size, inner, actions[..n], t);
      if !actions[n].Delete? && !actions[n].Clear? {
        HolderIsLock(cfg, size, inner, actions[..n], actions[n].task);
      }
    }
  }

  /** Whoever holds the lock gives it back within three steps of its own. */
  lemma LockIsReleased(cfg: Config, size: Measure, inner: Inner, actions: seq<Action>, t: Task)
    requires Execute(cfg, size, true, inner, actions).lock == Some(t)
    ensures Execute(cfg, size, true, inner, actions + [ReadUsage(t)] + [Write(t)] + [Reject(t)]).lock == None
  {
    LockIsHeld(cfg, size, inner, actions, t);
    ExecuteSnoc(cfg, size, true, inner, actions, ReadUsage(t));
    ExecuteSnoc(cfg, size, true, inner, actions + [ReadUsage(t)], Write(t));
    ExecuteSnoc(cfg, size, true, inner, actions + [ReadUsage(t)] + [Write(t)], Reject(t));
  }

  /** Deleting takes effect at once, whoever holds the lock. */
  lemma DeletingTakesEffect(cfg: Config, size: Measure, inner: Inner, actions: seq<Action>, id: string)
    ensures Execute(cfg, size, true, inner, actions + [Delete(id)]).inner
         == Execute(cfg, size, true, inner, actions).inner - {id}
  {
    ExecuteSnoc(cfg, size, true, inner, actions, Delete(id));
  }

  /** So does clearing; another namespace is refused under isolation. */
  lemma ClearingTakesEffect(cfg: Config, size: Measure, inner: Inner, actions: seq<Action>, ns: string, id: string)
    ensures var before := Execute(cfg, size, true, inner, actions).inner;
            var after := Execute(cfg, size, true, inner, actions + [Clear(ns)]).inner;
            && (cfg.isolation && ns != cfg.namespace ==> after == before)
            && (!cfg.isolation || ns == cfg.namespace ==>
                  && (id in after <==> id in before && before[id].namespace != ns)
                  && (id in after ==> after[id] == before[id]))
  {
    ExecuteSnoc(cfg, size, true, inner, actions, Clear(ns));
  }

  /** A failure of the inner store gives the lock back, drops the rest of the batch and stores nothing. */
  lemma FailureTakesEffect(cfg: Config, size: Measure, inner: Inner, actions: seq<Action>, t: Task)
    requires PastLock(Execute(cfg, size, true, inner, actions), t)
    ensures var s, s' := Execute(cfg, size, true, inner, actions), Execute(cfg, size, true, inner, actions + [InnerFailure(t)]);
            s'.lock.None? && PhaseOf(s', t).Resting? && s'.inner == s.inner
  {
    ExecuteSnoc(cfg, size, true, inner, actions, InnerFailure(t));
  }

  ghost function StepAll(cfg: Config, size: Measure, s: System, actions: seq<Action>): System
    decreases |actions|
  {
    if actions == [] then s else StepAll(cfg, size, Step(cfg, size, true, s, actions[0]), actions[1..])
  }

  lemma {:induction false} ExecuteMore(cfg: Config, size: Measure, inner: Inner, before: seq<Action>, more: seq<Action>)
    ensures Execute(cfg, size, true, inner, before + more) == StepAll(cfg, size, Execute(cfg, size, true, inner, before), more)
    decreases |more|
  {
    if more == [] {
      assert before + more == before;
    } else {
      ExecuteSnoc(cfg, size, true, inner, before, more[0]);
      ExecuteMore(cfg, size, inner, before + [more[0]], more[1..]);
      assert before + [more[0]] + more[1..] == before + more;
    }
  }

  /** The steps of a task for one item of its batch, whether it fits or not. */
  function ItemSteps(t: Task): seq<Action> {
    [Acquire(t), ReadUsage(t), Write(t), Reject(t)]
  }

  function BatchSteps(t: Task, n: nat): seq<Action> {
    if n == 0 then [] else ItemSteps(t) + BatchSteps(t, n - 1)
  }

  lemma {:induction false} StepAllAppend(cfg: Config, size: Measure, s: System, a: seq<Action>, b: seq<Action>)
    ensures StepAll(cfg, size, s, a + b) == StepAll(cfg, size, StepAll(cfg, size, s, a), b)
    decreases |a|
  {
    if a == [] {
      assert a + b == b;
    } else {
      assert (a + b)[1..] == a[1..] + b;
      StepAllAppend(cfg, size, Step(cfg, size, true, s, a[0]), a[1..], b);
    }
  }

  lemma FourSteps(cfg: Config, size: Measure, s: System, t: Task)
    ensures StepAll(cfg, size, s, ItemSteps(t))
         == Step(cfg, size, true, Step(cfg, size, true, Step(cfg, size, true, Step(cfg, size, true, s, Acquire(t)), ReadUsage(t)),
                                       Write(t)), Reject(t))
  {
    var steps := ItemSteps(t);
    assert steps[1..] == [ReadUsage(t), Write(t), Reject(t)] && steps[1..][1..] == [Write(t), Reject(t)];
    assert steps[1..][1..][1..] == [Reject(t)] && [Reject(t)][1..] == [];
    assert StepAll(cfg, size, Step(cfg, size, true, Step(cfg, size, true, s, Acquire(t)), ReadUsage(t)), [Write(t), Reject(t)])
        == StepAll(cfg, size, Step(cfg, size, true, Step(cfg, size, true, Step(cfg, size, true, s, Acquire(t)), ReadUsage(t)), Write(t)),
                   [Reject(t)]);
  }

  /** One item: stored if it fits, and then the next is submitted; else the rest is dropped. */
  lemma ItemStored(cfg: Config, size: Measure, s: System, t: Task, items: seq<Item>)
    requires items != [] && PhaseOf(s, t) == Submit(cfg, items) && s.lock.None?
    ensures var s' := StepAll(cfg, size, s, ItemSteps(t));
            && s'.lock.None?
            && s'.inner == (if Fits(cfg, size, s.inner, items[0]) then Written(cfg, s.inner, items[0]) else s.inner)
            && PhaseOf(s', t) == if Fits(cfg, size, s.inner, items[0]) then Submit(cfg, items[1..]) else Resting
  {
    FourSteps(cfg, size, s, t);
  }

  lemma {:induction false} RestingStays(cfg: Config, size: Measure, s: System, t: Task, n: nat)
    requires PhaseOf(s, t).Resting?
    ensures StepAll(cfg, size, s, BatchSteps(t, n)) == s
  {
    if n == 0 {
    } else {
      StepAllAppend(cfg, size, s, ItemSteps(t), BatchSteps(t, n - 1));
      FourSteps(cfg, size, s, t);
      RestingStays(cfg, size, s, t, n - 1);
    }
  }

  /** The items of a batch that go in: those before the first that does not fit. */
  ghost function StoredWhileFitting(cfg: Config, size: Measure, inner: Inner, items: seq<Item>): Inner
    decreases |items|
  {
    if items == [] || !Fits(cfg, size, inner, items[0]) then inner
    else StoredWhileFitting(cfg, size, Written(cfg, inner, items[0]), items[1..])
  }

  lemma {:induction false} BatchRun(cfg: Config, size: Measure, s: System, t: Task, items: seq<Item>)
    requires PhaseOf(s, t) == Submit(cfg, items) && s.lock.None?
    ensures var s' := StepAll(cfg, size, s, BatchSteps(t, |items|));
            s'.inner == StoredWhileFitting(cfg, size, s.inner, items) && s'.lock.None? && PhaseOf(s', t).Resting?
    decreases |items|
  {
    if items == [] {
    } else {
      var next := StepAll(cfg, size, s, ItemSteps(t));
      StepAllAppend(cfg, size, s, ItemSteps(t), BatchSteps(t, |items| - 1));
      ItemStored(cfg, size, s, t, items);
      if Fits(cfg, size, s.inner, items[0]) {
        BatchRun(cfg, size, next, t, items[1..]);
      } else {
        RestingStays(cfg, size, next, t, |items| - 1);
      }
    }
  }

  /** A task left to itself stores the items of its batch up to the first that does not fit, and gives
      the lock back. */
  lemma BatchIsStored(cfg: Config, size: Measure, inner: Inner, actions: seq<Action>, t: Task, items: seq<Item>)
    requires var s := Execute(cfg, size, true, inner, actions); PhaseOf(s, t).Resting? && s.lock.None?
    ensures var s := Execute(cfg, size, true, inner, actions);
            var s' := Execute(cfg, size, true, inner, actions + [Begin(t, items)] + BatchSteps(t, |items|));
            s'.inner == StoredWhileFitting(cfg, size, s.inner, items) && s'.lock.None? && PhaseOf(s', t).Resting?
  {
    ExecuteSnoc(cfg, size, true, inner, actions, Begin(t, items));
    ExecuteMore(cfg, size, inner, actions + [Begin(t, items)], BatchSteps(t, |items|));
    BatchRun(cfg, size, Execute(cfg, size, true, inner, actions + [Begin(t, items)]), t, items);
  }

  /** Every item of the list fits in its turn. */
  ghost predicate AllFit(cfg: Config, size: Measure, inner: Inner, items: seq<Item>)
    decreases |items|
  {
    items == [] || (Fits(cfg, size, inner, items[0]) && AllFit(cfg, size, Written(cfg, inner, items[0]), items[1..]))
  }

  lemma {:induction false} StoredSnoc(cfg: Config, size: Measure, inner: Inner, items: seq<Item>)
    requires items != []
    ensures var n := |items| - 1;
            var before := StoredWhileFitting(cfg, size, inner, items[..n]);
            && StoredWhileFitting(cfg, size, inner, items)
               == (if AllFit(cfg, size, inner, items[..n]) && Fits(cfg, size, before, items[n]) then Written(cfg, before, items[n])
                   else before)
            && (AllFit(cfg, size, inner, items) <==> AllFit(cfg, size, inner, items[..n]) && Fits(cfg, size, before, items[n]))
    decreases |items|
  {
    var n := |items| - 1;
    if n == 0 {
      assert items[1..] == [];
    } else {
      assert items[..n][1..] == items[1..][..n - 1] && items[1..][n - 1] == items[n];
      StoredSnoc(cfg, size, Written(cfg, inner, items[0]), items[1..]);
    }
  }

  function NoFaults(n: nat): seq<Fault> {
    seq(n, i => NoFault)
  }

  /** How many items of a batch the wrapper stores when its inner store does not fail. */
  ghost function StoredCleanly(cfg: Config, size: Measure, inner: Inner, items: seq<Item>): (k: nat)
    ensures k <= |items|
  {
    StoredPrefix(cfg, size, inner, items, NoFaults(|items|))
  }

  lemma StoredCleanlySnoc(cfg: Config, size: Measure, inner: Inner, items: seq<Item>)
    requires items != []
    ensures var n := |items| - 1;
            var k := StoredCleanly(cfg, size, inner, items[..n]);
            StoredCleanly(cfg, size, inner, items)
            == if k == n && Fits(cfg, size, WrittenAll(cfg, inner, items[..n]), items[n]) then n + 1 else k
  {
    var n := |items| - 1;
    assert NoFaults(|items|)[..n] == NoFaults(n);
  }

  lemma {:induction false} AllFitIff(cfg: Config, size: Measure, inner: Inner, items: seq<Item>)
    ensures StoredCleanly(cfg, size, inner, items) == |items| <==> AllFit(cfg, size, inner, items)
    ensures AllFit(cfg, size, inner, items) ==> StoredWhileFitting(cfg, size, inner, items) == WrittenAll(cfg, inner, items)
  {
    if items == [] {
    } else {
      AllFitIff(cfg, size, inner, items[..|items| - 1]);
      StoredSnoc(cfg, size, inner, items);
      StoredCleanlySnoc(cfg, size, inner, items);
    }
  }

  /** Which is what the wrapper's own batch stores when its inner store does not fail. */
  lemma {:induction false} StoredWhileFittingIsPrefix(cfg: Config, size: Measure, inner: Inner, items: seq<Item>)
    ensures StoredWhileFitting(cfg, size, inner, items)
         == WrittenAll(cfg, inner, items[..StoredCleanly(cfg, size, inner, items)])
  {
    AllFitIff(cfg, size, inner, items);
    if AllFit(cfg, size, inner, items) {
      assert items[..|items|] == items;
    } else {
      var n := |items| - 1;
      var k := StoredCleanly(cfg, size, inner, items[..n]);
      StoredSnoc(cfg, size, inner, items);
      StoredCleanlySnoc(cfg, size, inner, items);
      StoredWhileFittingIsPrefix(cfg, size, inner, items[..n]);
      AllFitIff(cfg, size, inner, items[..n]);
      assert items[..n][..k] == items[..k];
    }
  }

  // ---- the lock is needed ----

  /** Two tasks, each with an item of its own, that both read the usage before either writes. */
  function Race(a: Item, b: Item): seq<Action> {
    ToReading(ToReading([], 1, a), 2, b) + [Write(1)] + [Write(2)]
  }

  /** What such a race leaves: both admissions were decided on the store as it was before. */
  ghost function RaceInner(cfg: Config, size: Measure, inner: Inner, a: Item, b: Item): Inner {
    var one := if Fits(cfg, size, inner, a) then Written(cfg, inner, a) else inner;
    if Fits(cfg, size, inner, b) then Written(cfg, one, b) else one
  }

  lemma RaceRuns(cfg: Config, size: Measure, inner: Inner, a: Item, b: Item)
    ensures Execute(cfg, size, false, inner, Race(a, b)).inner == RaceInner(cfg, size, inner, a, b)
  {
    var first := ToReading([], 1, a);
    var both := ToReading(first, 2, b);
    TaskReads(cfg, size, false, inner, [], 1, a);
    TaskReads(cfg, size, false, inner, first, 2, b);
    var s := Execute(cfg, size, false, inner, both);
    ExecuteSnoc(cfg, size, false, inner, both, Write(1));
    ExecuteSnoc(cfg, size, false, inner, both + [Write(1)], Write(2));
    WriteStep(cfg, size, false, s, 1, inner, a);
    WriteStep(cfg, size, false, Step(cfg, size, false, s, Write(1)), 2, inner, b);
  }

  /** The race of `a` and `b` exceeds no quota, over any inner store. */
  ghost predicate RaceSafe(ns: string, size: Measure, a: Item, b: Item) {
    forall quota: nat, inner | quota < U64_MAX ::
      var cfg := Config(true, quota, ns);
      Usage(inner, size, ns) <= quota ==> Usage(Execute(cfg, size, false, inner, Race(a, b)).inner, size, ns) <= quota
  }

  /** The stored sizes fit the estimates one by one, and together the larger of the two. */
  predicate RaceCovered(ns: string, size: Measure, a: Item, b: Item) {
    var cfg := Config(true, 0, ns);
    && Covered(cfg, size, 0, a) && Covered(cfg, size, 0, b)
    && (EstimateSize(a) < U64_MAX && EstimateSize(b) < U64_MAX ==>
          size(EnforceNamespace(cfg, a)) + size(EnforceNamespace(cfg, b)) <= Max(EstimateSize(a), EstimateSize(b)))
  }

  lemma AdmittedHasRoom(cfg: Config, size: Measure, inner: Inner, item: Item)
    requires cfg.quota < U64_MAX && Fits(cfg, size, inner, item)
    ensures Usage(inner, size, EnforceNamespace(cfg, item).namespace) + EstimateSize(item) <= cfg.quota
  {
  }

  lemma RaceWithinQuota(cfg: Config, size: Measure, inner: Inner, a: Item, b: Item)
    requires cfg.isolation && cfg.quota < U64_MAX && RaceCovered(cfg.namespace, size, a, b)
    requires Usage(inner, size, cfg.namespace) <= cfg.quota
    ensures Usage(RaceInner(cfg, size, inner, a, b), size, cfg.namespace) <= cfg.quota
  {
    var x, y := EnforceNamespace(cfg, a), EnforceNamespace(cfg, b);
    assert x == EnforceNamespace(Config(true, 0, cfg.namespace), a) && y == EnforceNamespace(Config(true, 0, cfg.namespace), b);
    if Fits(cfg, size, inner, a) {
      AdmittedHasRoom(cfg, size, inner, a);
      UsageAfterWrite(inner, size, cfg.namespace, x);
    }
    if Fits(cfg, size, inner, b) {
      AdmittedHasRoom(cfg, size, inner, b);
      UsageAfterWrite(inner, size, cfg.namespace, y);
      UsageAfterWrite(Written(cfg, inner, a), size, cfg.namespace, y);
    }
  }

  lemma UsageOfTwo(size: Measure, x: Item, y: Item)
    requires x.id != y.id && x.namespace == y.namespace
    ensures Usage(map[][x.id := x][y.id := y], size, x.namespace) == size(x) + size(y)
  {
    var both: Inner := map[][x.id := x][y.id := y];
    UsageWithout(both, size, x.namespace, x.id);
    assert both - {x.id} == map[][y.id := y];
    UsageOfOne(size, y);
  }

  /** The race from an empty store, with a quota that admits the item `a`. */
  lemma RaceFromEmpty(cfg: Config, size: Measure, a: Item, b: Item)
    requires cfg.isolation && cfg.quota < U64_MAX && a.id != b.id
    ensures var after := Usage(RaceInner(cfg, size, map[], a, b), size, cfg.namespace);
            var x, y := size(EnforceNamespace(cfg, a)), size(EnforceNamespace(cfg, b));
            after == (if EstimateSize(a) <= cfg.quota then x else 0) + if EstimateSize(b) <= cfg.quota then y else 0
  {
    var x, y := EnforceNamespace(cfg, a), EnforceNamespace(cfg, b);
    assert Fits(cfg, size, map[], a) <==> EstimateSize(a) <= cfg.quota;
    assert Fits(cfg, size, map[], b) <==> EstimateSize(b) <= cfg.quota;
    UsageOfOne(size, x);
    UsageOfOne(size, y);
    UsageOfTwo(size, x, y);
  }

  /** For any measure and any two items: without the lock the race stays within every quota exactly when
      their stored sizes fit the estimates one by one and, together, the larger of the two. */
  lemma RaceSafeIff(ns: string, size: Measure, a: Item, b: Item)
    requires a.id != b.id
    ensures RaceSafe(ns, size, a, b) <==> RaceCovered(ns, size, a, b)
  {
    if RaceCovered(ns, size, a, b) {
      forall quota: nat, inner | quota < U64_MAX && Usage(inner, size, ns) <= quota
        ensures Usage(Execute(Config(true, quota, ns), size, false, inner, Race(a, b)).inner, size, ns) <= quota
      {
        RaceRuns(Config(true, quota, ns), size, inner, a, b);
        RaceWithinQuota(Config(true, quota, ns), size, inner, a, b);
      }
    }
    if RaceSafe(ns, size, a, b) {
      RaceAt(ns, size, a, b, EstimateSize(a));
      RaceAt(ns, size, a, b, EstimateSize(b));
    }
  }

  lemma RaceAt(ns: string, size: Measure, a: Item, b: Item, quota: nat)
    requires a.id != b.id && RaceSafe(ns, size, a, b)
    ensures quota < U64_MAX ==>
              var cfg := Config(true, 0, ns);
              (if EstimateSize(a) <= quota then size(EnforceNamespace(cfg, a)) else 0)
                + (if EstimateSize(b) <= quota then size(EnforceNamespace(cfg, b)) else 0) <= quota
  {
    if quota < U64_MAX {
      var cfg := Config(true, quota, ns);
      RaceRuns(cfg, size, map[], a, b);
      RaceFromEmpty(cfg, size, a, b);
      assert EnforceNamespace(cfg, a) == EnforceNamespace(Config(true, 0, ns), a);
      assert EnforceNamespace(cfg, b) == EnforceNamespace(Config(true, 0, ns), b);
      assert Usage(map[], size, ns) == 0;
    }
  }

  /** Two equal items that fit one at a time but not together exceed the quota. */
  lemma WithoutTheLockQuotaFails(cfg: Config, a: Item, b: Item, n: nat)
    requires cfg.isolation && cfg.quota < U64_MAX
    requires a.id != b.id && EstimateSize(a) == EstimateSize(b) == n && n <= cfg.quota < 2 * n
    ensures var size: Measure := _ => n;
            Usage(Execute(cfg, size, false, map[], Race(a, b)).inner, size, cfg.namespace) > cfg.quota
  {
    var size: Measure := _ => n;
    RaceRuns(cfg, size, map[], a, b);
    RaceFromEmpty(cfg, size, a, b);
  }

  // ---- when the quota holds ----

  /** Admission of one item never takes its namespace over the quota. */
  ghost predicate AdmissionSafe(isolation: bool, ns: string, size: Measure, item: Item) {
    forall quota: nat, inner | quota < U64_MAX ::
      var cfg := Config(isolation, quota, ns);
      var space := EnforceNamespace(cfg, item).namespace;
      Usage(inner, size, space) <= quota && Fits(cfg, size, inner, item) ==>
        Usage(Written(cfg, inner, item), size, space) <= quota
  }

  lemma UsageOfOne(size: Measure, item: Item)
    ensures Usage(map[][item.id := item], size, item.namespace) == size(item)
    ensures Usage(map[], size, item.namespace) == 0
  {
    var one: Inner := map[][item.id := item];
    UsageWithout(one, size, item.namespace, item.id);
    assert one - {item.id} == map[];
  }

  /** For every item: admission keeps every quota over every inner store exactly when the store measures
      the item, as stored, at no more than its estimate. */
  lemma AdmissionSafeIff(isolation: bool, ns: string, size: Measure, item: Item)
    ensures AdmissionSafe(isolation, ns, size, item) <==> Covered(Config(isolation, 0, ns), size, 0, item)
  {
    var estimate := EstimateSize(item);
    var stored := EnforceNamespace(Config(isolation, 0, ns), item);
    if Covered(Config(isolation, 0, ns), size, 0, item) {
      forall quota: nat, inner | quota < U64_MAX
        ensures var cfg := Config(isolation, quota, ns);
                Usage(inner, size, stored.namespace) <= quota && Fits(cfg, size, inner, item) ==>
                  Usage(Written(cfg, inner, item), size, stored.namespace) <= quota
      {
        UsageAfterWrite(inner, size, stored.namespace, stored);
      }
    } else {
      UsageOfOne(size, stored);
      assert Fits(Config(isolation, estimate, ns), size, map[], item);
      assert Written(Config(isolation, estimate, ns), map[], item) == map[][stored.id := stored];
    }
  }

  /** No interleaving of steps that submits only items of `items` exceeds any quota. */
  ghost predicate RunsSafe(ns: string, size: Measure, items: iset<Item>) {
    forall quota: nat, inner, actions | quota < U64_MAX && Submits(actions, items) ::
      var cfg := Config(true, quota, ns);
      Usage(inner, size, ns) <= quota ==> Usage(Execute(cfg, size, true, inner, actions).inner, size, ns) <= quota
  }

  ghost predicate Submits(actions: seq<Action>, items: iset<Item>) {
    forall i, k :: 0 <= i < |actions| && actions[i].Begin? && 0 <= k < |actions[i].items| ==> actions[i].items[k] in items
  }

  /** The steps that store one item in an empty store. */
  lemma OneItemStored(cfg: Config, size: Measure, item: Item) returns (actions: seq<Action>)
    requires cfg.isolation && EstimateSize(item) <= cfg.quota < U64_MAX
    ensures Submits(actions, iset{item})
    ensures Usage(Execute(cfg, size, true, map[], actions).inner, size, cfg.namespace) == size(EnforceNamespace(cfg, item))
  {
    var stored := EnforceNamespace(cfg, item);
    var informed := ToReading([], 1, item);
    TaskReads(cfg, size, true, map[], [], 1, item);
    ExecuteSnoc(cfg, size, true, map[], informed, Write(1));
    WriteStep(cfg, size, true, Execute(cfg, size, true, map[], informed), 1, map[], item);
    actions := informed + [Write(1)];
    UsageOfOne(size, stored);
    assert Execute(cfg, size, true, map[], actions).inner == map[][stored.id := stored];
  }

  /** For every set of items: the quota holds in every interleaving that stores them, for every quota
      and every inner store to begin with, exactly when each is measured within its estimate. */
  lemma QuotaHoldsIff(ns: string, size: Measure, items: iset<Item>)
    ensures RunsSafe(ns, size, items) <==> forall item :: item in items ==> Covered(Config(true, 0, ns), size, 0, item)
  {
    if forall item :: item in items ==> Covered(Config(true, 0, ns), size, 0, item) {
      forall quota: nat, inner, actions | quota < U64_MAX && Submits(actions, items) && Usage(inner, size, ns) <= quota
        ensures Usage(Execute(Config(true, quota, ns), size, true, inner, actions).inner, size, ns) <= quota
      {
        CoveredRunSafe(Config(true, quota, ns), size, inner, actions, items);
      }
    }
    if RunsSafe(ns, size, items) {
      forall item | item in items
        ensures Covered(Config(true, 0, ns), size, 0, item)
      {
        if EstimateSize(item) < U64_MAX {
          var actions := OneItemStored(Config(true, EstimateSize(item), ns), size, item);
          UsageOfOne(size, EnforceNamespace(Config(true, 0, ns), item));
          assert Submits(actions, items);
        }
      }
    }
  }

  lemma CoveredRunSafe(cfg: Config, size: Measure, inner: Inner, actions: seq<Action>, items: iset<Item>)
    requires cfg.isolation && cfg.quota < U64_MAX && Submits(actions, items)
    requires forall item :: item in items ==> Covered(Config(true, 0, cfg.namespace), size, 0, item)
    requires Usage(inner, size, cfg.namespace) <= cfg.quota
    ensures Usage(Execute(cfg, size, true, inner, actions).inner, size, cfg.namespace) <= cfg.quota
  {
    forall i, k | 0 <= i < |actions| && actions[i].Begin? && 0 <= k < |actions[i].items|
      ensures Covered(cfg, size, 0, actions[i].items[k])
    {
      assert Covered(Config(true, 0, cfg.namespace), size, 0, actions[i].items[k]);
    }
    QuotaHolds(cfg, size, 0, inner, actions);
  }

  // ---- what the estimate covers ----

  /** The estimate is taken before the namespace is rewritten, so it covers the item as stored
      exactly when the submitted namespace is not the shorter one. */
  lemma EstimateBeforeRewrite(cfg: Config, item: Item)
    requires cfg.isolation
    ensures EstimateSize(EnforceNamespace(cfg, item)) <= EstimateSize(item)
       <==> Chat.ByteLength(cfg.namespace) <= Chat.ByteLength(item.namespace)
  {
  }

  /** Over a store that measures items as the wrapper estimates them, the quota therefore holds in every
      interleaving exactly when no item is submitted under a shorter namespace than the wrapper's. */
  lemma EstimatingStoreQuotaIff(ns: string, items: iset<Item>)
    ensures RunsSafe(ns, EstimateSize, items)
       <==> forall item :: item in items ==>
              Chat.ByteLength(ns) <= Chat.ByteLength(item.namespace) || EstimateSize(item) >= U64_MAX
  {
    QuotaHoldsIff(ns, EstimateSize, items);
    forall item
      ensures Covered(Config(true, 0, ns), EstimateSize, 0, item)
         <==> Chat.ByteLength(ns) <= Chat.ByteLength(item.namespace) || EstimateSize(item) >= U64_MAX
    {
      EstimateBeforeRewrite(Config(true, 0, ns), item);
    }
  }

  /** Length of the JSON text of an embedding. */
  function JsonLength(numbers: seq<string>): nat {
    if numbers == [] then 2
    else if |numbers| == 1 then |numbers[0]| + 2
    else |numbers[0]| + 1 + JsonLength(numbers[1..])
  }

  /** SQLite's LENGTH of a text: its characters up to the first NUL. */
  function TextLength(s: string): (n: nat)
    ensures n <= |s|
  {
    if s == "" || s[0] == '\0' then 0 else 1 + TextLength(s[1..])
  }

  /** `namespace_usage` of the SQLite store: length of content plus length of the embedding text. */
  function SqliteSize(item: Item): nat {
    TextLength(item.content) + if item.embedding.Some? then JsonLength(item.embedding.value) else 0
  }

  lemma {:induction false} CharactersWithinBytes(s: string)
    ensures |s| <= Chat.ByteLength(s)
  {
    if s == [] {
    } else {
      CharactersWithinBytes(s[1..]);
    }
  }

  /** Without an embedding the SQLite store never measures above the estimate. */
  lemma SqliteWithinEstimate(cfg: Config, item: Item)
    requires item.embedding.None?
    ensures Covered(cfg, SqliteSize, 0, item)
  {
    CharactersWithinBytes(item.content);
  }

  /** What the SQLite store measures of an item, and the estimate, in terms of the item as submitted. */
  predicate SqliteCovered(item: Item) {
    SqliteSize(item) <= EstimateSize(item) || EstimateSize(item) >= U64_MAX
  }

  /** Over the SQLite store the quota holds in every interleaving exactly when every item stored passes
      this test, which a caller can make on the item as submitted. */
  lemma SqliteQuotaIff(ns: string, items: iset<Item>)
    ensures RunsSafe(ns, SqliteSize, items) <==> forall item :: item in items ==> SqliteCovered(item)
  {
    QuotaHoldsIff(ns, SqliteSize, items);
    forall item
      ensures Covered(Config(true, 0, ns), SqliteSize, 0, item) <==> SqliteCovered(item)
    {
    }
  }

  /** Over the SQLite store the quota therefore holds in every interleaving that stores no embeddings. */
  lemma SqliteQuotaWithoutEmbeddings(cfg: Config, inner: Inner, actions: seq<Action>)
    requires cfg.isolation && cfg.quota < U64_MAX && Usage(inner, SqliteSize, cfg.namespace) <= cfg.quota
    requires forall i :: 0 <= i < |actions| && actions[i].Begin? ==>
               forall k :: 0 <= k < |actions[i].items| ==> actions[i].items[k].embedding.None?
    ensures Usage(Execute(cfg, SqliteSize, true, inner, actions).inner, SqliteSize, cfg.namespace) <= cfg.quota
  {
    forall i, k | 0 <= i < |actions| && actions[i].Begin? && 0 <= k < |actions[i].items|
      ensures Covered(cfg, SqliteSize, 0, actions[i].items[k])
    {
      SqliteWithinEstimate(cfg, actions[i].items[k]);
    }
    QuotaHolds(cfg, SqliteSize, 0, inner, actions);
  }

  lemma {:induction false} JsonLengthOfCopies(number: string, n: nat)
    requires n > 0
    ensures JsonLength(seq(n, i => number)) == n * (|number| + 1) + 1
  {
    var numbers := seq(n, i => number);
    if n > 1 {
      assert numbers[1..] == seq(n - 1, i => number);
      JsonLengthOfCopies(number, n - 1);
    }
  }

  /** With one it can: four bytes are charged per number, but its JSON text is stored and measured.
      A single item admitted by the quota check then takes the namespace over its quota. */
  lemma SqliteOutgrowsEstimate(cfg: Config, number: string, n: nat)
    requires cfg.isolation && |number| == 14 && n >= 12
    requires cfg.quota == EstimateSize(Item("", "", "", [], Some(seq(n, i => number)))) < U64_MAX
    ensures var item := Item("", "", "", [], Some(seq(n, i => number)));
            && Fits(cfg, SqliteSize, map[], item)
            && Usage(Written(cfg, map[], item), SqliteSize, cfg.namespace) > cfg.quota
  {
    var item := Item("", "", "", [], Some(seq(n, i => number)));
    var after := Written(cfg, map[], item);
    JsonLengthOfCopies(number, n);
    UsageWithout(after, SqliteSize, cfg.namespace, "");
    assert EstimateSize(item) == 4 * n + 128;
    assert n * 15 + 1 > 4 * n + 128;
  }
}
