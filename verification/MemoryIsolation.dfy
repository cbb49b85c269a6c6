/**
 What namespace isolation guarantees over whole runs of one wrapper: what other namespaces hold never
 shows in its results, and which of their items its own operations can change.
 */
module MemoryIsolation {
  import opened Base
  import opened SecureMemory

  datatype Operation =
    | StoreItem(item: Item, fault: Fault)
    | RetrieveItem(id: string)
    | DeleteItem(id: string)
    | ClearItems(namespace: string)

  datatype Seen =
    | Verdict(result: Result<string, MemoryError>)
    | Found(item: Option<Item>)
    | Done
    | Count(count: Result<nat, MemoryError>)

  /** What one operation returns, and the inner store afterwards. */
  ghost function Apply(cfg: Config, size: Measure, inner: Inner, op: Operation): (Seen, Inner) {
    match op
    case StoreItem(item, fault) =>
      var (r, after) := StoreOutcome(cfg, size, inner, item, fault);
      (Verdict(r), after)
    case RetrieveItem(id) => (Found(Retrieved(cfg, inner, id)), inner)
    case DeleteItem(id) => (Done, inner - {id})
    case ClearItems(ns) =>
      var (r, after) := ClearOutcome(cfg, inner, ns);
      (Count(r), after)
  }

  ghost function ApplyAll(cfg: Config, size: Measure, inner: Inner, ops: seq<Operation>): (seq<Seen>, Inner) {
    if ops == [] then ([], inner)
    else
      var n := |ops| - 1;
      var (seen, before) := ApplyAll(cfg, size, inner, ops[..n]);
      var (s, after) := Apply(cfg, size, before, ops[n]);
      (seen + [s], after)
  }

  /** The items of one namespace, and those of all others. */
  function Own(inner: Inner, ns: string): Inner {
    map id | id in inner && inner[id].namespace == ns :: inner[id]
  }

  function Foreign(inner: Inner, ns: string): Inner {
    map id | id in inner && inner[id].namespace != ns :: inner[id]
  }

  // ---- what a wrapper sees ----

  lemma {:induction false} UsageIsOwn(inner: Inner, size: Measure, ns: string)
    ensures Usage(inner, size, ns) == Usage(Own(inner, ns), size, ns)
    decreases |inner|
  {
    if inner == map[] {
      assert Own(inner, ns) == map[];
    } else {
      var id :| id in inner;
      UsageWithout(inner, size, ns, id);
      UsageIsOwn(inner - {id}, size, ns);
      if inner[id].namespace == ns {
        UsageWithout(Own(inner, ns), size, ns, id);
        assert Own(inner, ns) - {id} == Own(inner - {id}, ns);
      } else {
        assert Own(inner, ns) == Own(inner - {id}, ns);
      }
    }
  }

  lemma OwnAndCleared(inner: Inner, ns: string)
    ensures |inner| == |Own(inner, ns)| + |Cleared(inner, ns)|
    ensures Own(Cleared(inner, ns), ns) == map[]
  {
    var own, others := Own(inner, ns).Keys, Cleared(inner, ns).Keys;
    assert inner.Keys == own + others && own !! others;
    assert |own + others| == |own| + |others|;
  }

  /** Each operation, in terms of the wrapper's own items alone. */
  lemma StoreSeesOwn(cfg: Config, size: Measure, inner: Inner, item: Item, fault: Fault)
    requires cfg.isolation
    ensures var own := Own(inner, cfg.namespace);
            var (r, after) := StoreOutcome(cfg, size, inner, item, fault);
            var (r', own') := StoreOutcome(cfg, size, own, item, fault);
            r == r' && Own(after, cfg.namespace) == own'
  {
    UsageIsOwn(inner, size, cfg.namespace);
    OwnAfterWrite(cfg, inner, item);
  }

  lemma OwnAfterWrite(cfg: Config, inner: Inner, item: Item)
    requires cfg.isolation
    ensures Own(Written(cfg, inner, item), cfg.namespace) == Written(cfg, Own(inner, cfg.namespace), item)
    ensures Own(Own(inner, cfg.namespace), cfg.namespace) == Own(inner, cfg.namespace)
  {
  }

  lemma ClearSeesOwn(cfg: Config, inner: Inner, ns: string)
    requires cfg.isolation
    ensures var own := Own(inner, cfg.namespace);
            var (r, after) := ClearOutcome(cfg, inner, ns);
            && r == (if ns == cfg.namespace then Ok(|own|) else Err(AccessDenied(ns)))
            && Own(after, cfg.namespace) == if ns == cfg.namespace then map[] else own
  {
    OwnAndCleared(inner, ns);
  }

  lemma DeleteSeesOwn(inner: Inner, ns: string, id: string)
    ensures Own(inner - {id}, ns) == Own(inner, ns) - {id}
  {
  }

  lemma RetrieveSeesOwn(cfg: Config, inner: Inner, id: string)
    requires cfg.isolation
    ensures var own := Own(inner, cfg.namespace);
            Retrieved(cfg, inner, id) == if id in own then Some(own[id]) else None
  {
  }

  /** One operation: equal views give equal results and equal views. */
  lemma StepSeesOwn(cfg: Config, size: Measure, a: Inner, b: Inner, op: Operation)
    requires cfg.isolation && Own(a, cfg.namespace) == Own(b, cfg.namespace)
    ensures var (x, a') := Apply(cfg, size, a, op);
            var (y, b') := Apply(cfg, size, b, op);
            x == y && Own(a', cfg.namespace) == Own(b', cfg.namespace)
  {
    match op
    case StoreItem(item, fault) =>
      StoreSeesOwn(cfg, size, a, item, fault);
      StoreSeesOwn(cfg, size, b, item, fault);
    case RetrieveItem(id) =>
      RetrieveSeesOwn(cfg, a, id);
      RetrieveSeesOwn(cfg, b, id);
    case DeleteItem(id) =>
      DeleteSeesOwn(a, cfg.namespace, id);
      DeleteSeesOwn(b, cfg.namespace, id);
    case ClearItems(ns) =>
      ClearSeesOwn(cfg, a, ns);
      ClearSeesOwn(cfg, b, ns);
  }

  /** With isolation on, two inner stores that agree on the wrapper's own namespace give the same
      results, reads, verdicts and counts alike, to every sequence of operations. */
  lemma {:induction false} OthersAreInvisible(cfg: Config, size: Measure, a: Inner, b: Inner, ops: seq<Operation>)
    requires cfg.isolation && Own(a, cfg.namespace) == Own(b, cfg.namespace)
    ensures ApplyAll(cfg, size, a, ops).0 == ApplyAll(cfg, size, b, ops).0
    ensures Own(ApplyAll(cfg, size, a, ops).1, cfg.namespace) == Own(ApplyAll(cfg, size, b, ops).1, cfg.namespace)
  {
    if ops == [] {
    } else {
      var n := |ops| - 1;
      OthersAreInvisible(cfg, size, a, b, ops[..n]);
      StepSeesOwn(cfg, size, ApplyAll(cfg, size, a, ops[..n]).1, ApplyAll(cfg, size, b, ops[..n]).1, ops[n]);
    }
  }

  // ---- what a wrapper changes ----

  /** The id an operation stores or deletes. */
  ghost function Touched(cfg: Config, size: Measure, inner: Inner, op: Operation): set<string> {
    match op
    case StoreItem(item, fault) => if StoreOutcome(cfg, size, inner, item, fault).0.Ok? then {item.id} else {}
    case DeleteItem(id) => {id}
    case _ => {}
  }

  ghost function TouchedAll(cfg: Config, size: Measure, inner: Inner, ops: seq<Operation>): set<string> {
    if ops == [] then {}
    else
      var before := ops[..|ops| - 1];
      TouchedAll(cfg, size, inner, before) + Touched(cfg, size, ApplyAll(cfg, size, inner, before).1, ops[|ops| - 1])
  }

  lemma StepLoses(cfg: Config, size: Measure, inner: Inner, op: Operation)
    requires cfg.isolation
    ensures Foreign(Apply(cfg, size, inner, op).1, cfg.namespace)
         == Foreign(inner, cfg.namespace) - Touched(cfg, size, inner, op)
  {
  }

  /** Ids are not checked against the namespace that owns them: a run takes away from the other
      namespaces exactly the items whose ids it stores or deletes, and adds nothing to them. */
  lemma {:induction false} OthersLose(cfg: Config, size: Measure, inner: Inner, ops: seq<Operation>)
    requires cfg.isolation
    ensures Foreign(ApplyAll(cfg, size, inner, ops).1, cfg.namespace)
         == Foreign(inner, cfg.namespace) - TouchedAll(cfg, size, inner, ops)
  {
    if ops == [] {
    } else {
      var n := |ops| - 1;
      OthersLose(cfg, size, inner, ops[..n]);
      StepLoses(cfg, size, ApplyAll(cfg, size, inner, ops[..n]).1, ops[n]);
    }
  }

  /** So the other namespaces are left alone exactly when no id stored or deleted is one of theirs. */
  lemma OthersKeepAllIff(cfg: Config, size: Measure, inner: Inner, ops: seq<Operation>)
    requires cfg.isolation
    ensures Foreign(ApplyAll(cfg, size, inner, ops).1, cfg.namespace) == Foreign(inner, cfg.namespace)
       <==> TouchedAll(cfg, size, inner, ops) !! Foreign(inner, cfg.namespace).Keys
  {
    var before := Foreign(inner, cfg.namespace);
    var gone := TouchedAll(cfg, size, inner, ops);
    OthersLose(cfg, size, inner, ops);
    if !(gone !! before.Keys) {
      var id :| id in gone && id in before;
      assert id !in before - gone;
    }
  }
}
