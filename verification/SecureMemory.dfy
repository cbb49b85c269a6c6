/**
 The memory wrapper that keeps an agent inside its namespace and byte quota.
 */
module SecureMemory {
  import opened Base
  import Chat

  /** An embedding is the list of its numbers, each as the JSON text the inner store writes. */
  datatype Item = Item(id: string, namespace: string, content: string, tags: seq<string>, embedding: Option<seq<string>>)

  /** The inner store: items by id, a store with a known id replacing the old item. */
  type Inner = map<string, Item>

  /** How the inner store measures an item. */
  type Measure = Item -> nat

  const U64_MAX: nat := 0xFFFF_FFFF_FFFF_FFFF

  datatype Config = Config(isolation: bool, quota: nat, namespace: string)

  datatype MemoryError =
    | QuotaExceeded(namespace: string, used: nat, limit: nat)
    | AccessDenied(namespace: string)
    | Storage(message: string)

  /** What goes wrong in the inner store during one call of `store`: reading the usage or writing. */
  datatype Fault = NoFault | UsageFails(message: string) | WriteFails(message: string)

  // ---- sizes ----

  function TagsSize(tags: seq<string>): nat {
    if tags == [] then 0 else Chat.ByteLength(tags[0]) + 2 + TagsSize(tags[1..])
  }

  const METADATA_OVERHEAD: nat := 128

  function CalculateEntrySize(content: string, tags: seq<string>, embedding: Option<seq<string>>): nat {
    Chat.ByteLength(content) + TagsSize(tags) + (if embedding.Some? then 4 * |embedding.value| else 0) + METADATA_OVERHEAD
  }

  function EstimateSize(item: Item): nat {
    CalculateEntrySize(item.content, item.tags, item.embedding)
      + Chat.ByteLength(item.id) + Chat.ByteLength(item.namespace)
  }

  function EnforceNamespace(cfg: Config, item: Item): Item {
    if cfg.isolation then item.(namespace := cfg.namespace) else item
  }

  function Share(size: Measure, ns: string, item: Item): nat {
    if item.namespace == ns then size(item) else 0
  }

  /** Bytes used by a namespace. */
  ghost function Usage(inner: Inner, size: Measure, ns: string): nat
    decreases |inner|
  {
    if inner == map[] then 0
    else
      var id :| id in inner;
      Share(size, ns, inner[id]) + Usage(inner - {id}, size, ns)
  }

  lemma {:induction false} UsageWithout(inner: Inner, size: Measure, ns: string, id: string)
    requires id in inner
    ensures Usage(inner, size, ns) == Share(size, ns, inner[id]) + Usage(inner - {id}, size, ns)
    decreases |inner|
  {
    var first :| id in inner && first in inner
      && Usage(inner, size, ns) == Share(size, ns, inner[first]) + Usage(inner - {first}, size, ns);
    if first != id {
      UsageWithout(inner - {first}, size, ns, id);
      UsageWithout(inner - {id}, size, ns, first);
      assert inner - {first} - {id} == inner - {id} - {first};
    }
  }

  /** Storing adds at most the size of the item; deleting adds nothing. */
  lemma UsageAfterWrite(inner: Inner, size: Measure, ns: string, item: Item)
    ensures Usage(inner[item.id := item], size, ns) <= Usage(inner, size, ns) + size(item)
    ensures Usage(inner - {item.id}, size, ns) <= Usage(inner, size, ns)
  {
    var after := inner[item.id := item];
    UsageWithout(after, size, ns, item.id);
    assert after - {item.id} == inner - {item.id};
    if item.id in inner {
      UsageWithout(inner, size, ns, item.id);
    } else {
      assert inner - {item.id} == inner;
    }
  }

  function Cleared(inner: Inner, ns: string): Inner {
    map id | id in inner && inner[id].namespace != ns :: inner[id]
  }

  lemma {:induction false} UsageAfterRemoval(inner: Inner, gone: set<string>, size: Measure, ns: string)
    ensures Usage(inner - gone, size, ns) <= Usage(inner, size, ns)
    decreases gone
  {
    if gone == {} {
      assert inner - gone == inner;
    } else {
      var id :| id in gone;
      UsageAfterRemoval(inner, gone - {id}, size, ns);
      var rest := inner - (gone - {id});
      assert rest - {id} == inner - gone;
      if id in rest {
        UsageWithout(rest, size, ns, id);
      } else {
        assert rest - {id} == rest;
      }
    }
  }

  lemma UsageAfterClear(inner: Inner, cleared: string, size: Measure, ns: string)
    ensures Usage(Cleared(inner, cleared), size, ns) <= Usage(inner, size, ns)
  {
    var gone := set id | id in inner && inner[id].namespace == cleared;
    assert inner - gone == Cleared(inner, cleared);
    UsageAfterRemoval(inner, gone, size, ns);
  }

  // ---- one caller at a time ----

  function SaturatingAdd(a: nat, b: nat): nat {
    if a + b > U64_MAX then U64_MAX else a + b
  }

  /** Whether an item, as submitted, is stored. */
  ghost predicate Fits(cfg: Config, size: Measure, inner: Inner, item: Item) {
    cfg.quota == U64_MAX ||
    SaturatingAdd(Usage(inner, size, EnforceNamespace(cfg, item).namespace), EstimateSize(item)) <= cfg.quota
  }

  function TagBytes(tags: seq<string>): nat {
    if tags == [] then 0 else TagBytes(tags[..|tags| - 1]) + |Chat.Utf8(tags[|tags| - 1])|
  }

  lemma {:induction false} TagsSizeSnoc(tags: seq<string>, tag: string)
    ensures TagsSize(tags + [tag]) == TagsSize(tags) + Chat.ByteLength(tag) + 2
  {
    if tags == [] {
      assert ([] + [tag])[1..] == [];
    } else {
      assert (tags + [tag])[1..] == tags[1..] + [tag];
      TagsSizeSnoc(tags[1..], tag);
    }
  }

  lemma {:induction false} TagsSizeIs(tags: seq<string>)
    ensures TagsSize(tags) == TagBytes(tags) + 2 * |tags|
  {
    if tags == [] {
    } else {
      var n := |tags| - 1;
      TagsSizeIs(tags[..n]);
      assert tags == tags[..n] + [tags[n]];
      TagsSizeSnoc(tags[..n], tags[n]);
      Chat.BytesOfUtf8(tags[n]);
    }
  }

  /** An item is admitted exactly when the bytes its namespace uses, those of its texts, two for each tag,
      four for each number of its embedding and 128 more do not exceed the quota together. */
  lemma AdmittedIff(cfg: Config, size: Measure, inner: Inner, item: Item)
    ensures var ns := if cfg.isolation then cfg.namespace else item.namespace;
            var bytes := |Chat.Utf8(item.content)| + |Chat.Utf8(item.id)| + |Chat.Utf8(item.namespace)|
                         + TagBytes(item.tags) + 2 * |item.tags|
                         + (if item.embedding.Some? then 4 * |item.embedding.value| else 0) + 128;
            cfg.quota < U64_MAX ==> (Fits(cfg, size, inner, item) <==> Usage(inner, size, ns) + bytes <= cfg.quota)
  {
    Chat.BytesOfUtf8(item.content);
    Chat.BytesOfUtf8(item.id);
    Chat.BytesOfUtf8(item.namespace);
    TagsSizeIs(item.tags);
  }

  function Written(cfg: Config, inner: Inner, item: Item): Inner {
    inner[item.id := EnforceNamespace(cfg, item)]
  }

  /** What one `store` returns and leaves. The usage is read, and can fail, only under a quota. */
  ghost function StoreOutcome(cfg: Config, size: Measure, inner: Inner, item: Item, fault: Fault)
    : (Result<string, MemoryError>, Inner)
  {
    var ns := EnforceNamespace(cfg, item).namespace;
    if cfg.quota != U64_MAX && fault.UsageFails? then (Err(Storage(fault.message)), inner)
    else if !Fits(cfg, size, inner, item) then (Err(QuotaExceeded(ns, Usage(inner, size, ns), cfg.quota)), inner)
    else if fault.WriteFails? then (Err(Storage(fault.message)), inner)
    else (Ok(item.id), Written(cfg, inner, item))
  }

  /** The store after a list of items is written in order. */
  function WrittenAll(cfg: Config, inner: Inner, items: seq<Item>): Inner {
    if items == [] then inner else Written(cfg, WrittenAll(cfg, inner, items[..|items| - 1]), items[|items| - 1])
  }

  /** How many items of a batch go in before the first that does not. */
  ghost function StoredPrefix(cfg: Config, size: Measure, inner: Inner, items: seq<Item>, faults: seq<Fault>): (k: nat)
    requires |items| == |faults|
    ensures k <= |items|
  {
    if items == [] then 0
    else
      var n := |items| - 1;
      var k := StoredPrefix(cfg, size, inner, items[..n], faults[..n]);
      if k == n && StoreOutcome(cfg, size, WrittenAll(cfg, inner, items[..n]), items[n], faults[n]).0.Ok? then n + 1 else k
  }

  lemma {:induction false} StoredPrefixStops(cfg: Config, size: Measure, inner: Inner, items: seq<Item>,
                                             faults: seq<Fault>, k: nat)
    requires |items| == |faults| && k < |items|
    requires StoredPrefix(cfg, size, inner, items[..k], faults[..k]) == k
    requires StoreOutcome(cfg, size, WrittenAll(cfg, inner, items[..k]), items[k], faults[k]).0.Err?
    ensures StoredPrefix(cfg, size, inner, items, faults) == k
  {
    var n := |items| - 1;
    if k == n {
    } else {
      assert items[..n][..k] == items[..k] && faults[..n][..k] == faults[..k];
      StoredPrefixStops(cfg, size, inner, items[..n], faults[..n], k);
    }
  }

  lemma PrefixOf<T>(s: seq<T>, i: nat)
    requires i < |s|
    ensures s[..i + 1][..i] == s[..i] && s[..i + 1][i] == s[i]
  {
  }

  lemma CardinalityOfSubmap(m: Inner, sub: Inner)
    requires sub.Keys <= m.Keys
    ensures |sub| <= |m|
  {
    var rest := m.Keys - sub.Keys;
    assert m.Keys == sub.Keys + rest;
    assert |sub.Keys| + |rest| == |m.Keys|;
  }

  /** Reads of a single id: with isolation only the wrapper's own items are seen. */
  function Retrieved(cfg: Config, inner: Inner, id: string): Option<Item> {
    if id in inner && (cfg.isolation ==> inner[id].namespace == cfg.namespace) then Some(inner[id]) else None
  }

  function ClearOutcome(cfg: Config, inner: Inner, ns: string): (Result<nat, MemoryError>, Inner) {
    if cfg.isolation && ns != cfg.namespace then (Err(AccessDenied(ns)), inner)
    else
      CardinalityOfSubmap(inner, Cleared(inner, ns));
      (Ok(|inner| - |Cleared(inner, ns)|), Cleared(inner, ns))
  }

  function Ids(items: seq<Item>): seq<string> {
    if items == [] then [] else Ids(items[..|items| - 1]) + [items[|items| - 1].id]
  }

  class SecureMemoryStore {
    const cfg: Config
    ghost const size: Measure
    /** The usage the inner store reports for a namespace. */
    const usageOf: (Inner, string) -> nat
    var inner: Inner

    ghost predicate Valid()
      reads this
    {
      forall m, ns :: usageOf(m, ns) == Usage(m, size, ns)
    }

    constructor (cfg: Config, ghost size: Measure, usageOf: (Inner, string) -> nat)
      requires forall m, ns :: usageOf(m, ns) == Usage(m, size, ns)
      ensures Valid() && this.cfg == cfg && this.size == size && inner == map[]
    {
      this.cfg, this.size, this.usageOf, inner := cfg, size, usageOf, map[];
    }

    method Store(submitted: Item, fault: Fault) returns (r: Result<string, MemoryError>)
      requires Valid()
      modifies this`inner
      ensures Valid()
      ensures (r, inner) == StoreOutcome(cfg, size, old(inner), submitted, fault)
      ensures r.Ok? <==> Fits(cfg, size, old(inner), submitted)
                         && !fault.WriteFails? && (fault.UsageFails? ==> cfg.quota == U64_MAX)
      ensures r.Err? ==> inner == old(inner)
      ensures r.Ok? ==>
                && r.value == submitted.id
                && inner == old(inner)[submitted.id :=
                     submitted.(namespace := if cfg.isolation then cfg.namespace else submitted.namespace)]
      ensures r.Err? && r.error.QuotaExceeded? ==>
                var ns := if cfg.isolation then cfg.namespace else submitted.namespace;
                r.error == QuotaExceeded(ns, Usage(old(inner), size, ns), cfg.quota)
    {
      var estimated := EstimateSize(submitted);
      var item := EnforceNamespace(cfg, submitted);
      if cfg.quota != U64_MAX {
        if fault.UsageFails? {
          return Err(Storage(fault.message));
        }
        var current := usageOf(inner, item.namespace);
        if SaturatingAdd(current, estimated) > cfg.quota {
          return Err(QuotaExceeded(item.namespace, current, cfg.quota));
        }
      }
      if fault.WriteFails? {
        return Err(Storage(fault.message));
      }
      inner := inner[item.id := item];
      return Ok(item.id);
    }

    /** Stores one item after another and stops at the first failure: a failed batch leaves exactly
        the items before it stored. */
    method StoreBatch(items: seq<Item>, faults: seq<Fault>) returns (r: Result<seq<string>, MemoryError>)
      requires Valid() && |items| == |faults|
      modifies this`inner
      ensures Valid()
      ensures var k := StoredPrefix(cfg, size, old(inner), items, faults);
              && inner == WrittenAll(cfg, old(inner), items[..k])
              && (k == |items| ==> r == Ok(Ids(items)))
              && (k < |items| ==>
                    var failed := StoreOutcome(cfg, size, inner, items[k], faults[k]).0;
                    failed.Err? && r == Err(failed.error))
    {
      ghost var before := inner;
      var ids := [];
      for i := 0 to |items|
        invariant Valid()
        invariant inner == WrittenAll(cfg, before, items[..i]) && ids == Ids(items[..i])
        invariant StoredPrefix(cfg, size, before, items[..i], faults[..i]) == i
      {
        PrefixOf(items, i);
        PrefixOf(faults, i);
        var one := Store(items[i], faults[i]);
        if one.Err? {
          StoredPrefixStops(cfg, size, before, items, faults, i);
          return Err(one.error);
        }
        ids := ids + [one.value];
      }
      assert items[..|items|] == items && faults[..|faults|] == faults;
      r := Ok(ids);
    }

    method Retrieve(id: string) returns (r: Option<Item>)
      ensures r == Retrieved(cfg, inner, id)
      ensures r.Some? <==> id in inner && (cfg.isolation ==> inner[id].namespace == cfg.namespace)
      ensures r.Some? ==> r.value == inner[id]
    {
      if id !in inner {
        return None;
      }
      var item := inner[id];
      if cfg.isolation && item.namespace != cfg.namespace {
        return None;
      }
      return Some(item);
    }

    /** Deletion is by id alone, whatever namespace the item belongs to. */
    method Delete(id: string)
      requires Valid()
      modifies this`inner
      ensures Valid() && inner == old(inner) - {id}
    {
      inner := inner - {id};
    }

    method ClearNamespace(ns: string) returns (r: Result<nat, MemoryError>)
      requires Valid()
      modifies this`inner
      ensures Valid()
      ensures (r, inner) == ClearOutcome(cfg, old(inner), ns)
      ensures r.Err? <==> cfg.isolation && ns != cfg.namespace
      ensures r.Err? ==> inner == old(inner)
      ensures r.Ok? ==> forall id :: id in inner <==> id in old(inner) && old(inner)[id].namespace != ns
      ensures r.Ok? ==> forall id :: id in inner ==> inner[id] == old(inner)[id]
      ensures r.Ok? ==> r.value + |inner| == |old(inner)|
    {
      if cfg.isolation && ns != cfg.namespace {
        return Err(AccessDenied(ns));
      }
      var kept := Cleared(inner, ns);
      CardinalityOfSubmap(inner, kept);
      r := Ok(|inner| - |kept|);
      inner := kept;
    }
  }
}
