/**
 The rule router and its deduplicating wrapper.
 */
module Routing {
  import opened Base
  import Dedup

  datatype ChannelMessage = ChannelMessage(id: string, channelId: string, senderId: Option<string>, content: string)

  datatype Rule =
    | ByChannelId(channelId: string, agentId: string)
    | BySenderId(senderId: string, agentId: string)
    | ByPattern(pattern: string, agentId: string)
    | Default(agentId: string)

  /** Whether a pattern matches a content; patterns are compiled when a rule is built. */
  type Regex = (string, string) -> bool

  predicate Matches(re: Regex, rule: Rule, msg: ChannelMessage) {
    match rule
    case ByChannelId(c, _) => msg.channelId == c
    case BySenderId(s, _) => msg.senderId == Some(s)
    case ByPattern(p, _) => re(p, msg.content)
    case Default(_) => true
  }

  // ---- the specification ----

  /** The agents of the explicit rules that match, in rule order. */
  function Hits(re: Regex, rules: seq<Rule>, msg: ChannelMessage): seq<string> {
    if rules == [] then []
    else
      (if !rules[0].Default? && Matches(re, rules[0], msg) then [rules[0].agentId] else [])
        + Hits(re, rules[1..], msg)
  }

  /** The agents of the Default rules, in rule order. */
  function Defaults(rules: seq<Rule>): seq<string> {
    if rules == [] then []
    else (if rules[0].Default? then [rules[0].agentId] else []) + Defaults(rules[1..])
  }

  function LastOf(s: seq<string>): Option<string> {
    if s == [] then None else Some(s[|s| - 1])
  }

  /** First hit, else the last Default. */
  function RouteSpec(re: Regex, rules: seq<Rule>, msg: ChannelMessage): Option<string> {
    var hits := Hits(re, rules, msg);
    if hits != [] then Some(hits[0]) else LastOf(Defaults(rules))
  }

  /** First occurrences, in order. */
  function Unique(s: seq<string>): seq<string> {
    if s == [] then []
    else
      var front, last := Unique(s[..|s| - 1]), s[|s| - 1];
      if last in front then front else front + [last]
  }

  /** Every hit once, else the last Default alone. */
  function BroadcastSpec(re: Regex, rules: seq<Rule>, msg: ChannelMessage): seq<string> {
    var hits := Hits(re, rules, msg);
    if hits != [] then Unique(hits)
    else if Defaults(rules) != [] then [LastOf(Defaults(rules)).value]
    else []
  }

  function WithoutAgent(rules: seq<Rule>, agent: string): seq<Rule> {
    if rules == [] then []
    else (if rules[0].agentId == agent then [] else [rules[0]]) + WithoutAgent(rules[1..], agent)
  }

  lemma {:induction false} HitsAppend(re: Regex, a: seq<Rule>, b: seq<Rule>, msg: ChannelMessage)
    ensures Hits(re, a + b, msg) == Hits(re, a, msg) + Hits(re, b, msg)
    ensures Defaults(a + b) == Defaults(a) + Defaults(b)
  {
    if a == [] {
      assert a + b == b;
    } else {
      assert (a + b)[1..] == a[1..] + b;
      HitsAppend(re, a[1..], b, msg);
    }
  }

  lemma HitsStep(re: Regex, rules: seq<Rule>, i: nat, msg: ChannelMessage)
    requires i < |rules|
    ensures var before := Hits(re, rules[..i], msg);
            Hits(re, rules[..i + 1], msg)
              == if !rules[i].Default? && Matches(re, rules[i], msg) then before + [rules[i].agentId] else before
    ensures var before := Defaults(rules[..i]);
            Defaults(rules[..i + 1]) == if rules[i].Default? then before + [rules[i].agentId] else before
  {
    assert rules[..i + 1] == rules[..i] + [rules[i]];
    HitsAppend(re, rules[..i], [rules[i]], msg);
    HitsCons(re, rules[i], [], msg);
    assert [rules[i]] + [] == [rules[i]];
    assert Hits(re, rules[..i], msg) + [] == Hits(re, rules[..i], msg);
    assert Defaults(rules[..i]) + [] == Defaults(rules[..i]);
  }

  lemma UniqueSnoc(s: seq<string>, x: string)
    ensures Unique(s + [x]) == if x in Unique(s) then Unique(s) else Unique(s) + [x]
  {
    assert (s + [x])[..|s|] == s;
  }

  /** What one more rule does to the broadcast. */
  lemma BroadcastStep(re: Regex, rules: seq<Rule>, i: nat, msg: ChannelMessage)
    requires i < |rules|
    ensures var hits := Hits(re, rules[..i], msg);
            var hits' := Hits(re, rules[..i + 1], msg);
            var agent := rules[i].agentId;
            if rules[i].Default? || !Matches(re, rules[i], msg) then hits' == hits
            else
              && hits' != []
              && Unique(hits') == if agent in Unique(hits) then Unique(hits) else Unique(hits) + [agent]
    ensures LastOf(Defaults(rules[..i + 1])) == if rules[i].Default? then Some(rules[i].agentId)
                                                else LastOf(Defaults(rules[..i]))
  {
    HitsStep(re, rules, i, msg);
    UniqueSnoc(Hits(re, rules[..i], msg), rules[i].agentId);
  }

  lemma HitsCons(re: Regex, rule: Rule, rest: seq<Rule>, msg: ChannelMessage)
    ensures Hits(re, [rule] + rest, msg)
         == (if !rule.Default? && Matches(re, rule, msg) then [rule.agentId] else []) + Hits(re, rest, msg)
    ensures Defaults([rule] + rest) == (if rule.Default? then [rule.agentId] else []) + Defaults(rest)
  {
    assert ([rule] + rest)[1..] == rest;
  }

  class ChannelRouter {
    var rules: seq<Rule>
    const re: Regex

    constructor (rules: seq<Rule>, re: Regex)
      ensures this.rules == rules && this.re == re
    {
      this.rules := rules;
      this.re := re;
    }

    method Route(msg: ChannelMessage) returns (r: Option<string>)
      ensures r == RouteSpec(re, rules, msg)
    {
      var defaultAgent: Option<string> := None;
      for i := 0 to |rules|
        invariant Hits(re, rules[..i], msg) == []
        invariant defaultAgent == LastOf(Defaults(rules[..i]))
      {
        HitsStep(re, rules, i, msg);
        if rules[i].Default? {
          defaultAgent := Some(rules[i].agentId);
        } else if Matches(re, rules[i], msg) {
          HitsAppend(re, rules[..i + 1], rules[i + 1..], msg);
          assert rules[..i + 1] + rules[i + 1..] == rules;
          return Some(rules[i].agentId);
        }
      }
      assert rules[..|rules|] == rules;
      return defaultAgent;
    }

    method BroadcastRoute(msg: ChannelMessage) returns (agents: seq<string>)
      ensures agents == BroadcastSpec(re, rules, msg)
    {
      agents := [];
      var hasExplicitMatch := false;
      var defaultAgent: Option<string> := None;
      for i := 0 to |rules|
        invariant agents == Unique(Hits(re, rules[..i], msg))
        invariant hasExplicitMatch <==> Hits(re, rules[..i], msg) != []
        invariant defaultAgent == LastOf(Defaults(rules[..i]))
      {
        BroadcastStep(re, rules, i, msg);
        if rules[i].Default? {
          defaultAgent := Some(rules[i].agentId);
        } else if Matches(re, rules[i], msg) {
          if rules[i].agentId !in agents {
            agents := agents + [rules[i].agentId];
          }
          hasExplicitMatch := true;
        }
      }
      assert rules[..|rules|] == rules;
      if !hasExplicitMatch && defaultAgent.Some? {
        assert agents == [];
        agents := agents + [defaultAgent.value];
      }
    }

    method AddRule(rule: Rule)
      modifies this`rules
      ensures rules == old(rules) + [rule]
    {
      rules := rules + [rule];
    }

    /** Returns how many rules were removed. */
    method RemoveRulesForAgent(agent: string) returns (removed: nat)
      modifies this`rules
      ensures rules == WithoutAgent(old(rules), agent)
      ensures removed == |old(rules)| - |rules|
    {
      WithoutAgentShorter(rules, agent);
      var kept := WithoutAgent(rules, agent);
      removed := |rules| - |kept|;
      rules := kept;
    }
  }

  lemma {:induction false} WithoutAgentShorter(rules: seq<Rule>, agent: string)
    ensures |WithoutAgent(rules, agent)| <= |rules|
  {
    if rules == [] {
    } else {
      WithoutAgentShorter(rules[1..], agent);
    }
  }

  // ---- laws ----

  lemma {:induction false} UniqueProperties(s: seq<string>)
    ensures forall x :: x in Unique(s) <==> x in s
    ensures forall i, j :: 0 <= i < j < |Unique(s)| ==> Unique(s)[i] != Unique(s)[j]
    ensures s != [] ==> Unique(s) != [] && Unique(s)[0] == s[0]
  {
    if s == [] {
    } else {
      UniqueProperties(s[..|s| - 1]);
      assert s == s[..|s| - 1] + [s[|s| - 1]];
    }
  }

  /** Single routing picks the head of the broadcast, and nothing exactly when that is empty; a
      broadcast names no agent twice. */
  lemma RouteIsHeadOfBroadcast(re: Regex, rules: seq<Rule>, msg: ChannelMessage)
    ensures var all := BroadcastSpec(re, rules, msg);
            && RouteSpec(re, rules, msg) == (if all == [] then None else Some(all[0]))
            && (forall i, j :: 0 <= i < j < |all| ==> all[i] != all[j])
  {
    UniqueProperties(Hits(re, rules, msg));
  }

  /** Whom a broadcast reaches: the agents of the matching explicit rules, or the last Default. */
  lemma BroadcastReaches(re: Regex, rules: seq<Rule>, msg: ChannelMessage, agent: string)
    ensures agent in BroadcastSpec(re, rules, msg) <==>
            || (exists i :: 0 <= i < |rules| && !rules[i].Default? && Matches(re, rules[i], msg) && rules[i].agentId == agent)
            || ((forall i :: 0 <= i < |rules| && !rules[i].Default? ==> !Matches(re, rules[i], msg))
                && LastOf(Defaults(rules)) == Some(agent))
  {
    UniqueProperties(Hits(re, rules, msg));
    HitsAre(re, rules, msg, agent);
  }

  lemma {:induction false} HitsAre(re: Regex, rules: seq<Rule>, msg: ChannelMessage, agent: string)
    ensures agent in Hits(re, rules, msg) <==>
            exists i :: 0 <= i < |rules| && !rules[i].Default? && Matches(re, rules[i], msg) && rules[i].agentId == agent
    ensures Hits(re, rules, msg) == [] <==>
            forall i :: 0 <= i < |rules| && !rules[i].Default? ==> !Matches(re, rules[i], msg)
  {
    if rules == [] {
    } else {
      var rest := rules[1..];
      HitsAre(re, rest, msg, agent);
      assert forall i :: 1 <= i < |rules| ==> rules[i] == rest[i - 1];
      if i :| 0 <= i < |rest| && !rest[i].Default? && Matches(re, rest[i], msg) && rest[i].agentId == agent {
        assert rules[i + 1] == rest[i];
      }
      if i :| 0 <= i < |rest| && !rest[i].Default? && Matches(re, rest[i], msg) {
        assert rules[i + 1] == rest[i];
      }
    }
  }

  function ExplicitRules(rules: seq<Rule>): seq<Rule> {
    if rules == [] then []
    else (if rules[0].Default? then [] else [rules[0]]) + ExplicitRules(rules[1..])
  }

  lemma {:induction false} HitsOfExplicit(re: Regex, rules: seq<Rule>, msg: ChannelMessage)
    ensures Hits(re, rules, msg) == Hits(re, ExplicitRules(rules), msg)
  {
    if rules == [] {
    } else {
      var rest := ExplicitRules(rules[1..]);
      HitsOfExplicit(re, rules[1..], msg);
      HitsCons(re, rules[0], rest, msg);
      assert ExplicitRules(rules) == if rules[0].Default? then rest else [rules[0]] + rest;
    }
  }

  /** Where the Default rules stand does not matter: only their own order and that of the others do. */
  lemma DefaultPositionIsIrrelevant(re: Regex, a: seq<Rule>, b: seq<Rule>, msg: ChannelMessage)
    requires ExplicitRules(a) == ExplicitRules(b) && Defaults(a) == Defaults(b)
    ensures RouteSpec(re, a, msg) == RouteSpec(re, b, msg)
    ensures BroadcastSpec(re, a, msg) == BroadcastSpec(re, b, msg)
  {
    HitsOfExplicit(re, a, msg);
    HitsOfExplicit(re, b, msg);
  }

  function Dropping(s: seq<string>, agent: string): seq<string> {
    if s == [] then [] else (if s[0] == agent then [] else [s[0]]) + Dropping(s[1..], agent)
  }

  lemma DroppingCons(x: string, s: seq<string>, agent: string)
    ensures Dropping([x] + s, agent) == if x == agent then Dropping(s, agent) else [x] + Dropping(s, agent)
    ensures Dropping([] + s, agent) == Dropping(s, agent)
  {
    assert ([x] + s)[1..] == s && [] + s == s;
  }

  lemma {:induction false} HitsWithoutAgent(re: Regex, rules: seq<Rule>, agent: string, msg: ChannelMessage)
    ensures Hits(re, WithoutAgent(rules, agent), msg) == Dropping(Hits(re, rules, msg), agent)
    ensures Defaults(WithoutAgent(rules, agent)) == Dropping(Defaults(rules), agent)
  {
    if rules == [] {
    } else {
      var kept := WithoutAgent(rules[1..], agent);
      HitsWithoutAgent(re, rules[1..], agent, msg);
      HitsCons(re, rules[0], kept, msg);
      assert WithoutAgent(rules, agent) == if rules[0].agentId == agent then kept else [rules[0]] + kept;
      DroppingCons(rules[0].agentId, Hits(re, rules[1..], msg), agent);
      DroppingCons(rules[0].agentId, Defaults(rules[1..]), agent);
    }
  }

  lemma {:induction false} DroppingSnoc(s: seq<string>, x: string, agent: string)
    ensures Dropping(s + [x], agent) == if x == agent then Dropping(s, agent) else Dropping(s, agent) + [x]
  {
    if s == [] {
      assert s + [x] == [x] + [];
      DroppingCons(x, [], agent);
    } else {
      assert s + [x] == [s[0]] + (s[1..] + [x]);
      DroppingSnoc(s[1..], x, agent);
      DroppingCons(s[0], s[1..] + [x], agent);
    }
  }

  lemma {:induction false} DroppingKeeps(s: seq<string>, agent: string, x: string)
    ensures x in Dropping(s, agent) <==> x in s && x != agent
  {
    if s == [] {
    } else {
      DroppingKeeps(s[1..], agent, x);
      assert s == [s[0]] + s[1..];
      DroppingCons(s[0], s[1..], agent);
    }
  }

  lemma DroppingProperties(s: seq<string>, agent: string)
    ensures agent !in Dropping(s, agent)
    ensures s != [] && s[0] != agent ==> Dropping(s, agent) != [] && Dropping(s, agent)[0] == s[0]
    ensures s != [] && s[|s| - 1] != agent ==> LastOf(Dropping(s, agent)) == LastOf(s)
    ensures s == [] ==> Dropping(s, agent) == []
  {
    DroppingKeeps(s, agent, agent);
    if s != [] {
      assert s == s[..|s| - 1] + [s[|s| - 1]];
      DroppingSnoc(s[..|s| - 1], s[|s| - 1], agent);
    }
  }

  lemma {:induction false} UniqueDropping(s: seq<string>, agent: string)
    ensures Unique(Dropping(s, agent)) == Dropping(Unique(s), agent)
  {
    if s == [] {
    } else {
      var front, last := s[..|s| - 1], s[|s| - 1];
      assert s == front + [last];
      UniqueDropping(front, agent);
      UniqueSnoc(front, last);
      DroppingSnoc(front, last, agent);
      DroppingSnoc(Unique(front), last, agent);
      DroppingKeeps(Unique(front), agent, last);
      if last != agent {
        UniqueSnoc(Dropping(front, agent), last);
      }
    }
  }

  /** Removing an agent's rules takes that agent, and nothing else, out of a broadcast that still has an
      explicit match; otherwise the last Default that remains gets the message. No message reaches the
      removed agent, and every message that was routed to another one still is. */
  lemma RemovalLaw(re: Regex, rules: seq<Rule>, agent: string, msg: ChannelMessage)
    ensures var kept := WithoutAgent(rules, agent);
            var before, after := RouteSpec(re, rules, msg), RouteSpec(re, kept, msg);
            var all, left := BroadcastSpec(re, rules, msg), BroadcastSpec(re, kept, msg);
            && after != Some(agent) && agent !in left
            && (before != Some(agent) ==> after == before)
            && (Hits(re, kept, msg) != [] ==> left == Dropping(all, agent))
            && (Hits(re, kept, msg) == [] ==>
                  left == match LastOf(Dropping(Defaults(rules), agent)) case Some(last) => [last] case None => [])
  {
    var hits := Hits(re, rules, msg);
    HitsWithoutAgent(re, rules, agent, msg);
    DroppingProperties(hits, agent);
    DroppingProperties(Defaults(rules), agent);
    UniqueDropping(hits, agent);
    UniqueProperties(Dropping(hits, agent));
  }

  // ---- the deduplicating wrapper ----

  class DeduplicatingRouter {
    const inner: ChannelRouter
    var seen: Dedup.Cache
    var callCount: nat
    const ttl: nat
    const gcInterval: nat

    constructor (inner: ChannelRouter, ttl: nat, gcInterval: nat)
      ensures this.inner == inner && this.ttl == ttl && this.gcInterval == gcInterval
      ensures seen == map[] && callCount == 0
    {
      this.inner := inner;
      this.ttl := ttl;
      this.gcInterval := gcInterval;
      seen, callCount := map[], 0;
    }

    /** True for a duplicate. */
    method IsDuplicate(id: string, now: int) returns (duplicate: bool)
      requires gcInterval > 0
      modifies this`seen, this`callCount
      ensures (!duplicate, seen) == Dedup.Check(old(seen), ttl, id, now, old(callCount) % gcInterval == 0)
      ensures callCount == (old(callCount) + 1) % Dedup.COUNTER_RANGE
    {
      var prev := callCount;
      callCount := (callCount + 1) % Dedup.COUNTER_RANGE;
      if prev % gcInterval == 0 {
        seen := Dedup.Sweep(seen, ttl, now);
      }
      if id in seen && Dedup.Since(now, seen[id]) < ttl {
        return true;
      }
      seen := seen[id := now];
      return false;
    }

    /** None for a duplicate, and for a message no rule matches; the id is recorded either way. */
    method Route(msg: ChannelMessage, now: int) returns (r: Option<string>)
      requires gcInterval > 0
      modifies this`seen, this`callCount
      ensures var (isNew, seen') := Dedup.Check(old(seen), ttl, msg.id, now, old(callCount) % gcInterval == 0);
              seen == seen' && r == if isNew then RouteSpec(inner.re, inner.rules, msg) else None
      ensures callCount == (old(callCount) + 1) % Dedup.COUNTER_RANGE
    {
      var duplicate := IsDuplicate(msg.id, now);
      if duplicate {
        return None;
      }
      r := inner.Route(msg);
    }

    method BroadcastRoute(msg: ChannelMessage, now: int) returns (agents: seq<string>)
      requires gcInterval > 0
      modifies this`seen, this`callCount
      ensures var (isNew, seen') := Dedup.Check(old(seen), ttl, msg.id, now, old(callCount) % gcInterval == 0);
              seen == seen' && agents == if isNew then BroadcastSpec(inner.re, inner.rules, msg) else []
      ensures callCount == (old(callCount) + 1) % Dedup.COUNTER_RANGE
    {
      var duplicate := IsDuplicate(msg.id, now);
      if duplicate {
        return [];
      }
      agents := inner.BroadcastRoute(msg);
    }
  }
}
