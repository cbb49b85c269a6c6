/**
 What the rule router answers, told on the rules themselves: which rule decides, and in which order a
 broadcast names its agents.
 */
module RoutingLaws {
  import opened Base
  import opened Routing

  /** An explicit rule names the message: its channel, its sender, or a pattern its content matches. */
  predicate Selects(re: Regex, rule: Rule, msg: ChannelMessage) {
    || (rule.ByChannelId? && rule.channelId == msg.channelId)
    || (rule.BySenderId? && Some(rule.senderId) == msg.senderId)
    || (rule.ByPattern? && re(rule.pattern, msg.content))
  }

  /** None of the first `n` rules names the message. */
  predicate NoneSelects(re: Regex, rules: seq<Rule>, n: nat, msg: ChannelMessage)
    requires n <= |rules|
  {
    forall i :: 0 <= i < n ==> !Selects(re, rules[i], msg)
  }

  lemma HitsNoneIff(re: Regex, rules: seq<Rule>, n: nat, msg: ChannelMessage)
    requires n <= |rules|
    ensures Hits(re, rules[..n], msg) == [] <==> NoneSelects(re, rules, n, msg)
  {
    HitsAre(re, rules[..n], msg, "");
    assert forall i :: 0 <= i < n ==> rules[..n][i] == rules[i];
  }

  /** The first rule that names the message decides. */
  lemma FirstRuleDecides(re: Regex, rules: seq<Rule>, i: nat, msg: ChannelMessage)
    requires i < |rules| && Selects(re, rules[i], msg) && NoneSelects(re, rules, i, msg)
    ensures RouteSpec(re, rules, msg) == Some(rules[i].agentId)
  {
    HitsNoneIff(re, rules, i, msg);
    HitsStep(re, rules, i, msg);
    HitsAppend(re, rules[..i + 1], rules[i + 1..], msg);
    assert rules[..i + 1] + rules[i + 1..] == rules;
  }

  /** The Defaults from `i` on begin with that of rule `i`, if it is one. */
  lemma {:induction false} LastDefault(rules: seq<Rule>, i: nat)
    requires i < |rules| && rules[i].Default? && forall j :: i < j < |rules| ==> !rules[j].Default?
    ensures LastOf(Defaults(rules)) == Some(rules[i].agentId)
  {
    if i == 0 {
      NoDefaults(rules[1..]);
    } else {
      LastDefault(rules[1..], i - 1);
    }
  }

  lemma {:induction false} NoDefaults(rules: seq<Rule>)
    requires forall j :: 0 <= j < |rules| ==> !rules[j].Default?
    ensures Defaults(rules) == []
  {
    if rules == [] {
    } else {
      NoDefaults(rules[1..]);
    }
  }

  /** When no rule names the message, the last Default gets it, alone. */
  lemma LastDefaultDecides(re: Regex, rules: seq<Rule>, i: nat, msg: ChannelMessage)
    requires NoneSelects(re, rules, |rules|, msg)
    requires i < |rules| && rules[i].Default? && forall j :: i < j < |rules| ==> !rules[j].Default?
    ensures RouteSpec(re, rules, msg) == Some(rules[i].agentId)
    ensures BroadcastSpec(re, rules, msg) == [rules[i].agentId]
  {
    HitsNoneIff(re, rules, |rules|, msg);
    assert rules[..|rules|] == rules;
    LastDefault(rules, i);
  }

  /** And without a Default nobody does. */
  lemma NobodyDecides(re: Regex, rules: seq<Rule>, msg: ChannelMessage)
    requires NoneSelects(re, rules, |rules|, msg) && forall j :: 0 <= j < |rules| ==> !rules[j].Default?
    ensures RouteSpec(re, rules, msg) == None && BroadcastSpec(re, rules, msg) == []
  {
    HitsNoneIff(re, rules, |rules|, msg);
    assert rules[..|rules|] == rules;
    NoDefaults(rules);
  }

  // ---- the order of a broadcast ----

  /** The agents named after the first `n` rules. */
  function Named(re: Regex, rules: seq<Rule>, n: nat, msg: ChannelMessage): seq<string>
    requires n <= |rules|
  {
    Unique(Hits(re, rules[..n], msg))
  }

  lemma {:induction false} NamedGrows(re: Regex, rules: seq<Rule>, m: nat, n: nat, msg: ChannelMessage)
    requires m <= n <= |rules|
    ensures Named(re, rules, m, msg) <= Named(re, rules, n, msg)
  {
    if m == n {
    } else {
      NamedGrows(re, rules, m, n - 1, msg);
      BroadcastStep(re, rules, n - 1, msg);
    }
  }

  lemma NamedIff(re: Regex, rules: seq<Rule>, n: nat, msg: ChannelMessage, agent: string)
    requires n <= |rules|
    ensures agent in Named(re, rules, n, msg)
       <==> exists i :: 0 <= i < n && Selects(re, rules[i], msg) && rules[i].agentId == agent
  {
    UniqueProperties(Hits(re, rules[..n], msg));
    HitsAre(re, rules[..n], msg, agent);
    assert forall i :: 0 <= i < n ==> rules[..n][i] == rules[i];
    if agent in Named(re, rules, n, msg) {
      var i :| 0 <= i < n && !rules[..n][i].Default? && Matches(re, rules[..n][i], msg) && rules[..n][i].agentId == agent;
      assert Selects(re, rules[i], msg);
    }
  }

  /** Rule `i` is the first to name the message for its agent. */
  ghost predicate FirstFor(re: Regex, rules: seq<Rule>, i: nat, msg: ChannelMessage) {
    && i < |rules| && Selects(re, rules[i], msg)
    && forall k :: 0 <= k < i && rules[k].agentId == rules[i].agentId ==> !Selects(re, rules[k], msg)
  }

  /** Agents are named in the order of the rules that first name the message for them. */
  lemma BroadcastOrder(re: Regex, rules: seq<Rule>, i: nat, j: nat, msg: ChannelMessage)
    requires i < j && FirstFor(re, rules, i, msg) && FirstFor(re, rules, j, msg)
    ensures var all := BroadcastSpec(re, rules, msg);
            exists p, q :: 0 <= p < q < |all| && all[p] == rules[i].agentId && all[q] == rules[j].agentId
  {
    var before, all := Named(re, rules, j, msg), BroadcastSpec(re, rules, msg);
    HitsNoneIff(re, rules, |rules|, msg);
    assert rules[..|rules|] == rules;
    assert all == Named(re, rules, |rules|, msg);
    NamedIff(re, rules, j, msg, rules[i].agentId);
    NamedIff(re, rules, j, msg, rules[j].agentId);
    BroadcastStep(re, rules, j, msg);
    assert Named(re, rules, j + 1, msg) == before + [rules[j].agentId];
    NamedGrows(re, rules, j + 1, |rules|, msg);
    var p :| 0 <= p < |before| && before[p] == rules[i].agentId;
    assert all[p] == (before + [rules[j].agentId])[p] && all[|before|] == (before + [rules[j].agentId])[|before|];
  }
}
