/**
 Paired histories: every tool call requested is answered at once, in order, before anything else is
 said. Which requests and which final histories of a run are paired.
 */
module AgentPairing {
  import opened Base
  import opened Chat
  import Retry
  import opened AgentSpec
  import opened AgentLaws

  /** Each message that requests calls is followed directly by one result per call, in order. */
  ghost predicate Paired(h: seq<Message>)
    decreases |h|
  {
    h == [] ||
    var calls := CallsOf(h[0]);
    |calls| < |h| && AnswersFor(h[1..1 + |calls|], calls) && Paired(h[1 + |calls|..])
  }

  /** A message that is no tool result separates what comes before it from the rest. */
  lemma {:induction false} PairedApart(a: seq<Message>, m: Message, rest: seq<Message>)
    requires m.role != Tool
    ensures Paired(a + [m] + rest) <==> Paired(a) && Paired([m] + rest)
    decreases |a|
  {
    var h := a + [m] + rest;
    if a == [] {
      assert h == [m] + rest;
    } else {
      var n := |CallsOf(a[0])|;
      if n < |a| {
        assert h[1..1 + n] == a[1..1 + n];
        assert h[1 + n..] == a[1 + n..] + [m] + rest;
        PairedApart(a[1 + n..], m, rest);
      } else if n < |h| {
        var window := h[1..1 + n];
        assert window[|a| - 1] == m;
        assert !AnswersFor(window, CallsOf(a[0]));
      }
    }
  }

  /** One turn is paired exactly when all its calls are answered. */
  lemma TurnPairedIff(t: Turn, answered: seq<ToolCall>)
    requires answered <= CallsOf(t.reply) && AnswersFor(t.answers, answered)
    ensures Paired(TurnMessages(t)) <==> |answered| == |CallsOf(t.reply)|
  {
    var h, calls := TurnMessages(t), CallsOf(t.reply);
    assert h[1..] == t.answers;
    if |answered| == |calls| {
      assert answered == calls && h[1..1 + |calls|] == t.answers && h[1 + |calls|..] == [];
    }
  }

  lemma FinalTurnPairedIff(t: Turn)
    requires t.answers == []
    ensures Paired(TurnMessages(t)) <==> CallsOf(t.reply) == []
  {
    TurnPairedIff(t, []);
  }

  ghost predicate TurnsPaired(log: seq<Turn>) {
    forall i :: 0 <= i < |log| ==> Paired(TurnMessages(log[i]))
  }

  lemma TurnsPairedLast(log: seq<Turn>)
    requires log != []
    ensures TurnsPaired(log) <==> TurnsPaired(log[..|log| - 1]) && Paired(TurnMessages(log[|log| - 1]))
  {
    var n := |log| - 1;
    if TurnsPaired(log[..n]) && Paired(TurnMessages(log[n])) {
      forall i | 0 <= i < |log|
        ensures Paired(TurnMessages(log[i]))
      {
        assert i < n ==> log[..n][i] == log[i];
      }
    }
  }

  ghost predicate AssistantLog(log: seq<Turn>) {
    forall i :: 0 <= i < |log| ==> log[i].reply.role == Assistant
  }

  lemma {:induction false} LogPairedIff(h0: seq<Message>, log: seq<Turn>)
    requires AssistantLog(log)
    ensures Paired(h0 + FlatMap(log, TurnMessages)) <==> Paired(h0) && TurnsPaired(log)
  {
    if log == [] {
      assert h0 + [] == h0;
    } else {
      var n := |log| - 1;
      var t := log[n];
      var before := h0 + FlatMap(log[..n], TurnMessages);
      LogPairedIff(h0, log[..n]);
      assert log[..n] + [t] == log;
      HistoryGrows(h0, log[..n], t);
      PairedApart(before, t.reply, t.answers);
      assert h0 + FlatMap(log, TurnMessages) == before + [t.reply] + t.answers;
      TurnsPairedLast(log);
    }
  }

  /** The user message belongs to no pair. */
  lemma UserMessageApart(history: seq<Message>, message: string)
    ensures Paired(history + [UserMessage(message)]) <==> Paired(history)
  {
    var m := UserMessage(message);
    PairedApart(history, m, []);
    assert history + [m] + [] == history + [m] && [m] + [] == [m];
    assert [m][1..1] == [] && [m][1..] == [];
  }

  // ---- the replies of a run ----

  /** The provider answers with assistant messages. */
  ghost predicate AssistantReplies(env: Env, d: Driver) {
    forall c :: Ask(env, d, c).Answer? ==> Ask(env, d, c).reply.role == Assistant
  }

  /** A stream is always put together to an assistant message; a completion has the provider's role. */
  lemma RepliesAreAssistant(env: Env, d: Driver)
    requires d.Streaming? || forall h, n: nat :: env.completeInner(h, n).Ok? ==> env.completeInner(h, n).value.message.role == Assistant
    ensures AssistantReplies(env, d)
  {
    if d.Blocking? {
      forall c | Ask(env, d, c).Answer?
        ensures Ask(env, d, c).reply.role == Assistant
      {
        SomeRequestAnswered(env, c.history, LOOP_RETRY.maxRetries, 0, c.queried);
      }
    }
  }

  /** A successful completion is the outcome of one of its requests. */
  lemma {:induction false} SomeRequestAnswered(env: Env, history: seq<Message>, retries: nat, attempt: nat, at: nat)
    requires attempt <= retries
    ensures var (r, _) := Retry.Attempts(ProviderComplete(env, history), LoopRetryable, retries, attempt, at);
            r.Ok? ==> exists n: nat :: env.completeInner(history, n) == r
    decreases retries - attempt
  {
    var f := (n: nat) => env.completeInner(history, n);
    var retryable := (e: ProviderError) => IsRetryableError(e, env.providerRetry);
    var (r, next) := ProviderComplete(env, history)(at);
    Retry.FirstDecisiveOutcome(f, retryable, env.providerRetry.maxRetries, 0, at);
    assert r == env.completeInner(history, next - 1);
    if r.Err? && attempt < retries && LoopRetryable(r.error) {
      SomeRequestAnswered(env, history, retries, attempt + 1, next);
    }
  }

  lemma {:induction false} LogIsAssistant(env: Env, cfg: Config, d: Driver, c: Conf)
    requires AssistantReplies(env, d) && AssistantLog(c.log)
    ensures AssistantLog(LoopFrom(env, cfg, d, c).conf.log)
    decreases Max(cfg.maxTurns - c.ls.turn, 0)
  {
    var s := Advance(env, cfg, d, c);
    if s.Again? {
      LogIsAssistant(env, cfg, d, s.conf);
    }
  }

  lemma {:induction false} ReachedLogIsAssistant(env: Env, cfg: Config, d: Driver, c: Conf, c': Conf)
    requires AssistantReplies(env, d) && AssistantLog(c.log) && Reaches(env, cfg, d, c, c')
    ensures AssistantLog(c'.log)
    decreases Max(cfg.maxTurns - c.ls.turn, 0)
  {
    if c != c' {
      ReachesNext(env, cfg, d, c, c');
      ReachedLogIsAssistant(env, cfg, d, Advance(env, cfg, d, c).conf, c');
    }
  }

  // ---- the theorems ----

  /** The turn's calls fit the limit, or there is none. */
  predicate WithinLimit(env: Env, cfg: Config, t: Turn) {
    !env.hasRegistry || |CallsOf(t.reply)| <= cfg.maxToolCallsPerTurn
  }

  ghost predicate AllWithinLimit(env: Env, cfg: Config, log: seq<Turn>) {
    forall i :: 0 <= i < |log| ==> WithinLimit(env, cfg, log[i])
  }

  lemma AnsweredTurnsPairedIff(env: Env, cfg: Config, log: seq<Turn>)
    requires AllAnswered(env, cfg, log)
    ensures TurnsPaired(log) <==> AllWithinLimit(env, cfg, log)
  {
    forall i | 0 <= i < |log|
      ensures Paired(TurnMessages(log[i])) <==> WithinLimit(env, cfg, log[i])
    {
      assert Answered(env, cfg, log[i]);
      var calls := CallsOf(log[i].reply);
      TurnPairedIff(log[i], calls[..AnsweredCount(env, cfg, |calls|)]);
    }
  }

  /** The history at every loop head of a run, which is the one its next request carries, is paired
      exactly when the history before the run was and no turn so far exceeded the limit. */
  lemma RequestsPairedIff(env: Env, cfg: Config, d: Driver, history: seq<Message>, message: string, queried: nat, c: Conf)
    requires AssistantReplies(env, d)
    requires Reaches(env, cfg, d, Initial(history, message, queried), c)
    ensures Paired(c.history) <==> Paired(history) && AllWithinLimit(env, cfg, c.log)
  {
    var h0, start := history + [UserMessage(message)], Initial(history, message, queried);
    InitialHeadInv(env, cfg, history, message, queried);
    ReachedHeads(env, cfg, d, h0, start, c);
    ReachedLogIsAssistant(env, cfg, d, start, c);
    LogPairedIff(h0, c.log);
    AnsweredTurnsPairedIff(env, cfg, c.log);
    UserMessageApart(history, message);
  }

  /** The last reply of a run that ended on one requested nothing. */
  ghost predicate NothingLeftOpen(e: End)
    requires Ended(e)
  {
    e.result.Ok? && !StoppedAtHead(e.result.value) ==> CallsOf(e.conf.log[|e.conf.log| - 1].reply) == []
  }

  lemma EndTurnsPairedIff(env: Env, cfg: Config, h0: seq<Message>, e: End)
    requires HistoryShape(env, cfg, h0, e)
    ensures TurnsPaired(e.conf.log) <==> AllWithinLimit(env, cfg, FullTurns(e)) && NothingLeftOpen(e)
  {
    var log := e.conf.log;
    AnsweredTurnsPairedIff(env, cfg, FullTurns(e));
    if e.result.Ok? && !StoppedAtHead(e.result.value) {
      TurnsPairedLast(log);
      FinalTurnPairedIff(log[|log| - 1]);
      assert FullTurns(e) == log[..|log| - 1];
    } else {
      assert FullTurns(e) == log;
    }
  }

  /** What a run leaves to the next one is paired exactly when it began with a paired history, no turn
      exceeded the limit, and it did not stop on a reply that requested calls: by the token budget, or
      with tool use switched off. */
  lemma FinalHistoryPairedIff(env: Env, cfg: Config, d: Driver, history: seq<Message>, message: string, queried: nat)
    requires AssistantReplies(env, d)
    ensures var e := RunSpec(env, cfg, d, history, message, queried);
            && Ended(e)
            && (Paired(e.conf.history) <==>
                Paired(history) && AllWithinLimit(env, cfg, FullTurns(e)) && NothingLeftOpen(e))
  {
    var h0 := history + [UserMessage(message)];
    var e := RunSpec(env, cfg, d, history, message, queried);
    HistoryLaw(env, cfg, d, history, message, queried);
    LogIsAssistant(env, cfg, d, Initial(history, message, queried));
    LogPairedIff(h0, e.conf.log);
    UserMessageApart(history, message);
    EndTurnsPairedIff(env, cfg, h0, e);
  }

  /** When it did stop on such a reply, or with tool use off, that is why. */
  lemma LeftOpenWhen(env: Env, cfg: Config, d: Driver, history: seq<Message>, message: string, queried: nat)
    ensures var e := RunSpec(env, cfg, d, history, message, queried);
            Ended(e) && (!NothingLeftOpen(e) ==> e.result.value.finishReason == TokenBudget || !cfg.toolUseEnabled)
  {
    HistoryLaw(env, cfg, d, history, message, queried);
  }

  /** An environment whose provider always requests the same two calls. */
  function TwoCallsEnv(a: ToolCall, b: ToolCall): Env {
    Env((h: seq<Message>, n: nat) => Ok(Response(AssistantMessage("", [a, b]), NO_USAGE)), RetryConfig(0, {}),
        (h: seq<Message>) => OpenFailed(Permanent("")), true, (s: string) => Ok(""),
        (h: seq<Message>, name: string, json: string) => Ok(""), (id: string, m: string) => "", (m: string) => "",
        [], (e: ProviderError) => "")
  }

  lemma TwoCallsAnswered(a: ToolCall, b: ToolCall, c: Conf)
    requires c.ls.turn == 0
    ensures var env, cfg := TwoCallsEnv(a, b), Config(1, 0, true, 1);
            var s := Advance(env, cfg, Blocking, c);
            && s.Again? && s.conf.ls.turn == 1 && s.conf.ls.usage == Plus(c.ls.usage, NO_USAGE)
            && s.conf.calls == c.calls + [a, b]
            && s.conf.history == c.history + [AssistantMessage("", [a, b]), ToolResultMessage(a.id, "")]
  {
    var env, cfg := TwoCallsEnv(a, b), Config(1, 0, true, 1);
    assert HeadGuard(env, cfg, c.ls) == None;
    assert [a, b][..1] == [a];
    assert AnsweredCalls(env, cfg, [a, b]) == [a];
    assert Answers(env, c.history + [AssistantMessage("", [a, b])], [a]) == [ToolResultMessage(a.id, "")];
  }

  /** The failing side on one run: with one call allowed per turn and two requested, both are reported,
      one is answered, and the history left is not paired. */
  lemma LimitLeavesCallsOpen(a: ToolCall, b: ToolCall, message: string)
    ensures var env, cfg := TwoCallsEnv(a, b), Config(1, 0, true, 1);
            var e := RunSpec(env, cfg, Blocking, [], message, 0);
            && e.result.Ok? && e.result.value.finishReason == MaxTurns && e.result.value.toolCalls == [a, b]
            && e.conf.history == [UserMessage(message), AssistantMessage("", [a, b]), ToolResultMessage(a.id, "")]
            && !Paired(e.conf.history)
  {
    var env, cfg := TwoCallsEnv(a, b), Config(1, 0, true, 1);
    var start := Initial([], message, 0);
    TwoCallsAnswered(a, b, start);
    var next := Advance(env, cfg, Blocking, start).conf;
    assert HeadGuard(env, cfg, next.ls) == Some(MaxTurns);
    assert LoopFrom(env, cfg, Blocking, next) == StopAtHead(Blocking, next, MaxTurns);
    var h := [UserMessage(message), AssistantMessage("", [a, b]), ToolResultMessage(a.id, "")];
    assert next.history == h;
    assert h[1..1] == [] && h[1..] == [AssistantMessage("", [a, b]), ToolResultMessage(a.id, "")];
    assert !Paired(h[1..]);
  }
}
