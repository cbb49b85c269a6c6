/**
 Laws of whole runs, for both drivers: the broadcast trace, the shape of the history, token
 accounting, and the bounds on turns and provider requests.
 */
module AgentLaws {
  import opened Base
  import opened Chat
  import opened StateMachines
  import opened Retry
  import opened AgentSpec

  // ---- what the log says ----

  function TurnMessages(t: Turn): seq<Message> {
    [t.reply] + t.answers
  }

  function TurnCalls(t: Turn): seq<ToolCall> {
    CallsOf(t.reply)
  }

  function PromptTokens(u: TokenUsage): nat {
    u.prompt
  }

  function CompletionTokens(u: TokenUsage): nat {
    u.completion
  }

  function TotalTokens(u: TokenUsage): nat {
    u.total
  }

  function SumOf(log: seq<Turn>, tokens: TokenUsage -> nat): nat {
    if log == [] then 0 else SumOf(log[..|log| - 1], tokens) + tokens(log[|log| - 1].usage)
  }

  /** Each count summed on its own. */
  function SumUsage(log: seq<Turn>): TokenUsage {
    TokenUsage(SumOf(log, PromptTokens), SumOf(log, CompletionTokens), SumOf(log, TotalTokens))
  }

  /** The messages are tool results for exactly these calls, in order. */
  ghost predicate AnswersFor(answers: seq<Message>, calls: seq<ToolCall>) {
    && |answers| == |calls|
    && forall i :: 0 <= i < |calls| ==>
         answers[i].role == Tool && answers[i].toolCallId == Some(calls[i].id) && answers[i].toolCalls == None
  }

  /** How many of `n` calls get a result. */
  function AnsweredCount(env: Env, cfg: Config, n: nat): (k: nat)
    ensures k <= n
  {
    if env.hasRegistry then Min(n, cfg.maxToolCallsPerTurn) else n
  }

  /** A turn that the loop went on from: the reply has calls, tool use is on, and the calls that fit the
      limit are answered once each, in order. */
  ghost predicate Answered(env: Env, cfg: Config, t: Turn) {
    var calls := CallsOf(t.reply);
    calls != [] && cfg.toolUseEnabled && AnswersFor(t.answers, calls[..AnsweredCount(env, cfg, |calls|)])
  }

  ghost predicate AllAnswered(env: Env, cfg: Config, log: seq<Turn>) {
    forall i :: 0 <= i < |log| ==> Answered(env, cfg, log[i])
  }

  /** The states broadcast by `n` tool turns. */
  function Rounds(n: nat): seq<AgentState> {
    if n == 0 then [] else Rounds(n - 1) + [AwaitingLLM, ToolExecuting, Running]
  }

  function ExecutedCalls(env: Env, log: seq<Turn>): seq<ToolCall> {
    if env.hasRegistry then FlatMap(log, TurnCalls) else []
  }

  // ---- invariant at every loop head ----

  ghost predicate HeadInv(env: Env, cfg: Config, h0: seq<Message>, c: Conf) {
    && c.history == h0 + FlatMap(c.log, TurnMessages)
    && AllAnswered(env, cfg, c.log)
    && c.ls.turn == |c.log| <= cfg.maxTurns
    && c.ls.usage == SumUsage(c.log)
    && c.ls.historyLen == (if c.log == [] then 0 else |c.history|)
    && (cfg.tokenBudget > 0 ==> c.ls.usage.total < cfg.tokenBudget)
    && c.calls == ExecutedCalls(env, c.log)
    && c.trace == [Running] + Rounds(|c.log|)
  }

  // ---- what holds of every end ----

  ghost predicate StoppedAtHead(r: AgentResult) {
    r.finishReason == StopCondition || r.finishReason == MaxTurns
  }

  /** The turns of the log that were followed by another loop head. */
  ghost function FullTurns(e: End): seq<Turn>
    requires e.result.Ok? && !StoppedAtHead(e.result.value) ==> e.conf.log != []
  {
    var log := e.conf.log;
    if e.result.Ok? && !StoppedAtHead(e.result.value) then log[..|log| - 1] else log
  }

  ghost predicate Ended(e: End) {
    e.result.Ok? && !StoppedAtHead(e.result.value) ==> e.conf.log != []
  }

  ghost predicate TraceShape(e: End) {
    && Ended(e)
    && e.conf.trace == [Running] + Rounds(|FullTurns(e)|) +
         if e.result.Err? then [AwaitingLLM, AgentState.Error]
         else if StoppedAtHead(e.result.value) then [Completed]
         else [AwaitingLLM, Running, Completed]
  }

  ghost predicate HistoryShape(env: Env, cfg: Config, h0: seq<Message>, e: End) {
    && Ended(e)
    && e.conf.history == h0 + FlatMap(e.conf.log, TurnMessages)
    && AllAnswered(env, cfg, FullTurns(e))
    && (e.result.Ok? ==>
          var r := e.result.value;
          var log := e.conf.log;
          && r.toolCalls == ExecutedCalls(env, FullTurns(e))
          && r.lastMessage == LastMessage(e.conf.history) && r.content == ContentOf(r.lastMessage)
          && (!StoppedAtHead(r) ==> log[|log| - 1].answers == [])
          && (r.finishReason == Stop ==> CallsOf(log[|log| - 1].reply) == [] || !cfg.toolUseEnabled))
  }

  ghost predicate AccountShape(env: Env, cfg: Config, e: End) {
    && Ended(e)
    && (cfg.tokenBudget > 0 ==> SumUsage(FullTurns(e)).total < cfg.tokenBudget)
    && match e.result
       case Err(x) => x.Provider? && |e.conf.log| < cfg.maxTurns
       case Ok(r) =>
         && r.usage == SumUsage(e.conf.log)
         && r.turns == |e.conf.log| <= cfg.maxTurns
         && (r.finishReason == MaxTurns ==> r.turns == cfg.maxTurns)
         && (r.finishReason == TokenBudget <==> cfg.tokenBudget > 0 && r.usage.total >= cfg.tokenBudget)
         && (r.finishReason == StopCondition ==>
               exists i :: 0 <= i < |env.stopConditions| && env.stopConditions[i](e.conf.ls))
  }

  ghost predicate EndShape(env: Env, cfg: Config, h0: seq<Message>, e: End) {
    TraceShape(e) && HistoryShape(env, cfg, h0, e) && AccountShape(env, cfg, e)
  }

  lemma LogGrows(log: seq<Turn>, t: Turn)
    ensures FlatMap(log + [t], TurnMessages) == FlatMap(log, TurnMessages) + TurnMessages(t)
    ensures FlatMap(log + [t], TurnCalls) == FlatMap(log, TurnCalls) + TurnCalls(t)
    ensures SumUsage(log + [t]) == Plus(SumUsage(log), t.usage)
    ensures (log + [t])[..|log|] == log
  {
    FlatMapSnoc(log, t, TurnMessages);
    FlatMapSnoc(log, t, TurnCalls);
    assert (log + [t])[..|log|] == log;
  }

  lemma HistoryGrows(h0: seq<Message>, log: seq<Turn>, t: Turn)
    ensures h0 + FlatMap(log + [t], TurnMessages) == h0 + FlatMap(log, TurnMessages) + [t.reply] + t.answers
  {
    FlatMapSnoc(log, t, TurnMessages);
  }

  lemma AnsweredTurn(env: Env, cfg: Config, history: seq<Message>, reply: Message, usage: TokenUsage)
    requires CallsOf(reply) != [] && cfg.toolUseEnabled
    ensures Answered(env, cfg, Turn(reply, usage, Answers(env, history, AnsweredCalls(env, cfg, CallsOf(reply)))))
  {
  }

  lemma AnsweredGrows(env: Env, cfg: Config, log: seq<Turn>, t: Turn)
    requires AllAnswered(env, cfg, log) && Answered(env, cfg, t)
    ensures AllAnswered(env, cfg, log + [t])
  {
  }

  lemma RoundsGrow(n: nat)
    ensures [Running] + Rounds(n) + [AwaitingLLM, ToolExecuting, Running] == [Running] + Rounds(n + 1)
  {
  }

  lemma ExecutedGrow(env: Env, log: seq<Turn>, t: Turn)
    ensures ExecutedCalls(env, log + [t])
         == if env.hasRegistry then ExecutedCalls(env, log) + CallsOf(t.reply) else ExecutedCalls(env, log)
  {
    FlatMapSnoc(log, t, TurnCalls);
  }

  lemma AgainKeepsHeadInv(env: Env, cfg: Config, d: Driver, h0: seq<Message>, c: Conf, a: Asked)
    requires HeadInv(env, cfg, h0, c) && HeadGuard(env, cfg, c.ls) == None
    requires a.Answer? && Settle(env, cfg, d, c, a).Again?
    ensures HeadInv(env, cfg, h0, WithAnswers(env, cfg, d, c, a))
  {
    var t := Turn(a.reply, a.usage, Answers(env, c.history + [a.reply], AnsweredCalls(env, cfg, CallsOf(a.reply))));
    assert WithAnswers(env, cfg, d, c, a).log == c.log + [t];
    HistoryGrows(h0, c.log, t);
    AnsweredTurn(env, cfg, c.history + [a.reply], a.reply, a.usage);
    AnsweredGrows(env, cfg, c.log, t);
    assert SumUsage(c.log + [t]) == Plus(SumUsage(c.log), t.usage) by {
      LogGrows(c.log, t);
    }
    ExecutedGrow(env, c.log, t);
    RoundsGrow(|c.log|);
  }

  lemma AdvanceKeepsHeadInv(env: Env, cfg: Config, d: Driver, h0: seq<Message>, c: Conf)
    requires HeadInv(env, cfg, h0, c) && Advance(env, cfg, d, c).Again?
    ensures HeadInv(env, cfg, h0, Advance(env, cfg, d, c).conf)
  {
    AgainKeepsHeadInv(env, cfg, d, h0, c, Ask(env, d, c));
  }

  /** The run stops with a reply that ends it for `reason`. */
  ghost predicate EndsWith(env: Env, cfg: Config, d: Driver, c: Conf, a: Asked, reason: FinishReason) {
    && HeadGuard(env, cfg, c.ls) == None && a.Answer?
    && Settle(env, cfg, d, c, a) == Halt(StopWithReply(d, c, a, reason))
    && (reason == TokenBudget <==> cfg.tokenBudget > 0 && c.ls.usage.total + a.usage.total >= cfg.tokenBudget)
    && (reason == Stop || reason == TokenBudget)
    && (reason == Stop ==> CallsOf(a.reply) == [] || !cfg.toolUseEnabled)
  }

  lemma ReplyHistoryShape(env: Env, cfg: Config, d: Driver, h0: seq<Message>, c: Conf, a: Asked, reason: FinishReason)
    requires HeadInv(env, cfg, h0, c) && EndsWith(env, cfg, d, c, a, reason)
    ensures HistoryShape(env, cfg, h0, StopWithReply(d, c, a, reason))
  {
    var e := StopWithReply(d, c, a, reason);
    var t := Turn(a.reply, a.usage, []);
    HistoryGrows(h0, c.log, t);
    assert e.conf.history + [] == e.conf.history;
    assert FullTurns(e) == c.log;
  }

  lemma ReplyAccountShape(env: Env, cfg: Config, d: Driver, h0: seq<Message>, c: Conf, a: Asked, reason: FinishReason)
    requires HeadInv(env, cfg, h0, c) && EndsWith(env, cfg, d, c, a, reason)
    ensures AccountShape(env, cfg, StopWithReply(d, c, a, reason))
  {
    LogGrows(c.log, Turn(a.reply, a.usage, []));
    assert FullTurns(StopWithReply(d, c, a, reason)) == c.log;
  }

  lemma ReplyEndShape(env: Env, cfg: Config, d: Driver, h0: seq<Message>, c: Conf, a: Asked, reason: FinishReason)
    requires HeadInv(env, cfg, h0, c) && EndsWith(env, cfg, d, c, a, reason)
    ensures EndShape(env, cfg, h0, StopWithReply(d, c, a, reason))
  {
    ReplyHistoryShape(env, cfg, d, h0, c, a, reason);
    ReplyAccountShape(env, cfg, d, h0, c, a, reason);
    assert FullTurns(StopWithReply(d, c, a, reason)) == c.log;
  }

  lemma HeadEndShape(env: Env, cfg: Config, d: Driver, h0: seq<Message>, c: Conf, reason: FinishReason)
    requires HeadInv(env, cfg, h0, c) && HeadGuard(env, cfg, c.ls) == Some(reason)
    ensures EndShape(env, cfg, h0, StopAtHead(d, c, reason))
  {
    assert reason != TokenBudget;
    assert FullTurns(StopAtHead(d, c, reason)) == c.log;
  }

  lemma AbortShape(env: Env, cfg: Config, h0: seq<Message>, c: Conf, a: Asked)
    requires HeadInv(env, cfg, h0, c) && HeadGuard(env, cfg, c.ls) == None && a.Failed?
    ensures EndShape(env, cfg, h0, Abort(env, c, a))
  {
    assert FullTurns(Abort(env, c, a)) == c.log;
  }

  lemma HaltShape(env: Env, cfg: Config, d: Driver, h0: seq<Message>, c: Conf)
    requires HeadInv(env, cfg, h0, c) && Advance(env, cfg, d, c).Halt?
    ensures EndShape(env, cfg, h0, Advance(env, cfg, d, c).end)
  {
    var guard := HeadGuard(env, cfg, c.ls);
    if guard.Some? {
      HeadEndShape(env, cfg, d, h0, c, guard.value);
    } else {
      var a := Ask(env, d, c);
      if a.Failed? {
        AbortShape(env, cfg, h0, c, a);
      } else {
        ReplyEndShape(env, cfg, d, h0, c, a,
                      if OverBudget(cfg, c.ls.usage.total + a.usage.total) then TokenBudget else Stop);
      }
    }
  }

  lemma {:induction false} EveryEndShape(env: Env, cfg: Config, d: Driver, h0: seq<Message>, c: Conf)
    requires HeadInv(env, cfg, h0, c)
    ensures EndShape(env, cfg, h0, LoopFrom(env, cfg, d, c))
    decreases Max(cfg.maxTurns - c.ls.turn, 0)
  {
    match Advance(env, cfg, d, c)
    case Halt(_) => HaltShape(env, cfg, d, h0, c);
    case Again(c') =>
      AdvanceKeepsHeadInv(env, cfg, d, h0, c);
      EveryEndShape(env, cfg, d, h0, c');
  }

  lemma InitialHeadInv(env: Env, cfg: Config, history: seq<Message>, message: string, queried: nat)
    ensures HeadInv(env, cfg, history + [UserMessage(message)], Initial(history, message, queried))
  {
    var h0 := history + [UserMessage(message)];
    assert h0 + [] == h0;
  }

  // ---- the theorems ----

  /** The broadcast trace of a run: tool rounds, then one of three endings. A run never ends in an
      invalid transition; Ok ends in Completed and a provider failure in Error. */
  lemma TraceLaw(env: Env, cfg: Config, d: Driver, history: seq<Message>, message: string, queried: nat)
    ensures var e := RunSpec(env, cfg, d, history, message, queried);
            && TraceShape(e)
            && (e.result.Err? ==> e.result.error.Provider?)
            && var last := e.conf.trace[|e.conf.trace| - 1];
               last == if e.result.Ok? then Completed else AgentState.Error
  {
    InitialHeadInv(env, cfg, history, message, queried);
    EveryEndShape(env, cfg, d, history + [UserMessage(message)], Initial(history, message, queried));
  }

  /** What a run appends: the user message, then per turn the reply and its tool results. */
  lemma HistoryLaw(env: Env, cfg: Config, d: Driver, history: seq<Message>, message: string, queried: nat)
    ensures HistoryShape(env, cfg, history + [Message(User, message, None, None)],
                         RunSpec(env, cfg, d, history, message, queried))
  {
    InitialHeadInv(env, cfg, history, message, queried);
    EveryEndShape(env, cfg, d, history + [UserMessage(message)], Initial(history, message, queried));
  }

  /** Turns and tokens: the usage is the sum over the turns, the run stops for the budget exactly
      when that sum reaches it, and it was below the budget one turn earlier. */
  lemma AccountLaw(env: Env, cfg: Config, d: Driver, history: seq<Message>, message: string, queried: nat)
    ensures AccountShape(env, cfg, RunSpec(env, cfg, d, history, message, queried))
  {
    InitialHeadInv(env, cfg, history, message, queried);
    EveryEndShape(env, cfg, d, history + [UserMessage(message)], Initial(history, message, queried));
  }

  /** The configurations a run passes through at its loop heads. */
  ghost predicate Reaches(env: Env, cfg: Config, d: Driver, c: Conf, c': Conf)
    decreases Max(cfg.maxTurns - c.ls.turn, 0)
  {
    c == c' ||
    var s := Advance(env, cfg, d, c);
    s.Again? && Reaches(env, cfg, d, s.conf, c')
  }

  lemma ReachesNext(env: Env, cfg: Config, d: Driver, c: Conf, c': Conf)
    requires Reaches(env, cfg, d, c, c') && c != c'
    ensures Advance(env, cfg, d, c).Again? && Reaches(env, cfg, d, Advance(env, cfg, d, c).conf, c')
  {
  }

  lemma {:induction false} ReachedHeads(env: Env, cfg: Config, d: Driver, h0: seq<Message>, c: Conf, c': Conf)
    requires HeadInv(env, cfg, h0, c) && Reaches(env, cfg, d, c, c')
    ensures HeadInv(env, cfg, h0, c')
    decreases Max(cfg.maxTurns - c.ls.turn, 0)
  {
    if c != c' {
      ReachesNext(env, cfg, d, c, c');
      AdvanceKeepsHeadInv(env, cfg, d, h0, c);
      ReachedHeads(env, cfg, d, h0, Advance(env, cfg, d, c).conf, c');
    }
  }

  /** The budget guard at the loop head never fires: the check after each reply is always first. */
  lemma HeadBudgetGuardIsDead(env: Env, cfg: Config, d: Driver, history: seq<Message>, message: string, queried: nat,
                              c: Conf)
    requires Reaches(env, cfg, d, Initial(history, message, queried), c)
    ensures cfg.tokenBudget > 0 ==> c.ls.usage.total < cfg.tokenBudget
    ensures HeadGuard(env, cfg, c.ls) != Some(TokenBudget)
  {
    InitialHeadInv(env, cfg, history, message, queried);
    ReachedHeads(env, cfg, d, history + [UserMessage(message)], Initial(history, message, queried), c);
  }

  // ---- tool calls reported and tool calls answered ----

  /** The calls of a turn that got a result: its first ones. */
  function AnsweredOf(t: Turn): seq<ToolCall> {
    var calls := CallsOf(t.reply);
    calls[..Min(|calls|, |t.answers|)]
  }

  lemma {:induction false} AnsweredWithinLimit(env: Env, cfg: Config, log: seq<Turn>)
    requires env.hasRegistry && AllAnswered(env, cfg, log)
    ensures |FlatMap(log, AnsweredOf)| <= |FlatMap(log, TurnCalls)|
    ensures FlatMap(log, AnsweredOf) == FlatMap(log, TurnCalls) <==>
            forall i :: 0 <= i < |log| ==> |CallsOf(log[i].reply)| <= cfg.maxToolCallsPerTurn
  {
    if log == [] {
    } else {
      var calls := CallsOf(log[0].reply);
      assert Answered(env, cfg, log[0]);
      AnsweredWithinLimit(env, cfg, log[1..]);
      if |calls| <= cfg.maxToolCallsPerTurn {
        assert AnsweredOf(log[0]) == TurnCalls(log[0]);
        if FlatMap(log, AnsweredOf) == FlatMap(log, TurnCalls) {
          assert FlatMap(log[1..], AnsweredOf) == FlatMap(log, AnsweredOf)[|calls|..];
          assert FlatMap(log[1..], TurnCalls) == FlatMap(log, TurnCalls)[|calls|..];
        }
      } else {
        assert |FlatMap(log, AnsweredOf)| < |FlatMap(log, TurnCalls)|;
      }
    }
  }

  /** `toolCalls` of a result is documented as the calls executed. It lists the calls requested, and
      the two agree exactly when no tool turn exceeded the per-turn limit. */
  lemma ReportedCallsAreAnswered(env: Env, cfg: Config, d: Driver, history: seq<Message>, message: string, queried: nat)
    requires env.hasRegistry
    ensures var e := RunSpec(env, cfg, d, history, message, queried);
            e.result.Ok? ==>
              && Ended(e)
              && (e.result.value.toolCalls == FlatMap(FullTurns(e), AnsweredOf) <==>
                  forall i :: 0 <= i < |FullTurns(e)| ==>
                    |CallsOf(FullTurns(e)[i].reply)| <= cfg.maxToolCallsPerTurn)
  {
    HistoryLaw(env, cfg, d, history, message, queried);
    var e := RunSpec(env, cfg, d, history, message, queried);
    if e.result.Ok? {
      AnsweredWithinLimit(env, cfg, FullTurns(e));
    }
  }

  /** Every call of every non-final turn is answered exactly once, in order, precisely when no tool
      turn exceeds the limit; without a registry the limit does not apply. */
  lemma EveryCallAnswered(env: Env, cfg: Config, d: Driver, history: seq<Message>, message: string, queried: nat)
    ensures var e := RunSpec(env, cfg, d, history, message, queried);
            && Ended(e)
            && ((forall i :: 0 <= i < |FullTurns(e)| ==>
                   AnswersFor(FullTurns(e)[i].answers, CallsOf(FullTurns(e)[i].reply))) <==>
                (forall i :: 0 <= i < |FullTurns(e)| ==>
                   !env.hasRegistry || |CallsOf(FullTurns(e)[i].reply)| <= cfg.maxToolCallsPerTurn))
  {
    HistoryLaw(env, cfg, d, history, message, queried);
    var full := FullTurns(RunSpec(env, cfg, d, history, message, queried));
    forall i | 0 <= i < |full|
      ensures AnswersFor(full[i].answers, CallsOf(full[i].reply))
         <==> !env.hasRegistry || |CallsOf(full[i].reply)| <= cfg.maxToolCallsPerTurn
    {
      assert Answered(env, cfg, full[i]);
    }
  }

  // ---- provider requests ----

  /** The two retry layers around one reply make at most 4 * (m + 1) requests. */
  lemma CompletionBound(env: Env, history: seq<Message>, at: nat)
    ensures at < Completion(env, history, at).1 <= at + 4 * (env.providerRetry.maxRetries + 1)
  {
    var inner := Once((n: nat) => env.completeInner(history, n));
    var retryable := (e: ProviderError) => IsRetryableError(e, env.providerRetry);
    var m := env.providerRetry.maxRetries;
    var op := ProviderComplete(env, history);
    forall n: nat
      ensures n < op(n).1 <= n + (m + 1)
    {
      RetryBound(inner, retryable, m, 0, n, 1);
      assert op(n) == Attempts(inner, retryable, m, 0, n);
    }
    RetryBound(op, LoopRetryable, LOOP_RETRY.maxRetries, 0, at, m + 1);
  }

  lemma {:induction false} QueriesBounded(env: Env, cfg: Config, d: Driver, c: Conf, q0: nat)
    requires c.ls.turn <= cfg.maxTurns
    requires c.queried <= q0 + c.ls.turn * (4 * (env.providerRetry.maxRetries + 1))
    ensures LoopFrom(env, cfg, d, c).conf.queried <= q0 + cfg.maxTurns * (4 * (env.providerRetry.maxRetries + 1))
    decreases Max(cfg.maxTurns - c.ls.turn, 0)
  {
    var k := 4 * (env.providerRetry.maxRetries + 1);
    TimesMonotone(c.ls.turn, cfg.maxTurns, k);
    if HeadGuard(env, cfg, c.ls).None? {
      CompletionBound(env, c.history, c.queried);
      var a := Ask(env, d, c);
      assert a.queried <= c.queried + k;
      TimesMonotone(c.ls.turn + 1, cfg.maxTurns, k);
      assert (c.ls.turn + 1) * k == c.ls.turn * k + k;
      var s := Advance(env, cfg, d, c);
      if s.Again? {
        QueriesBounded(env, cfg, d, s.conf, q0);
      }
    }
  }

  lemma TimesMonotone(a: nat, b: nat, k: nat)
    requires a <= b
    ensures a * k <= b * k
  {
    assert (b - a) * k >= 0;
  }

  /** A whole run makes at most max_turns * 4 * (m + 1) provider requests. */
  lemma RunQueriesBounded(env: Env, cfg: Config, d: Driver, history: seq<Message>, message: string, queried: nat)
    ensures RunSpec(env, cfg, d, history, message, queried).conf.queried
         <= queried + cfg.maxTurns * (4 * (env.providerRetry.maxRetries + 1))
  {
    QueriesBounded(env, cfg, d, Initial(history, message, queried), queried);
  }
}
