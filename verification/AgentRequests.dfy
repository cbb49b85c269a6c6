/**
 What happens at every loop head a run reaches: when it stops there, what it asks the provider
 otherwise, what a failure leads to, and what the tool results say.
 */
module AgentRequests {
  import opened Base
  import opened Chat
  import Retry
  import opened ToolAssembly
  import opened AgentSpec
  import opened AgentLaws
  import opened AgentStreaming

  // ---- a run and its heads ----

  /** A run goes on from every head it reaches as if it had begun there. */
  lemma {:induction false} SameEnd(env: Env, cfg: Config, d: Driver, c: Conf, c': Conf)
    requires Reaches(env, cfg, d, c, c')
    ensures LoopFrom(env, cfg, d, c) == LoopFrom(env, cfg, d, c')
    decreases Max(cfg.maxTurns - c.ls.turn, 0)
  {
    if c != c' {
      ReachesNext(env, cfg, d, c, c');
      SameEnd(env, cfg, d, Advance(env, cfg, d, c).conf, c');
    }
  }

  lemma AdvanceExtends(env: Env, cfg: Config, d: Driver, c: Conf)
    ensures match Advance(env, cfg, d, c)
            case Again(c') => c.log <= c'.log && c.history <= c'.history
            case Halt(e) => c.log <= e.conf.log && c.history <= e.conf.history
  {
  }

  /** Nothing said is taken back. */
  lemma {:induction false} LoopExtends(env: Env, cfg: Config, d: Driver, c: Conf)
    ensures var e := LoopFrom(env, cfg, d, c);
            c.log <= e.conf.log && c.history <= e.conf.history
    decreases Max(cfg.maxTurns - c.ls.turn, 0)
  {
    AdvanceExtends(env, cfg, d, c);
    var s := Advance(env, cfg, d, c);
    if s.Again? {
      LoopExtends(env, cfg, d, s.conf);
    }
  }

  /** The run ends at the head `c`, having asked nothing more. */
  ghost predicate EndsAt(e: End, c: Conf, reason: FinishReason) {
    && e.conf.history == c.history && e.conf.queried == c.queried && e.conf.log == c.log
    && e.result.Ok? && e.result.value.finishReason == reason
    && e.result.value.usage == c.ls.usage && e.result.value.turns == c.ls.turn
  }

  /** What the stop conditions are shown at a head: the turns made, the tokens used, and the length of
      the history after the last tool results. */
  lemma HeadState(env: Env, cfg: Config, d: Driver, history: seq<Message>, message: string, queried: nat, c: Conf)
    requires Reaches(env, cfg, d, Initial(history, message, queried), c)
    ensures c.ls == LoopState(|c.log|, SumUsage(c.log), if c.log == [] then 0 else |c.history|)
    ensures |c.log| <= cfg.maxTurns
  {
    InitialHeadInv(env, cfg, history, message, queried);
    ReachedHeads(env, cfg, d, history + [UserMessage(message)], Initial(history, message, queried), c);
  }

  /** A run that reaches a head where some stop condition holds ends there for that reason, also when its
      turns are used up. */
  lemma StopConditionEnds(env: Env, cfg: Config, d: Driver, history: seq<Message>, message: string, queried: nat,
                          c: Conf, i: nat)
    requires Reaches(env, cfg, d, Initial(history, message, queried), c)
    requires i < |env.stopConditions| && env.stopConditions[i](c.ls)
    ensures EndsAt(RunSpec(env, cfg, d, history, message, queried), c, StopCondition)
  {
    SameEnd(env, cfg, d, Initial(history, message, queried), c);
    assert StopRequested(env, c.ls);
  }

  /** No stop condition holds. */
  ghost predicate Undisturbed(env: Env, ls: LoopState) {
    forall i :: 0 <= i < |env.stopConditions| ==> !env.stopConditions[i](ls)
  }

  /** Otherwise it ends there exactly when its turns are used up. */
  lemma TurnsEnd(env: Env, cfg: Config, d: Driver, history: seq<Message>, message: string, queried: nat, c: Conf)
    requires Reaches(env, cfg, d, Initial(history, message, queried), c)
    requires Undisturbed(env, c.ls) && c.ls.turn == cfg.maxTurns
    ensures EndsAt(RunSpec(env, cfg, d, history, message, queried), c, MaxTurns)
  {
    SameEnd(env, cfg, d, Initial(history, message, queried), c);
  }

  lemma HeadGoesOn(env: Env, cfg: Config, d: Driver, history: seq<Message>, message: string, queried: nat, c: Conf)
    requires Reaches(env, cfg, d, Initial(history, message, queried), c)
    requires Undisturbed(env, c.ls) && c.ls.turn < cfg.maxTurns
    ensures HeadGuard(env, cfg, c.ls) == None
  {
    HeadBudgetGuardIsDead(env, cfg, d, history, message, queried, c);
  }

  /** The reply to the request made at the head `c` is part of the run from there on. */
  ghost predicate RepliedAt(e: End, c: Conf, reply: Message, used: TokenUsage) {
    && |c.log| < |e.conf.log|
    && e.conf.log[|c.log|].reply == reply && e.conf.log[|c.log|].usage == used
    && c.history + [reply] <= e.conf.history
  }

  lemma AnswerIsKept(env: Env, cfg: Config, d: Driver, c: Conf)
    requires HeadGuard(env, cfg, c.ls) == None && Ask(env, d, c).Answer?
    ensures var a := Ask(env, d, c); RepliedAt(LoopFrom(env, cfg, d, c), c, a.reply, a.usage)
  {
    var s := Advance(env, cfg, d, c);
    if s.Again? {
      LoopExtends(env, cfg, d, s.conf);
      assert s.conf.history[..|c.history| + 1] == c.history + [Ask(env, d, c).reply];
    }
  }

  /** The blocking driver sends the provider the history it has, and keeps its reply and its usage. */
  lemma BlockingRequest(env: Env, cfg: Config, history: seq<Message>, message: string, queried: nat, c: Conf, resp: Response)
    requires Reaches(env, cfg, Blocking, Initial(history, message, queried), c)
    requires Undisturbed(env, c.ls) && c.ls.turn < cfg.maxTurns
    requires env.completeInner(c.history, c.queried) == Ok(resp)
    ensures RepliedAt(RunSpec(env, cfg, Blocking, history, message, queried), c, resp.message, resp.usage)
  {
    SameEnd(env, cfg, Blocking, Initial(history, message, queried), c);
    HeadGoesOn(env, cfg, Blocking, history, message, queried, c);
    AnswerIsKept(env, cfg, Blocking, c);
  }

  /** What a stream amounts to: its text, its assembled calls, and the last usage it reported or else an
      estimate by the length of the text. */
  ghost predicate Streamed(ds: seq<Delta>, reply: Message, used: TokenUsage) {
    var text, calls := FlatMap(ds, DeltaText), Assemble(FlatMap(ds, DeltaFragment));
    && reply == Message(Assistant, text, if calls == [] then None else Some(calls), None)
    && match LastUsage(ds)
       case Some(u) => used == u
       case None =>
         used.prompt == 0 && used.completion == used.total && 4 * (used.total - 10) <= |Utf8(text)| < 4 * (used.total - 9)
  }

  /** The streaming driver streams the reply to the history it has. */
  lemma StreamingRequest(env: Env, cfg: Config, history: seq<Message>, message: string, queried: nat, c: Conf,
                         items: seq<Result<Delta, ProviderError>>)
    requires Reaches(env, cfg, Streaming, Initial(history, message, queried), c)
    requires Undisturbed(env, c.ls) && c.ls.turn < cfg.maxTurns
    requires env.stream(c.history) == Opened(items) && FirstError(items) == None
    ensures exists reply, used :: Streamed(GoodPrefix(items), reply, used)
              && RepliedAt(RunSpec(env, cfg, Streaming, history, message, queried), c, reply, used)
  {
    SameEnd(env, cfg, Streaming, Initial(history, message, queried), c);
    HeadGoesOn(env, cfg, Streaming, history, message, queried, c);
    StreamMeaning(items);
    AnswerIsKept(env, cfg, Streaming, c);
    var a := Ask(env, Streaming, c);
    BytesOfUtf8(a.reply.content);
    assert Streamed(GoodPrefix(items), a.reply, a.usage);
  }

  // ---- failures ----

  /** The run fails at the head `c` with this error, and its history stays as it was sent. */
  ghost predicate FailsAt(env: Env, e: End, c: Conf, error: ProviderError) {
    && e.result == Err(Provider(env.show(error)))
    && e.conf.history == c.history && e.conf.log == c.log
  }

  lemma {:induction false} AttemptsOfFailure(op: Retry.Operation<Response, ProviderError>, retryable: ProviderError -> bool,
                                             retries: nat, attempt: nat, at: nat, error: ProviderError, cost: nat)
    requires attempt <= retries && forall n: nat :: op(n) == (Err(error), n + cost)
    ensures Retry.Attempts(op, retryable, retries, attempt, at)
         == (Err(error), at + if retryable(error) then (retries - attempt + 1) * cost else cost)
    decreases retries - attempt
  {
    Retry.OneMore(retries - attempt, cost);
    if attempt < retries && retryable(error) {
      AttemptsOfFailure(op, retryable, retries, attempt + 1, at + cost, error, cost);
    }
  }

  /** Requests made for a reply that always fails with this error: each layer retries network errors,
      rate limits and the statuses it lists, the provider `m` times and the loop 3 times. */
  function RequestsWhenFailing(error: ProviderError, m: nat, statuses: set<nat>): nat {
    var listed := error.Network? || error.RateLimited? || (error.Http? && error.status in statuses);
    var outer := error.Network? || error.RateLimited? || (error.Http? && error.status in {429, 500, 502, 503, 504});
    (if outer then 4 else 1) * (if listed then m + 1 else 1)
  }

  lemma FailingCompletion(env: Env, history: seq<Message>, at: nat, error: ProviderError)
    requires forall n: nat :: env.completeInner(history, n) == Err(error)
    ensures Completion(env, history, at)
         == (Err(error),
             at + RequestsWhenFailing(error, env.providerRetry.maxRetries, env.providerRetry.retryableStatuses))
  {
    var inner := Retry.Once((n: nat) => env.completeInner(history, n));
    var retryable := (e: ProviderError) => IsRetryableError(e, env.providerRetry);
    var m := env.providerRetry.maxRetries;
    var op := ProviderComplete(env, history);
    var cost := if retryable(error) then m + 1 else 1;
    forall n: nat
      ensures op(n) == (Err(error), n + cost)
    {
      assert forall k: nat :: inner(k) == (Err(error), k + 1);
      AttemptsOfFailure(inner, retryable, m, 0, n, error, 1);
      assert op(n) == Retry.Attempts(inner, retryable, m, 0, n);
    }
    AttemptsOfFailure(op, LoopRetryable, LOOP_RETRY.maxRetries, 0, at, error, cost);
  }

  /** A provider that keeps failing is asked exactly that often, and its error ends the run. */
  lemma BlockingFailure(env: Env, cfg: Config, history: seq<Message>, message: string, queried: nat, c: Conf,
                        error: ProviderError)
    requires Reaches(env, cfg, Blocking, Initial(history, message, queried), c)
    requires Undisturbed(env, c.ls) && c.ls.turn < cfg.maxTurns
    requires forall n: nat :: env.completeInner(c.history, n) == Err(error)
    ensures var e := RunSpec(env, cfg, Blocking, history, message, queried);
            && FailsAt(env, e, c, error)
            && e.conf.queried == c.queried
                 + RequestsWhenFailing(error, env.providerRetry.maxRetries, env.providerRetry.retryableStatuses)
  {
    SameEnd(env, cfg, Blocking, Initial(history, message, queried), c);
    HeadGoesOn(env, cfg, Blocking, history, message, queried, c);
    FailingCompletion(env, c.history, c.queried, error);
  }

  /** A stream that does not open, or breaks off, is not retried. */
  lemma StreamingFailure(env: Env, cfg: Config, history: seq<Message>, message: string, queried: nat, c: Conf,
                         error: ProviderError)
    requires Reaches(env, cfg, Streaming, Initial(history, message, queried), c)
    requires Undisturbed(env, c.ls) && c.ls.turn < cfg.maxTurns
    requires match env.stream(c.history)
             case OpenFailed(e) => e == error
             case Opened(items) => FirstError(items) == Some(error)
    ensures FailsAt(env, RunSpec(env, cfg, Streaming, history, message, queried), c, error)
  {
    SameEnd(env, cfg, Streaming, Initial(history, message, queried), c);
    HeadGoesOn(env, cfg, Streaming, history, message, queried, c);
    if env.stream(c.history).Opened? {
      StreamMeaning(env.stream(c.history).items);
    }
  }

  // ---- what the tool results say ----

  /** `m` answers `call`, made with the history `h`: the tool's output, its error rendered, the error of
      arguments that do not parse, or the fixed notice that there are no tools. */
  ghost predicate Says(env: Env, h: seq<Message>, call: ToolCall, m: Message) {
    && m == Message(Tool, m.content, None, Some(call.id))
    && (!env.hasRegistry ==>
          m.content == "{\"error\":\"no_tool_registry\",\"message\":\"This agent has no tool registry configured; tool calls are not available\"}")
    && (env.hasRegistry ==>
          match env.parseArguments(call.arguments)
          case Err(why) => m.content == env.renderParseFailure(call.id, why)
          case Ok(json) =>
            (env.execute(h, call.name, json).Ok? ==> m.content == env.execute(h, call.name, json).value)
            && (env.execute(h, call.name, json).Err? ==>
                  m.content == env.renderToolError(env.execute(h, call.name, json).error)))
  }

  ghost predicate TurnSays(env: Env, h: seq<Message>, t: Turn) {
    forall k :: 0 <= k < |t.answers| ==> k < |CallsOf(t.reply)| && Says(env, h, CallsOf(t.reply)[k], t.answers[k])
  }

  /** Every tool result of the log, given the history its turn's tools were run with. */
  ghost predicate LogSays(env: Env, h0: seq<Message>, log: seq<Turn>) {
    forall i :: 0 <= i < |log| ==> TurnSays(env, h0 + FlatMap(log[..i], TurnMessages) + [log[i].reply], log[i])
  }

  lemma LogSaysGrows(env: Env, h0: seq<Message>, log: seq<Turn>, t: Turn)
    requires LogSays(env, h0, log) && TurnSays(env, h0 + FlatMap(log, TurnMessages) + [t.reply], t)
    ensures LogSays(env, h0, log + [t])
  {
    var longer := log + [t];
    forall i | 0 <= i < |longer|
      ensures TurnSays(env, h0 + FlatMap(longer[..i], TurnMessages) + [longer[i].reply], longer[i])
    {
      assert longer[..i] == if i < |log| then log[..i] else log;
    }
  }

  lemma AnswersSay(env: Env, cfg: Config, h: seq<Message>, reply: Message, used: TokenUsage)
    ensures TurnSays(env, h, Turn(reply, used, Answers(env, h, AnsweredCalls(env, cfg, CallsOf(reply)))))
  {
  }

  lemma AdvanceSays(env: Env, cfg: Config, d: Driver, h0: seq<Message>, c: Conf)
    requires HeadInv(env, cfg, h0, c) && LogSays(env, h0, c.log)
    ensures match Advance(env, cfg, d, c)
            case Again(c') => LogSays(env, h0, c'.log)
            case Halt(e) => LogSays(env, h0, e.conf.log)
  {
    var a := Ask(env, d, c);
    if HeadGuard(env, cfg, c.ls).None? && a.Answer? {
      var s := Settle(env, cfg, d, c, a);
      if s.Again? {
        AnswersSay(env, cfg, c.history + [a.reply], a.reply, a.usage);
        LogSaysGrows(env, h0, c.log, s.conf.log[|c.log|]);
      } else {
        LogSaysGrows(env, h0, c.log, Turn(a.reply, a.usage, []));
      }
    }
  }

  lemma {:induction false} LoopSays(env: Env, cfg: Config, d: Driver, h0: seq<Message>, c: Conf)
    requires HeadInv(env, cfg, h0, c) && LogSays(env, h0, c.log)
    ensures LogSays(env, h0, LoopFrom(env, cfg, d, c).conf.log)
    decreases Max(cfg.maxTurns - c.ls.turn, 0)
  {
    AdvanceSays(env, cfg, d, h0, c);
    match Advance(env, cfg, d, c)
    case Halt(_) =>
    case Again(c') =>
      AdvanceKeepsHeadInv(env, cfg, d, h0, c);
      LoopSays(env, cfg, d, h0, c');
  }

  /** Over a whole run every tool result says what its tool, or its failure, produced. */
  lemma ResultsSayWhatToolsDid(env: Env, cfg: Config, d: Driver, history: seq<Message>, message: string, queried: nat)
    ensures LogSays(env, history + [Message(User, message, None, None)],
                    RunSpec(env, cfg, d, history, message, queried).conf.log)
  {
    InitialHeadInv(env, cfg, history, message, queried);
    LoopSays(env, cfg, d, history + [UserMessage(message)], Initial(history, message, queried));
  }
}
