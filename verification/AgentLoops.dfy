/**
 The two drivers of the agent loop, each written out step by step and proved against AgentSpec.
 */
module AgentLoops {
  import opened Base
  import opened Chat
  import opened StateMachines
  import opened Retry
  import opened AgentSpec

  /** The receiving end of the streaming driver. */
  class ChunkSender {
    var sent: seq<Chunk>

    constructor ()
      ensures sent == []
    {
      sent := [];
    }

    method Send(c: Chunk)
      modifies this
      ensures sent == old(sent) + [c]
    {
      sent := sent + [c];
    }
  }

  class AgentLoop {
    const env: Env
    const cfg: Config
    var history: seq<Message>
    /** The shared state and the states broadcast to subscribers so far. */
    var state: AgentState
    var broadcast: seq<AgentState>
    /** Provider requests made so far. */
    var queried: nat

    constructor (env: Env, cfg: Config)
      ensures this.env == env && this.cfg == cfg
      ensures history == [] && state == Idle && broadcast == [] && queried == 0
    {
      this.env := env;
      this.cfg := cfg;
      history, state, broadcast, queried := [], Idle, [], 0;
    }

    method Transition(machine: StateMachine, event: StateEvent) returns (r: Result<AgentState, AgentError>)
      requires machine.Valid()
      modifies this`state, this`broadcast, machine`current
      ensures machine.Valid()
      ensures match Next(old(machine.current), event)
              case Some(s) => r == Ok(s) && machine.current == state == s && broadcast == old(broadcast) + [s]
              case None =>
                && r.Err? && r.error.InvalidStateTransition?
                && machine.current == old(machine.current)
                && state == old(state) && broadcast == old(broadcast)
    {
      var t := machine.Transition(event);
      match t
      case Success(s) =>
        state := s;
        broadcast := broadcast + [s];
        r := Ok(s);
      case Invalid(from, e, allowed) =>
        r := Err(InvalidStateTransition(from, e, allowed));
    }

    /** The guards at the head of the loop, in order: custom stop conditions, turns, tokens. */
    method HeadCheck(ls: LoopState) returns (reason: Option<FinishReason>)
      ensures reason == HeadGuard(env, cfg, ls)
    {
      var i := 0;
      while i < |env.stopConditions|
        invariant i <= |env.stopConditions|
        invariant forall j :: 0 <= j < i ==> !env.stopConditions[j](ls)
      {
        if env.stopConditions[i](ls) {
          return Some(StopCondition);
        }
        i := i + 1;
      }
      if ls.turn >= cfg.maxTurns {
        return Some(MaxTurns);
      }
      if cfg.tokenBudget > 0 && ls.usage.total >= cfg.tokenBudget {
        return Some(TokenBudget);
      }
      return None;
    }

    /** The concrete variables of a driver at a loop head stand for the configuration `c`; `base` is
        what had been broadcast, and `sent0` what had been sent, before the run. */
    ghost predicate AtHead(c: Conf, ls: LoopState, calls: seq<ToolCall>, base: seq<AgentState>,
                           machine: StateMachine, tx: ChunkSender?, sent0: seq<Chunk>)
      reads this, machine, tx
    {
      && machine.Valid() && machine.current == Running
      && c.history == history && c.ls == ls && c.calls == calls && c.queried == queried
      && broadcast == base + c.trace
      && (tx != null ==> tx.sent == sent0 + c.chunks)
    }

    /** The object has reached the end `e`. */
    ghost predicate AtEnd(e: End, base: seq<AgentState>, tx: ChunkSender?, sent0: seq<Chunk>)
      reads this, tx
    {
      && history == e.conf.history
      && queried == e.conf.queried
      && broadcast == base + e.conf.trace
      && e.conf.trace != [] && state == e.conf.trace[|e.conf.trace| - 1]
      && (tx != null ==> tx.sent == sent0 + e.conf.chunks)
    }

    ghost function DriverOf(tx: ChunkSender?): Driver {
      if tx == null then Blocking else Streaming
    }

    /** Stops at a loop head: the result is built from the last message of the history. */
    method FinishAtHead(reason: FinishReason, ls: LoopState, calls: seq<ToolCall>, machine: StateMachine,
                        tx: ChunkSender?, ghost c: Conf, ghost base: seq<AgentState>, ghost sent0: seq<Chunk>)
      returns (r: Result<AgentResult, AgentError>)
      requires AtHead(c, ls, calls, base, machine, tx, sent0)
      modifies this`state, this`broadcast, machine`current, tx
      ensures var e := StopAtHead(DriverOf(tx), c, reason); r == e.result && AtEnd(e, base, tx, sent0)
    {
      var t := Transition(machine, StopConditionMet);
      assert t.Ok?;
      var last := LastMessage(history);
      if tx != null {
        tx.Send(Finish(reason));
      }
      r := Ok(AgentResult(reason, last, ls.usage, ls.turn, ContentOf(last), calls));
    }

    /** The reply `a` to the request made at `c` is appended and charged; the machine still awaits it. */
    ghost predicate Replied(c: Conf, a: Asked, ls: LoopState, base: seq<AgentState>, tx: ChunkSender?, sent0: seq<Chunk>)
      requires a.Answer?
      reads this, tx
    {
      var charged := Charged(c, a);
      && charged.history == history && charged.ls == ls && charged.queried == queried
      && broadcast == base + c.trace + [AwaitingLLM]
      && (tx != null ==> tx.sent == sent0 + charged.chunks)
    }

    /** Stops with the reply just received, passing briefly through Running. */
    method FinishWithReply(reason: FinishReason, reply: Message, ls: LoopState, calls: seq<ToolCall>,
                           machine: StateMachine, tx: ChunkSender?,
                           ghost c: Conf, ghost a: Asked, ghost base: seq<AgentState>, ghost sent0: seq<Chunk>)
      returns (r: Result<AgentResult, AgentError>)
      requires machine.Valid() && machine.current == AwaitingLLM
      requires a.Answer? && a.reply == reply && c.calls == calls && Replied(c, a, ls, base, tx, sent0)
      modifies this`state, this`broadcast, machine`current, tx
      ensures var e := StopWithReply(DriverOf(tx), c, a, reason); r == e.result && AtEnd(e, base, tx, sent0)
    {
      var t := Transition(machine, LLMResponseReceived);
      assert t.Ok?;
      t := Transition(machine, StopConditionMet);
      assert t.Ok?;
      if tx != null {
        if reason == Stop {
          tx.Send(Text("", true));
          tx.Send(UsageUpdate(ls.usage));
        }
        tx.Send(Finish(reason));
        assert tx.sent == old(tx.sent) + FinalChunks(ls.usage, reason);
      }
      r := Ok(AgentResult(reason, Some(reply), ls.usage, ls.turn, reply.content, calls));
    }

    /** Runs the first `maxToolCallsPerTurn` calls; the results come back in call order. */
    method ExecuteToolsParallel(calls: seq<ToolCall>) returns (results: seq<(string, string)>)
      requires env.hasRegistry
      ensures var executed := AnsweredCalls(env, cfg, calls);
              && |results| == |executed|
              && forall i :: 0 <= i < |executed| ==>
                   results[i] == (executed[i].id, ToolReply(env, history, executed[i]))
    {
      var limit := if cfg.maxToolCallsPerTurn < |calls| then cfg.maxToolCallsPerTurn else |calls|;
      results := [];
      for i := 0 to limit
        invariant |results| == i
        invariant forall j :: 0 <= j < i ==> results[j] == (calls[j].id, ToolReply(env, history, calls[j]))
      {
        var call := calls[i];
        var content;
        match env.parseArguments(call.arguments) {
          case Err(m) =>
            content := env.renderParseFailure(call.id, m);
          case Ok(json) =>
            var outcome := env.execute(history, call.name, json);
            content := if outcome.Ok? then outcome.value else env.renderToolError(outcome.error);
        }
        results := results + [(call.id, content)];
      }
    }

    /** Executes the calls, then announces and appends each result. */
    method AnswerFromRegistry(calls: seq<ToolCall>, tx: ChunkSender?)
      requires env.hasRegistry
      modifies this`history, tx
      ensures var answered := AnsweredCalls(env, cfg, calls);
              && history == old(history) + Answers(env, old(history), answered)
              && (tx != null ==> tx.sent == old(tx.sent) + AnswerChunks(env, old(history), answered))
    {
      ghost var h := history;
      ghost var answers := Answers(env, h, AnsweredCalls(env, cfg, calls));
      ghost var chunks := AnswerChunks(env, h, AnsweredCalls(env, cfg, calls));
      var results := ExecuteToolsParallel(calls);
      for i := 0 to |results|
        invariant history == h + answers[..i]
        invariant tx != null ==> tx.sent == old(tx.sent) + chunks[..i]
      {
        if tx != null {
          tx.Send(ToolComplete(results[i].0, results[i].1));
        }
        history := history + [ToolResultMessage(results[i].0, results[i].1)];
      }
    }

    /** Without a registry every call is answered with the same structured error. */
    method AnswerWithoutRegistry(calls: seq<ToolCall>, tx: ChunkSender?)
      requires !env.hasRegistry
      modifies this`history, tx
      ensures history == old(history) + Answers(env, old(history), calls)
      ensures tx != null ==> tx.sent == old(tx.sent) + AnswerChunks(env, old(history), calls)
    {
      ghost var answers := Answers(env, history, calls);
      ghost var chunks := AnswerChunks(env, history, calls);
      for i := 0 to |calls|
        invariant history == old(history) + answers[..i]
        invariant tx != null ==> tx.sent == old(tx.sent) + chunks[..i]
      {
        if tx != null {
          tx.Send(ToolError(calls[i].id, "no_tool_registry"));
        }
        history := history + [ToolResultMessage(calls[i].id, NO_REGISTRY_JSON)];
      }
    }

    /** Answers the calls, with a registry or without. */
    method AnswerCalls(calls: seq<ToolCall>, tx: ChunkSender?)
      modifies this`history, tx
      ensures var answered := AnsweredCalls(env, cfg, calls);
              && history == old(history) + Answers(env, old(history), answered)
              && (tx != null ==> tx.sent == old(tx.sent) + AnswerChunks(env, old(history), answered))
    {
      if env.hasRegistry {
        AnswerFromRegistry(calls, tx);
      } else {
        AnswerWithoutRegistry(calls, tx);
      }
    }

    /** The tool phase of a turn, between AwaitingLLM and Running: back to a loop head. */
    method RunTools(calls: seq<ToolCall>, ls: LoopState, toolCalls: seq<ToolCall>, machine: StateMachine, tx: ChunkSender?,
                    ghost c: Conf, ghost a: Asked, ghost base: seq<AgentState>, ghost sent0: seq<Chunk>)
      returns (ls': LoopState, toolCalls': seq<ToolCall>)
      requires machine.Valid() && machine.current == AwaitingLLM
      requires a.Answer? && CallsOf(a.reply) == calls && c.calls == toolCalls && Replied(c, a, ls, base, tx, sent0)
      modifies this`history, this`state, this`broadcast, machine`current, tx
      ensures AtHead(WithAnswers(env, cfg, DriverOf(tx), c, a), ls', toolCalls', base, machine, tx, sent0)
    {
      ghost var charged := Charged(c, a);
      toolCalls' := if env.hasRegistry then toolCalls + calls else toolCalls;
      var t := Transition(machine, ToolsRequired);
      assert t.Ok?;
      AnswerCalls(calls, tx);
      t := Transition(machine, ToolsCompleted);
      assert t.Ok?;
      ls' := ls.(historyLen := |history|);
      assert broadcast == base + (c.trace + [AwaitingLLM, ToolExecuting, Running]);
      Associate(sent0, charged.chunks, AnswerChunks(env, charged.history, AnsweredCalls(env, cfg, calls)));
    }

    /** The object awaits a reply it has asked for at the loop head `c`; `a` is what it will get. */
    ghost predicate Awaiting(c: Conf, a: Asked, base: seq<AgentState>, tx: ChunkSender?, sent0: seq<Chunk>)
      reads this, tx
    {
      && c.history == history && a.queried == queried
      && broadcast == base + c.trace + [AwaitingLLM]
      && (tx != null ==> tx.sent == sent0 + c.chunks + a.chunks)
    }

    /** Accounts for a reply, then stops or runs its tool calls. */
    method SettleReply(reply: Message, used: TokenUsage, ls: LoopState, toolCalls: seq<ToolCall>,
                       machine: StateMachine, tx: ChunkSender?,
                       ghost c: Conf, ghost a: Asked, ghost base: seq<AgentState>, ghost sent0: seq<Chunk>)
      returns (done: Option<Result<AgentResult, AgentError>>, ls': LoopState, toolCalls': seq<ToolCall>)
      requires machine.Valid() && machine.current == AwaitingLLM
      requires a.Answer? && a.reply == reply && a.usage == used
      requires c.ls == ls && c.calls == toolCalls && Awaiting(c, a, base, tx, sent0)
      modifies this`history, this`state, this`broadcast, machine`current, tx
      ensures match Settle(env, cfg, DriverOf(tx), c, a)
              case Halt(e) => done == Some(e.result) && AtEnd(e, base, tx, sent0)
              case Again(c') => done == None && AtHead(c', ls', toolCalls', base, machine, tx, sent0)
    {
      done, toolCalls' := None, toolCalls;
      ls' := ls.(usage := Plus(ls.usage, used), turn := ls.turn + 1);
      history := history + [reply];
      if cfg.tokenBudget > 0 && ls'.usage.total >= cfg.tokenBudget {
        var r := FinishWithReply(TokenBudget, reply, ls', toolCalls, machine, tx, c, a, base, sent0);
        done := Some(r);
        return;
      }
      var calls := CallsOf(reply);
      if calls != [] && cfg.toolUseEnabled {
        ls', toolCalls' := RunTools(calls, ls', toolCalls, machine, tx, c, a, base, sent0);
      } else {
        var r := FinishWithReply(Stop, reply, ls', toolCalls, machine, tx, c, a, base, sent0);
        done := Some(r);
      }
    }

    /** The provider failed: the machine enters Error and the streaming caller is told. */
    method FailWith(e: ProviderError, machine: StateMachine, tx: ChunkSender?) returns (r: Result<Response, AgentError>)
      requires machine.Valid() && machine.current == AwaitingLLM
      modifies this`state, this`broadcast, machine`current, tx
      ensures machine.Valid() && state == AgentState.Error && broadcast == old(broadcast) + [AgentState.Error]
      ensures r == Err(Provider(env.show(e)))
      ensures tx != null ==> tx.sent == old(tx.sent) + [Failure(env.show(e))]
    {
      var t := Transition(machine, StateEvent.Error);
      assert t.Ok?;
      if tx != null {
        tx.Send(Failure(env.show(e)));
      }
      r := Err(Provider(env.show(e)));
    }

    /** Sends the history to the provider, retrying, and waits for the reply. */
    method AwaitCompletion(machine: StateMachine, ghost c: Conf, ghost base: seq<AgentState>)
      returns (r: Result<Response, AgentError>)
      requires machine.Valid() && machine.current == Running
      requires c.history == history && c.queried == queried && broadcast == base + c.trace
      modifies this`state, this`broadcast, this`queried, machine`current
      ensures machine.Valid()
      ensures var a := Ask(env, Blocking, c);
              match r
              case Ok(response) =>
                && machine.current == AwaitingLLM && Awaiting(c, a, base, null, [])
                && a == Answer(response.message, response.usage, queried, [])
              case Err(e) => a.Failed? && r.error == Abort(env, c, a).result.error && AtEnd(Abort(env, c, a), base, null, [])
    {
      var t := Transition(machine, LLMRequestSent);
      assert t.Ok?;
      var response, after, _ :=
        WithRetry(ProviderComplete(env, history), LoopRetryable, LOOP_RETRY.maxRetries, queried);
      queried := after;
      if response.Err? {
        r := FailWith(response.error, machine, null);
      } else {
        r := Ok(response.value);
      }
    }

    /** One iteration of the blocking loop. */
    method BlockingTurn(ls: LoopState, toolCalls: seq<ToolCall>, machine: StateMachine, ghost c: Conf, ghost base: seq<AgentState>)
      returns (done: Option<Result<AgentResult, AgentError>>, ls': LoopState, toolCalls': seq<ToolCall>)
      requires AtHead(c, ls, toolCalls, base, machine, null, [])
      modifies this`history, this`state, this`broadcast, this`queried, machine`current
      ensures match Advance(env, cfg, Blocking, c)
              case Halt(e) => done == Some(e.result) && AtEnd(e, base, null, [])
              case Again(c') => done == None && AtHead(c', ls', toolCalls', base, machine, null, [])
    {
      done, ls', toolCalls' := None, ls, toolCalls;
      var reason := HeadCheck(ls);
      if reason.Some? {
        var r := FinishAtHead(reason.value, ls, toolCalls, machine, null, c, base, []);
        done := Some(r);
        return;
      }
      ghost var a := Ask(env, Blocking, c);
      var response := AwaitCompletion(machine, c, base);
      if response.Err? {
        done := Some(Err(response.error));
        return;
      }
      done, ls', toolCalls' := SettleReply(response.value.message, response.value.usage, ls, toolCalls, machine, null,
                                           c, a, base, []);
    }

    /** The blocking driver. */
    method Run(message: string) returns (r: Result<AgentResult, AgentError>)
      modifies this
      ensures var e := RunSpec(env, cfg, Blocking, old(history), message, old(queried));
              r == e.result && AtEnd(e, old(broadcast), null, [])
    {
      var toolCalls: seq<ToolCall> := [];
      var machine := new StateMachine();
      var t := Transition(machine, Start);
      assert t.Ok?;
      history := history + [UserMessage(message)];
      var ls := LoopState(0, NO_USAGE, 0);
      ghost var c := Initial(old(history), message, old(queried));

      while true
        invariant fresh(machine) && AtHead(c, ls, toolCalls, old(broadcast), machine, null, [])
        invariant LoopFrom(env, cfg, Blocking, c) == RunSpec(env, cfg, Blocking, old(history), message, old(queried))
        decreases Max(cfg.maxTurns - ls.turn, 0)
      {
        ghost var step := Advance(env, cfg, Blocking, c);
        var done;
        done, ls, toolCalls := BlockingTurn(ls, toolCalls, machine, c, old(broadcast));
        if done.Some? {
          return done.value;
        }
        c := step.conf;
      }
    }

    /** Reads a delta stream, forwarding text and finished calls to `tx` as they arrive. */
    method ReadStream(items: seq<Result<Delta, ProviderError>>, tx: ChunkSender)
      returns (content: string, calls: seq<ToolCall>, usage: Option<TokenUsage>, failed: Option<ProviderError>)
      modifies tx
      ensures var (acc, err) := ReadDeltas(FRESH_ACC, items);
              && failed == err
              && (err.Some? ==> tx.sent == old(tx.sent) + acc.chunks)
              && (err.None? ==>
                    var full := FlushAcc(acc);
                    && content == full.content && calls == full.asm.done && usage == full.usage
                    && tx.sent == old(tx.sent) + full.chunks)
    {
      content, calls, usage := "", [], None;
      var partialId: Option<string> := None;
      var partialName: Option<string> := None;
      var partialArgs := "";
      ghost var acc := FRESH_ACC;
      for i := 0 to |items|
        invariant acc.content == content && acc.usage == usage && acc.asm.done == calls
        invariant acc.asm.open ==
                  if partialId.Some? then Some(ToolCall(partialId.value, partialName.GetOr(""), partialArgs)) else None
        invariant tx.sent == old(tx.sent) + acc.chunks
        invariant ReadDeltas(acc, items[i..]) == ReadDeltas(FRESH_ACC, items)
      {
        assert items[i..][0] == items[i] && items[i..][1..] == items[i + 1..];
        if items[i].Err? {
          failed := Some(items[i].error);
          return;
        }
        var delta := items[i].value;
        ghost var next := FeedDelta(acc, delta);
        if delta.usage.Some? {
          usage := delta.usage;
        }
        if delta.content.Some? && delta.content.value != "" {
          content := content + delta.content.value;
          tx.Send(Text(delta.content.value, false));
        }
        if delta.toolCall.Some? {
          var tc := delta.toolCall.value;
          var isNewCall := tc.id != partialId.GetOr("");
          if isNewCall && partialId.Some? {
            var flushed := ToolCall(partialId.value, partialName.GetOr(""), partialArgs);
            partialId, partialName, partialArgs := None, None, "";
            tx.Send(ToolStart(flushed.id, flushed.name));
            calls := calls + [flushed];
          }
          if isNewCall && tc.id != "" {
            partialId, partialName, partialArgs := Some(tc.id), Some(tc.name), tc.arguments;
          } else {
            partialArgs := partialArgs + tc.arguments;
          }
        }
        acc := next;
      }
      assert items[|items|..] == [];
      if partialId.Some? {
        var flushed := ToolCall(partialId.value, partialName.GetOr(""), partialArgs);
        tx.Send(ToolStart(flushed.id, flushed.name));
        calls := calls + [flushed];
      }
      failed := None;
    }

    /** Opens a delta stream for the history and reads the reply from it. */
    method AwaitStream(machine: StateMachine, tx: ChunkSender,
                       ghost c: Conf, ghost base: seq<AgentState>, ghost sent0: seq<Chunk>)
      returns (r: Result<Response, AgentError>)
      requires machine.Valid() && machine.current == Running
      requires c.history == history && c.queried == queried && broadcast == base + c.trace
      requires tx.sent == sent0 + c.chunks
      modifies this`state, this`broadcast, machine`current, tx
      ensures machine.Valid()
      ensures var a := Ask(env, Streaming, c);
              match r
              case Ok(response) =>
                && machine.current == AwaitingLLM && Awaiting(c, a, base, tx, sent0)
                && a.Answer? && a.reply == response.message && a.usage == response.usage
              case Err(e) => a.Failed? && r.error == Abort(env, c, a).result.error && AtEnd(Abort(env, c, a), base, tx, sent0)
    {
      var t := Transition(machine, LLMRequestSent);
      assert t.Ok?;
      var delivery := env.stream(history);
      if delivery.OpenFailed? {
        r := FailWith(delivery.error, machine, tx);
        Associate(sent0, c.chunks, [Failure(env.show(delivery.error))]);
        return;
      }
      ghost var acc := ReadDeltas(FRESH_ACC, delivery.items).0;
      var content, calls, reported, failed := ReadStream(delivery.items, tx);
      if failed.Some? {
        r := FailWith(failed.value, machine, tx);
        Associate(sent0 + c.chunks, acc.chunks, [Failure(env.show(failed.value))]);
        Associate(sent0, c.chunks, acc.chunks + [Failure(env.show(failed.value))]);
        return;
      }
      var used;
      if reported.Some? {
        used := reported.value;
      } else {
        var estimated := ByteLength(content) / 4 + 10;
        used := TokenUsage(0, estimated, estimated);
      }
      r := Ok(Response(AssistantMessage(content, calls), used));
    }

    /** One iteration of the streaming loop. */
    method StreamingTurn(ls: LoopState, toolCalls: seq<ToolCall>, machine: StateMachine, tx: ChunkSender,
                         ghost c: Conf, ghost base: seq<AgentState>, ghost sent0: seq<Chunk>)
      returns (done: Option<Result<AgentResult, AgentError>>, ls': LoopState, toolCalls': seq<ToolCall>)
      requires AtHead(c, ls, toolCalls, base, machine, tx, sent0)
      modifies this`history, this`state, this`broadcast, this`queried, machine`current, tx
      ensures match Advance(env, cfg, Streaming, c)
              case Halt(e) => done == Some(e.result) && AtEnd(e, base, tx, sent0)
              case Again(c') => done == None && AtHead(c', ls', toolCalls', base, machine, tx, sent0)
    {
      done, ls', toolCalls' := None, ls, toolCalls;
      var reason := HeadCheck(ls);
      if reason.Some? {
        var r := FinishAtHead(reason.value, ls, toolCalls, machine, tx, c, base, sent0);
        done := Some(r);
        return;
      }
      ghost var a := Ask(env, Streaming, c);
      var response := AwaitStream(machine, tx, c, base, sent0);
      if response.Err? {
        done := Some(Err(response.error));
        return;
      }
      done, ls', toolCalls' := SettleReply(response.value.message, response.value.usage, ls, toolCalls, machine, tx,
                                           c, a, base, sent0);
    }

    /** The streaming driver. */
    method RunStreaming(message: string, tx: ChunkSender) returns (r: Result<AgentResult, AgentError>)
      modifies this, tx
      ensures var e := RunSpec(env, cfg, Streaming, old(history), message, old(queried));
              r == e.result && AtEnd(e, old(broadcast), tx, old(tx.sent))
    {
      var toolCalls: seq<ToolCall> := [];
      var machine := new StateMachine();
      var t := Transition(machine, Start);
      assert t.Ok?;
      history := history + [UserMessage(message)];
      var ls := LoopState(0, NO_USAGE, 0);
      ghost var c := Initial(old(history), message, old(queried));

      while true
        invariant fresh(machine) && AtHead(c, ls, toolCalls, old(broadcast), machine, tx, old(tx.sent))
        invariant LoopFrom(env, cfg, Streaming, c) == RunSpec(env, cfg, Streaming, old(history), message, old(queried))
        decreases Max(cfg.maxTurns - ls.turn, 0)
      {
        ghost var step := Advance(env, cfg, Streaming, c);
        var done;
        done, ls, toolCalls := StreamingTurn(ls, toolCalls, machine, tx, c, old(broadcast), old(tx.sent));
        if done.Some? {
          return done.value;
        }
        c := step.conf;
      }
    }
  }
}
