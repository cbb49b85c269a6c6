/**
 What one run of the agent loop computes, as a function of its environment. `Advance` is one
 iteration of the loop and `LoopFrom` the run from a loop head on; the two drivers differ only in
 how they obtain the assistant's reply (`Ask`) and in the chunks they send.
 */
module AgentSpec {
  import opened Base
  import opened Chat
  import opened StateMachines
  import opened Retry
  import opened ToolAssembly

  datatype FinishReason = Stop | MaxTurns | TokenBudget | StopCondition

  datatype AgentError =
    | Provider(message: string)
    | InvalidStateTransition(from: AgentState, event: StateEvent, allowed: seq<StateEvent>)

  datatype Config = Config(maxTurns: nat, tokenBudget: nat, toolUseEnabled: bool, maxToolCallsPerTurn: nat)

  datatype LoopState = LoopState(turn: nat, usage: TokenUsage, historyLen: nat)

  datatype AgentResult = AgentResult(
    finishReason: FinishReason,
    lastMessage: Option<Message>,
    usage: TokenUsage,
    turns: nat,
    content: string,
    toolCalls: seq<ToolCall>)

  datatype Chunk =
    | Text(content: string, isFinal: bool)
    | ToolStart(id: string, name: string)
    | ToolComplete(id: string, result: string)
    | ToolError(id: string, error: string)
    | UsageUpdate(usage: TokenUsage)
    | Finish(reason: FinishReason)
    | Failure(message: string)

  datatype StreamReply = OpenFailed(error: ProviderError) | Opened(items: seq<Result<Delta, ProviderError>>)

  /** Everything outside the loop. A single provider request answers according to the history sent
      and to how many requests came before it; a delta stream and a tool according to the history,
      which is longer on every turn. */
  datatype Env = Env(
    completeInner: (seq<Message>, nat) -> Result<Response, ProviderError>,
    providerRetry: RetryConfig,
    stream: seq<Message> -> StreamReply,
    hasRegistry: bool,
    parseArguments: string -> Result<string, string>,
    execute: (seq<Message>, string, string) -> Result<string, string>,
    renderParseFailure: (string, string) -> string,
    renderToolError: string -> string,
    stopConditions: seq<LoopState -> bool>,
    show: ProviderError -> string)

  datatype Driver = Blocking | Streaming

  /** One turn as the history records it: the reply and the tool results that follow it. */
  datatype Turn = Turn(reply: Message, usage: TokenUsage, answers: seq<Message>)

  /** A run at a loop head or at its end. `trace` lists the states broadcast, `queried` counts the
      provider requests, `log` regroups the messages appended since the user message. */
  datatype Conf = Conf(
    history: seq<Message>,
    ls: LoopState,
    calls: seq<ToolCall>,
    trace: seq<AgentState>,
    queried: nat,
    chunks: seq<Chunk>,
    log: seq<Turn>)

  datatype End = End(result: Result<AgentResult, AgentError>, conf: Conf)

  datatype Step = Halt(end: End) | Again(conf: Conf)

  // ---- obtaining a reply ----

  datatype Asked =
    | Answer(reply: Message, usage: TokenUsage, queried: nat, chunks: seq<Chunk>)
    | Failed(error: ProviderError, queried: nat, chunks: seq<Chunk>)

  /** The retry layer inside the provider: one `complete`. */
  function ProviderComplete(env: Env, history: seq<Message>): Operation<Response, ProviderError> {
    (at: nat) =>
      Attempts(Once((n: nat) => env.completeInner(history, n)),
               (e: ProviderError) => IsRetryableError(e, env.providerRetry),
               env.providerRetry.maxRetries, 0, at)
  }

  const LOOP_RETRY := RetryConfig(3, DEFAULT_STATUSES)

  predicate LoopRetryable(e: ProviderError) {
    IsRetryableError(e, LOOP_RETRY)
  }

  /** The retry layer of `run` around the provider's own. */
  function Completion(env: Env, history: seq<Message>, at: nat): (Result<Response, ProviderError>, nat) {
    Attempts(ProviderComplete(env, history), LoopRetryable, LOOP_RETRY.maxRetries, 0, at)
  }

  /** The streaming driver's accumulators. */
  datatype Acc = Acc(content: string, asm: Assembly, usage: Option<TokenUsage>, chunks: seq<Chunk>)

  const FRESH_ACC := Acc("", NOTHING, None, [])

  function StartChunk(c: ToolCall): Chunk {
    ToolStart(c.id, c.name)
  }

  function FeedText(acc: Acc, d: Delta): Acc {
    var text := d.content.GetOr("");
    acc.(usage := if d.usage.Some? then d.usage else acc.usage,
         content := acc.content + text,
         chunks := acc.chunks + if text == "" then [] else [Text(text, false)])
  }

  function FeedTool(acc: Acc, f: ToolCall): Acc {
    var flush := IsNewCall(acc.asm, f) && acc.asm.open.Some?;
    acc.(asm := Feed(acc.asm, f),
         chunks := acc.chunks + if flush then [StartChunk(acc.asm.open.value)] else [])
  }

  function FeedDelta(acc: Acc, d: Delta): Acc {
    var t := FeedText(acc, d);
    if d.toolCall.Some? then FeedTool(t, d.toolCall.value) else t
  }

  /** Reads deltas up to the first error, if any. */
  function ReadDeltas(acc: Acc, items: seq<Result<Delta, ProviderError>>): (Acc, Option<ProviderError>)
    decreases |items|
  {
    if items == [] then (acc, None)
    else match items[0]
      case Err(e) => (acc, Some(e))
      case Ok(d) => ReadDeltas(FeedDelta(acc, d), items[1..])
  }

  function FlushAcc(acc: Acc): Acc {
    if acc.asm.open.Some? then
      acc.(asm := Assembly(Close(acc.asm), None), chunks := acc.chunks + [StartChunk(acc.asm.open.value)])
    else
      acc
  }

  /** The usage charged for a streamed reply: the last one reported, or an estimate by length. */
  function StreamUsage(reported: Option<TokenUsage>, content: string): TokenUsage {
    if reported.Some? then reported.value
    else
      var estimated := ByteLength(content) / 4 + 10;
      TokenUsage(0, estimated, estimated)
  }

  function Ask(env: Env, d: Driver, c: Conf): Asked {
    match d
    case Blocking =>
      (match Completion(env, c.history, c.queried)
       case (Ok(resp), queried) => Answer(resp.message, resp.usage, queried, [])
       case (Err(e), queried) => Failed(e, queried, []))
    case Streaming =>
      match env.stream(c.history)
      case OpenFailed(e) => Failed(e, c.queried, [Failure(env.show(e))])
      case Opened(items) =>
        var (acc, failed) := ReadDeltas(FRESH_ACC, items);
        if failed.Some? then
          Failed(failed.value, c.queried, acc.chunks + [Failure(env.show(failed.value))])
        else
          var full := FlushAcc(acc);
          Answer(AssistantMessage(full.content, full.asm.done), StreamUsage(full.usage, full.content),
                 c.queried, full.chunks)
  }

  // ---- tools ----

  const NO_REGISTRY_JSON := "{\"error\":\"no_tool_registry\",\"message\":\"This agent has no tool registry configured; tool calls are not available\"}"

  function ToolReply(env: Env, history: seq<Message>, call: ToolCall): string {
    match env.parseArguments(call.arguments)
    case Err(m) => env.renderParseFailure(call.id, m)
    case Ok(json) =>
      match env.execute(history, call.name, json)
      case Err(m) => env.renderToolError(m)
      case Ok(output) => output
  }

  /** The calls that get a tool result: the first `maxToolCallsPerTurn`, or all without a registry. */
  function AnsweredCalls(env: Env, cfg: Config, calls: seq<ToolCall>): seq<ToolCall> {
    if env.hasRegistry && cfg.maxToolCallsPerTurn < |calls| then calls[..cfg.maxToolCallsPerTurn] else calls
  }

  function ReplyTo(env: Env, history: seq<Message>, call: ToolCall): string {
    if env.hasRegistry then ToolReply(env, history, call) else NO_REGISTRY_JSON
  }

  function Answers(env: Env, history: seq<Message>, calls: seq<ToolCall>): seq<Message> {
    seq(|calls|, i requires 0 <= i < |calls| =>
      ToolResultMessage(calls[i].id, ReplyTo(env, history, calls[i])))
  }

  function AnswerChunk(env: Env, history: seq<Message>, call: ToolCall): Chunk {
    if env.hasRegistry then ToolComplete(call.id, ToolReply(env, history, call))
    else ToolError(call.id, "no_tool_registry")
  }

  function AnswerChunks(env: Env, history: seq<Message>, calls: seq<ToolCall>): seq<Chunk> {
    seq(|calls|, i requires 0 <= i < |calls| => AnswerChunk(env, history, calls[i]))
  }

  // ---- one iteration ----

  predicate StopRequested(env: Env, ls: LoopState) {
    exists i :: 0 <= i < |env.stopConditions| && env.stopConditions[i](ls)
  }

  predicate OverBudget(cfg: Config, total: nat) {
    cfg.tokenBudget > 0 && total >= cfg.tokenBudget
  }

  /** The three guards at the head of the loop, in order. */
  function HeadGuard(env: Env, cfg: Config, ls: LoopState): Option<FinishReason> {
    if StopRequested(env, ls) then Some(StopCondition)
    else if ls.turn >= cfg.maxTurns then Some(MaxTurns)
    else if OverBudget(cfg, ls.usage.total) then Some(TokenBudget)
    else None
  }

  function Emit(d: Driver, chunks: seq<Chunk>): seq<Chunk> {
    if d.Streaming? then chunks else []
  }

  function LastMessage(history: seq<Message>): Option<Message> {
    if history == [] then None else Some(history[|history| - 1])
  }

  function ContentOf(m: Option<Message>): string {
    if m.Some? then m.value.content else ""
  }

  function HeadResult(c: Conf, reason: FinishReason): AgentResult {
    var last := LastMessage(c.history);
    AgentResult(reason, last, c.ls.usage, c.ls.turn, ContentOf(last), c.calls)
  }

  /** The run stops at a loop head. */
  function StopAtHead(d: Driver, c: Conf, reason: FinishReason): End {
    End(Ok(HeadResult(c, reason)),
        c.(trace := c.trace + [Completed], chunks := c.chunks + Emit(d, [Finish(reason)])))
  }

  /** The provider failed: the history stays as it was sent. */
  function Abort(env: Env, c: Conf, a: Asked): End
    requires a.Failed?
  {
    End(Err(Provider(env.show(a.error))),
        c.(trace := c.trace + [AwaitingLLM, AgentState.Error], queried := a.queried, chunks := c.chunks + a.chunks))
  }

  /** The configuration once a reply is accounted for and appended. */
  function Charged(c: Conf, a: Asked): Conf
    requires a.Answer?
  {
    c.(ls := c.ls.(usage := Plus(c.ls.usage, a.usage), turn := c.ls.turn + 1),
       history := c.history + [a.reply],
       queried := a.queried,
       chunks := c.chunks + a.chunks,
       log := c.log + [Turn(a.reply, a.usage, [])])
  }

  function ReplyResult(c: Conf, a: Asked, reason: FinishReason): AgentResult
    requires a.Answer?
  {
    AgentResult(reason, Some(a.reply), c.ls.usage, c.ls.turn, a.reply.content, c.calls)
  }

  function FinalChunks(usage: TokenUsage, reason: FinishReason): seq<Chunk> {
    (if reason.Stop? then [Text("", true), UsageUpdate(usage)] else []) + [Finish(reason)]
  }

  /** The run stops with the reply just received. */
  function StopWithReply(d: Driver, c: Conf, a: Asked, reason: FinishReason): End
    requires a.Answer?
  {
    var c' := Charged(c, a);
    End(Ok(ReplyResult(c', a, reason)),
        c'.(trace := c'.trace + [AwaitingLLM, Running, Completed],
            chunks := c'.chunks + Emit(d, FinalChunks(c'.ls.usage, reason))))
  }

  /** The reply asked for tools: their results are appended and the loop goes round again. */
  function WithAnswers(env: Env, cfg: Config, d: Driver, c: Conf, a: Asked): Conf
    requires a.Answer?
  {
    var c' := Charged(c, a);
    var calls := CallsOf(a.reply);
    var answered := AnsweredCalls(env, cfg, calls);
    var answers := Answers(env, c'.history, answered);
    c'.(history := c'.history + answers,
        ls := c'.ls.(historyLen := |c'.history| + |answers|),
        calls := if env.hasRegistry then c.calls + calls else c.calls,
        trace := c.trace + [AwaitingLLM, ToolExecuting, Running],
        chunks := c'.chunks + Emit(d, AnswerChunks(env, c'.history, answered)),
        log := c.log + [Turn(a.reply, a.usage, answers)])
  }

  predicate WantsTools(cfg: Config, reply: Message) {
    CallsOf(reply) != [] && cfg.toolUseEnabled
  }

  function Settle(env: Env, cfg: Config, d: Driver, c: Conf, a: Asked): Step
    requires a.Answer?
  {
    if OverBudget(cfg, c.ls.usage.total + a.usage.total) then Halt(StopWithReply(d, c, a, TokenBudget))
    else if WantsTools(cfg, a.reply) then Again(WithAnswers(env, cfg, d, c, a))
    else Halt(StopWithReply(d, c, a, Stop))
  }

  function Advance(env: Env, cfg: Config, d: Driver, c: Conf): (s: Step)
    ensures s.Again? ==> c.ls.turn < cfg.maxTurns && s.conf.ls.turn == c.ls.turn + 1
  {
    var guard := HeadGuard(env, cfg, c.ls);
    if guard.Some? then Halt(StopAtHead(d, c, guard.value))
    else
      var a := Ask(env, d, c);
      if a.Failed? then Halt(Abort(env, c, a)) else Settle(env, cfg, d, c, a)
  }

  /** The run from a loop head to its end. */
  function LoopFrom(env: Env, cfg: Config, d: Driver, c: Conf): End
    decreases Max(cfg.maxTurns - c.ls.turn, 0)
  {
    match Advance(env, cfg, d, c)
    case Halt(end) => end
    case Again(c') => LoopFrom(env, cfg, d, c')
  }

  function Initial(history: seq<Message>, message: string, queried: nat): Conf {
    Conf(history + [UserMessage(message)], LoopState(0, NO_USAGE, 0), [], [Running], queried, [], [])
  }

  function RunSpec(env: Env, cfg: Config, d: Driver, history: seq<Message>, message: string, queried: nat): End {
    LoopFrom(env, cfg, d, Initial(history, message, queried))
  }
}
