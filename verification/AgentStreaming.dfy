/**
 The streaming driver: what it sends to its caller, and that it refines the blocking driver.
 */
module AgentStreaming {
  import opened Base
  import opened Chat
  import opened ToolAssembly
  import opened AgentSpec

  // ---- what a delta stream means ----

  function DeltaText(d: Delta): string {
    d.content.GetOr("")
  }

  function DeltaFragment(d: Delta): seq<ToolCall> {
    if d.toolCall.Some? then [d.toolCall.value] else []
  }

  function LastUsage(ds: seq<Delta>): Option<TokenUsage> {
    if ds == [] then None
    else if ds[|ds| - 1].usage.Some? then ds[|ds| - 1].usage
    else LastUsage(ds[..|ds| - 1])
  }

  /** The deltas before the first error, and that error. */
  function GoodPrefix(items: seq<Result<Delta, ProviderError>>): seq<Delta> {
    if items == [] || items[0].Err? then [] else [items[0].value] + GoodPrefix(items[1..])
  }

  function FirstError(items: seq<Result<Delta, ProviderError>>): Option<ProviderError> {
    if items == [] then None
    else if items[0].Err? then Some(items[0].error)
    else FirstError(items[1..])
  }

  // ---- projections of the chunk sequence ----

  function TextPart(c: Chunk): string {
    if c.Text? then c.content else ""
  }

  function StartPart(c: Chunk): seq<(string, string)> {
    if c.ToolStart? then [(c.id, c.name)] else []
  }

  function ResultPart(c: Chunk): seq<Chunk> {
    if c.ToolComplete? || c.ToolError? then [c] else []
  }

  /** What only the end of a run sends. */
  function EndPart(c: Chunk): seq<Chunk> {
    if c.Finish? || c.Failure? || c.UsageUpdate? || (c.Text? && c.isFinal) then [c] else []
  }

  function CallStart(c: ToolCall): seq<(string, string)> {
    [(c.id, c.name)]
  }

  /** How a tool result is announced: with its content, or as an error when there are no tools. */
  function Shown(registry: bool): Message -> seq<Chunk> {
    (m: Message) =>
      if m.toolCallId.None? then []
      else if registry then [ToolComplete(m.toolCallId.value, m.content)]
      else [ToolError(m.toolCallId.value, "no_tool_registry")]
  }

  function TurnText(t: Turn): string {
    t.reply.content
  }

  function TurnStarts(t: Turn): seq<(string, string)> {
    FlatMap(CallsOf(t.reply), CallStart)
  }

  function TurnShown(registry: bool): Turn -> seq<Chunk> {
    (t: Turn) => FlatMap(t.answers, Shown(registry))
  }

  /** The chunks carry this text, these tool starts and these results, and end nothing. */
  ghost predicate Carries(chunks: seq<Chunk>, text: string, starts: seq<(string, string)>, results: seq<Chunk>) {
    && FlatMap(chunks, TextPart) == text
    && FlatMap(chunks, StartPart) == starts
    && FlatMap(chunks, ResultPart) == results
    && FlatMap(chunks, EndPart) == []
  }

  lemma CarriesAppend(a: seq<Chunk>, b: seq<Chunk>, ta: string, tb: string,
                      sa: seq<(string, string)>, sb: seq<(string, string)>, ra: seq<Chunk>, rb: seq<Chunk>)
    requires Carries(a, ta, sa, ra) && Carries(b, tb, sb, rb)
    ensures Carries(a + b, ta + tb, sa + sb, ra + rb)
  {
    FlatMapAppend(a, b, TextPart);
    FlatMapAppend(a, b, StartPart);
    FlatMapAppend(a, b, ResultPart);
    FlatMapAppend(a, b, EndPart);
  }

  lemma CarriesOne(c: Chunk)
    requires EndPart(c) == []
    ensures Carries([c], TextPart(c), StartPart(c), ResultPart(c))
  {
    FlatMapSingle(c, TextPart);
    FlatMapSingle(c, StartPart);
    FlatMapSingle(c, ResultPart);
    FlatMapSingle(c, EndPart);
  }

  // ---- the accumulators ----

  /** The accumulators after reading the deltas `ds`. */
  ghost predicate AccMeans(acc: Acc, ds: seq<Delta>) {
    && acc.content == FlatMap(ds, DeltaText)
    && acc.asm == FeedAll(NOTHING, FlatMap(ds, DeltaFragment))
    && acc.usage == LastUsage(ds)
    && Carries(acc.chunks, acc.content, FlatMap(acc.asm.done, CallStart), [])
  }

  lemma FeedTextKeeps(acc: Acc, d: Delta)
    requires Carries(acc.chunks, acc.content, FlatMap(acc.asm.done, CallStart), [])
    ensures var t := FeedText(acc, d);
            Carries(t.chunks, t.content, FlatMap(t.asm.done, CallStart), [])
  {
    var text := DeltaText(d);
    if text != "" {
      CarriesOne(Text(text, false));
      CarriesAppend(acc.chunks, [Text(text, false)], acc.content, text, FlatMap(acc.asm.done, CallStart), [], [], []);
      assert FlatMap(acc.asm.done, CallStart) + [] == FlatMap(acc.asm.done, CallStart);
    } else {
      assert acc.content + text == acc.content && FeedText(acc, d).chunks == acc.chunks;
    }
  }

  lemma FeedToolKeeps(acc: Acc, f: ToolCall)
    requires Carries(acc.chunks, acc.content, FlatMap(acc.asm.done, CallStart), [])
    ensures var t := FeedTool(acc, f);
            Carries(t.chunks, t.content, FlatMap(t.asm.done, CallStart), [])
  {
    if IsNewCall(acc.asm, f) && acc.asm.open.Some? {
      FlushKeeps(acc);
    } else {
      assert FeedTool(acc, f).chunks == acc.chunks;
    }
  }

  lemma FlushKeeps(acc: Acc)
    requires Carries(acc.chunks, acc.content, FlatMap(acc.asm.done, CallStart), []) && acc.asm.open.Some?
    ensures Carries(acc.chunks + [StartChunk(acc.asm.open.value)], acc.content,
                    FlatMap(Close(acc.asm), CallStart), [])
  {
    var c := acc.asm.open.value;
    CarriesOne(StartChunk(c));
    CarriesAppend(acc.chunks, [StartChunk(c)], acc.content, "", FlatMap(acc.asm.done, CallStart), CallStart(c), [], []);
    FlatMapSnoc(acc.asm.done, c, CallStart);
    assert acc.content + "" == acc.content;
  }

  lemma FeedDeltaMeans(acc: Acc, ds: seq<Delta>, d: Delta)
    requires AccMeans(acc, ds)
    ensures AccMeans(FeedDelta(acc, d), ds + [d])
  {
    FlatMapSnoc(ds, d, DeltaText);
    FlatMapSnoc(ds, d, DeltaFragment);
    assert (ds + [d])[..|ds|] == ds;
    FeedTextKeeps(acc, d);
    var frags := FlatMap(ds, DeltaFragment);
    if d.toolCall.Some? {
      FeedToolKeeps(FeedText(acc, d), d.toolCall.value);
      FeedAllAppend(NOTHING, frags, [d.toolCall.value]);
      assert FeedAll(acc.asm, [d.toolCall.value]) == Feed(acc.asm, d.toolCall.value) by {
        assert [d.toolCall.value][1..] == [];
      }
    } else {
      assert frags + [] == frags;
    }
  }

  lemma {:induction false} ReadDeltasMeans(acc: Acc, ds: seq<Delta>, items: seq<Result<Delta, ProviderError>>)
    requires AccMeans(acc, ds)
    ensures var (full, failed) := ReadDeltas(acc, items);
            AccMeans(full, ds + GoodPrefix(items)) && failed == FirstError(items)
    decreases |items|
  {
    if items == [] || items[0].Err? {
      assert ds + [] == ds;
    } else {
      var d := items[0].value;
      FeedDeltaMeans(acc, ds, d);
      ReadDeltasMeans(FeedDelta(acc, d), ds + [d], items[1..]);
      Associate(ds, [d], GoodPrefix(items[1..]));
    }
  }

  /** A stream read to its end yields the concatenated text, the assembled calls and the last usage
      reported, and announces exactly that text and those calls. */
  lemma StreamMeaning(items: seq<Result<Delta, ProviderError>>)
    ensures var (acc, failed) := ReadDeltas(FRESH_ACC, items);
            var ds := GoodPrefix(items);
            && failed == FirstError(items)
            && AccMeans(acc, ds)
            && (var full := FlushAcc(acc);
                && full.content == FlatMap(ds, DeltaText)
                && full.asm.done == Assemble(FlatMap(ds, DeltaFragment))
                && full.usage == LastUsage(ds)
                && Carries(full.chunks, full.content, FlatMap(full.asm.done, CallStart), []))
  {
    ReadDeltasMeans(FRESH_ACC, [], items);
    assert [] + GoodPrefix(items) == GoodPrefix(items);
    var (acc, failed) := ReadDeltas(FRESH_ACC, items);
    AccumulatorMeetsSpec(FlatMap(GoodPrefix(items), DeltaFragment));
    if acc.asm.open.Some? {
      FlushKeeps(acc);
    }
  }

  // ---- the chunk protocol ----

  /** At a loop head the chunks sent so far report the turns so far. */
  ghost predicate ChunkInv(env: Env, c: Conf) {
    Carries(c.chunks, FlatMap(c.log, TurnText), FlatMap(c.log, TurnStarts), FlatMap(c.log, TurnShown(env.hasRegistry)))
  }

  /** The deltas of the turn that failed, up to the error. */
  ghost function AbortedDeltas(env: Env, e: End): seq<Delta> {
    match env.stream(e.conf.history)
    case OpenFailed(_) => []
    case Opened(items) => GoodPrefix(items)
  }

  /** What a natural stop sends before its Finish. */
  function Closing(r: AgentResult): seq<Chunk> {
    if r.finishReason == Stop then [Text("", true), UsageUpdate(r.usage)] else []
  }

  /** The chunks of a run that sent `body` before its end: one terminal chunk, in last place, matching the
      result, and the closing chunks of a natural stop just before it; `body` reports the run. */
  ghost predicate Reports(env: Env, e: End, body: seq<Chunk>) {
    var log := e.conf.log;
    match e.result
    case Ok(r) =>
      && e.conf.chunks == body + (Closing(r) + [Finish(r.finishReason)])
      && Carries(body, FlatMap(log, TurnText), FlatMap(log, TurnStarts), FlatMap(log, TurnShown(env.hasRegistry)))
    case Err(x) =>
      && x.Provider? && e.conf.chunks == body + [Failure(x.message)]
      && var ds := AbortedDeltas(env, e);
         Carries(body, FlatMap(log, TurnText) + FlatMap(ds, DeltaText),
                 FlatMap(log, TurnStarts) + FlatMap(FeedAll(NOTHING, FlatMap(ds, DeltaFragment)).done, CallStart),
                 FlatMap(log, TurnShown(env.hasRegistry)))
  }

  ghost predicate ChunkProtocol(env: Env, e: End) {
    exists body :: Reports(env, e, body)
  }

  lemma {:induction false} AnswerChunksCarry(env: Env, history: seq<Message>, calls: seq<ToolCall>)
    ensures Carries(AnswerChunks(env, history, calls), "", [], FlatMap(Answers(env, history, calls), Shown(env.hasRegistry)))
  {
    var chunks, answers := AnswerChunks(env, history, calls), Answers(env, history, calls);
    if calls == [] {
    } else {
      var rest := calls[1..];
      assert chunks == [chunks[0]] + AnswerChunks(env, history, rest);
      assert answers == [answers[0]] + Answers(env, history, rest);
      AnswerChunksCarry(env, history, rest);
      CarriesOne(chunks[0]);
      CarriesAppend([chunks[0]], AnswerChunks(env, history, rest), "", "", [], [],
                    Shown(env.hasRegistry)(answers[0]), FlatMap(Answers(env, history, rest), Shown(env.hasRegistry)));
    }
  }

  /** The chunks of a streamed reply carry the reply. */
  lemma ReplyChunksCarry(env: Env, c: Conf)
    requires Ask(env, Streaming, c).Answer?
    ensures var a := Ask(env, Streaming, c);
            Carries(a.chunks, a.reply.content, FlatMap(CallsOf(a.reply), CallStart), [])
  {
    StreamMeaning(env.stream(c.history).items);
  }

  lemma ChargedChunks(env: Env, c: Conf, answers: seq<Message>)
    requires ChunkInv(env, c) && Ask(env, Streaming, c).Answer?
    ensures var a := Ask(env, Streaming, c);
            var log := c.log + [Turn(a.reply, a.usage, answers)];
            && Carries(c.chunks + a.chunks, FlatMap(log, TurnText), FlatMap(log, TurnStarts), FlatMap(c.log, TurnShown(env.hasRegistry)))
            && FlatMap(log, TurnShown(env.hasRegistry)) == FlatMap(c.log, TurnShown(env.hasRegistry)) + FlatMap(answers, Shown(env.hasRegistry))
  {
    var a := Ask(env, Streaming, c);
    var t := Turn(a.reply, a.usage, answers);
    ReplyChunksCarry(env, c);
    CarriesAppend(c.chunks, a.chunks, FlatMap(c.log, TurnText), TurnText(t),
                  FlatMap(c.log, TurnStarts), TurnStarts(t), FlatMap(c.log, TurnShown(env.hasRegistry)), []);
    assert FlatMap(c.log, TurnShown(env.hasRegistry)) + [] == FlatMap(c.log, TurnShown(env.hasRegistry));
    FlatMapSnoc(c.log, t, TurnText);
    FlatMapSnoc(c.log, t, TurnStarts);
    FlatMapSnoc(c.log, t, TurnShown(env.hasRegistry));
  }

  lemma AgainKeepsChunkInv(env: Env, cfg: Config, c: Conf)
    requires ChunkInv(env, c) && Ask(env, Streaming, c).Answer?
    ensures ChunkInv(env, WithAnswers(env, cfg, Streaming, c, Ask(env, Streaming, c)))
  {
    var a := Ask(env, Streaming, c);
    var h := c.history + [a.reply];
    var answered := AnsweredCalls(env, cfg, CallsOf(a.reply));
    var answers := Answers(env, h, answered);
    var log := c.log + [Turn(a.reply, a.usage, answers)];
    ChargedChunks(env, c, answers);
    AnswerChunksCarry(env, h, answered);
    CarriesAppend(c.chunks + a.chunks, AnswerChunks(env, h, answered), FlatMap(log, TurnText), "",
                  FlatMap(log, TurnStarts), [], FlatMap(c.log, TurnShown(env.hasRegistry)), FlatMap(answers, Shown(env.hasRegistry)));
    assert FlatMap(log, TurnText) + "" == FlatMap(log, TurnText);
    assert FlatMap(log, TurnStarts) + [] == FlatMap(log, TurnStarts);
  }

  lemma StopWithReplyProtocol(env: Env, c: Conf, reason: FinishReason)
    requires ChunkInv(env, c) && Ask(env, Streaming, c).Answer?
    ensures ChunkProtocol(env, StopWithReply(Streaming, c, Ask(env, Streaming, c), reason))
  {
    var a := Ask(env, Streaming, c);
    var e := StopWithReply(Streaming, c, a, reason);
    ChargedChunks(env, c, []);
    assert FlatMap(c.log, TurnShown(env.hasRegistry)) + [] == FlatMap(e.conf.log, TurnShown(env.hasRegistry));
    assert Reports(env, e, c.chunks + a.chunks);
  }

  /** What a failing reply sends before its Failure chunk. */
  lemma AbortedChunksCarry(env: Env, c: Conf)
    requires Ask(env, Streaming, c).Failed?
    ensures var a := Ask(env, Streaming, c);
            var ds := AbortedDeltas(env, Abort(env, c, a));
            && a.chunks != [] && a.chunks[|a.chunks| - 1] == Failure(env.show(a.error))
            && Carries(a.chunks[..|a.chunks| - 1], FlatMap(ds, DeltaText),
                       FlatMap(FeedAll(NOTHING, FlatMap(ds, DeltaFragment)).done, CallStart), [])
  {
    var a := Ask(env, Streaming, c);
    match env.stream(c.history) {
      case OpenFailed(_) =>
        assert a.chunks[..0] == [];
      case Opened(items) =>
        StreamMeaning(items);
        assert a.chunks[..|a.chunks| - 1] == ReadDeltas(FRESH_ACC, items).0.chunks;
    }
  }

  /** All that an aborted run sends before its Failure chunk. */
  lemma AbortedBodyCarries(env: Env, c: Conf)
    requires ChunkInv(env, c) && Ask(env, Streaming, c).Failed?
    ensures var a := Ask(env, Streaming, c);
            var ds := AbortedDeltas(env, Abort(env, c, a));
            && a.chunks != []
            && Carries(c.chunks + a.chunks[..|a.chunks| - 1], FlatMap(c.log, TurnText) + FlatMap(ds, DeltaText),
                       FlatMap(c.log, TurnStarts) + FlatMap(FeedAll(NOTHING, FlatMap(ds, DeltaFragment)).done, CallStart),
                       FlatMap(c.log, TurnShown(env.hasRegistry)))
  {
    var a := Ask(env, Streaming, c);
    var ds := AbortedDeltas(env, Abort(env, c, a));
    var starts := FlatMap(FeedAll(NOTHING, FlatMap(ds, DeltaFragment)).done, CallStart);
    AbortedChunksCarry(env, c);
    CarriesAppend(c.chunks, a.chunks[..|a.chunks| - 1], FlatMap(c.log, TurnText), FlatMap(ds, DeltaText),
                  FlatMap(c.log, TurnStarts), starts, FlatMap(c.log, TurnShown(env.hasRegistry)), []);
    assert FlatMap(c.log, TurnShown(env.hasRegistry)) + [] == FlatMap(c.log, TurnShown(env.hasRegistry));
  }

  lemma AbortProtocol(env: Env, c: Conf)
    requires ChunkInv(env, c) && Ask(env, Streaming, c).Failed?
    ensures ChunkProtocol(env, Abort(env, c, Ask(env, Streaming, c)))
  {
    var a := Ask(env, Streaming, c);
    var sent := a.chunks[..|a.chunks| - 1];
    AbortedBodyCarries(env, c);
    AbortedChunksCarry(env, c);
    assert a.chunks == sent + [Failure(env.show(a.error))];
    Associate(c.chunks, sent, [Failure(env.show(a.error))]);
    assert Reports(env, Abort(env, c, a), c.chunks + sent);
  }

  lemma HaltProtocol(env: Env, cfg: Config, c: Conf)
    requires ChunkInv(env, c) && Advance(env, cfg, Streaming, c).Halt?
    ensures ChunkProtocol(env, Advance(env, cfg, Streaming, c).end)
  {
    var guard := HeadGuard(env, cfg, c.ls);
    if guard.Some? {
      var e := StopAtHead(Streaming, c, guard.value);
      assert Closing(e.result.value) + [Finish(guard.value)] == [Finish(guard.value)];
      assert Reports(env, e, c.chunks);
    } else {
      var a := Ask(env, Streaming, c);
      if a.Failed? {
        AbortProtocol(env, c);
      } else {
        StopWithReplyProtocol(env, c, if OverBudget(cfg, c.ls.usage.total + a.usage.total) then TokenBudget else Stop);
      }
    }
  }

  lemma {:induction false} ProtocolFrom(env: Env, cfg: Config, c: Conf)
    requires ChunkInv(env, c)
    ensures ChunkProtocol(env, LoopFrom(env, cfg, Streaming, c))
    decreases Max(cfg.maxTurns - c.ls.turn, 0)
  {
    match Advance(env, cfg, Streaming, c)
    case Halt(_) => HaltProtocol(env, cfg, c);
    case Again(c') =>
      AgainKeepsChunkInv(env, cfg, c);
      ProtocolFrom(env, cfg, c');
  }

  /** The chunks of a streaming run: one Finish or one Failure, in last place and matching the
      result; before it, the replies' text, their calls and the tool results, in order. */
  lemma ChunkLaw(env: Env, cfg: Config, history: seq<Message>, message: string, queried: nat)
    ensures ChunkProtocol(env, RunSpec(env, cfg, Streaming, history, message, queried))
  {
    ProtocolFrom(env, cfg, Initial(history, message, queried));
  }

  // ---- the streaming driver refines the blocking one ----

  /** The deltas decompose the response: texts, tool fragments and usage add up to it. */
  ghost predicate Decomposes(ds: seq<Delta>, resp: Response) {
    && resp.message == AssistantMessage(FlatMap(ds, DeltaText), Assemble(FlatMap(ds, DeltaFragment)))
    && LastUsage(ds) == Some(resp.usage)
  }

  /** What the stream for a history delivers corresponds to this outcome of a completion. */
  ghost predicate Matches(env: Env, stream: StreamReply, outcome: Result<Response, ProviderError>) {
    match outcome
    case Ok(resp) => stream.Opened? && FirstError(stream.items) == None && Decomposes(GoodPrefix(stream.items), resp)
    case Err(e) =>
      var failure := if stream.OpenFailed? then Some(stream.error) else FirstError(stream.items);
      failure.Some? && env.show(failure.value) == env.show(e)
  }

  /** For every history, whatever the retries come to, the stream corresponds to it. */
  ghost predicate StreamsAgree(env: Env) {
    forall h, q: nat :: Matches(env, env.stream(h), Completion(env, h, q).0)
  }

  /** Two configurations that differ only in the requests made and the chunks sent. */
  ghost predicate Similar(b: Conf, s: Conf) {
    b == s.(queried := b.queried, chunks := b.chunks)
  }

  lemma AskAgrees(env: Env, b: Conf, s: Conf)
    requires Matches(env, env.stream(b.history), Completion(env, b.history, b.queried).0) && Similar(b, s)
    ensures var x, y := Ask(env, Blocking, b), Ask(env, Streaming, s);
            && (x.Answer? <==> y.Answer?)
            && (x.Answer? ==> x.reply == y.reply && x.usage == y.usage)
            && (x.Failed? ==> env.show(x.error) == env.show(y.error))
  {
    match env.stream(b.history)
    case OpenFailed(_) =>
    case Opened(items) => StreamMeaning(items);
  }

  ghost predicate SameStep(x: Step, y: Step) {
    match (x, y)
    case (Again(b), Again(s)) => Similar(b, s)
    case (Halt(b), Halt(s)) => b.result == s.result && Similar(b.conf, s.conf)
    case _ => false
  }

  lemma SettleAgrees(env: Env, cfg: Config, b: Conf, s: Conf, x: Asked, y: Asked)
    requires Similar(b, s) && x.Answer? && y.Answer? && x.reply == y.reply && x.usage == y.usage
    ensures SameStep(Settle(env, cfg, Blocking, b, x), Settle(env, cfg, Streaming, s, y))
  {
  }

  lemma AdvanceAgrees(env: Env, cfg: Config, b: Conf, s: Conf)
    requires StreamsAgree(env) && Similar(b, s)
    ensures SameStep(Advance(env, cfg, Blocking, b), Advance(env, cfg, Streaming, s))
  {
    if HeadGuard(env, cfg, b.ls).None? {
      assert Matches(env, env.stream(b.history), Completion(env, b.history, b.queried).0);
      AskAgrees(env, b, s);
      var x, y := Ask(env, Blocking, b), Ask(env, Streaming, s);
      if x.Answer? {
        SettleAgrees(env, cfg, b, s, x, y);
      }
    }
  }

  lemma {:induction false} DriversAgree(env: Env, cfg: Config, b: Conf, s: Conf)
    requires StreamsAgree(env) && Similar(b, s)
    ensures var x, y := LoopFrom(env, cfg, Blocking, b), LoopFrom(env, cfg, Streaming, s);
            x.result == y.result && Similar(x.conf, y.conf)
    decreases Max(cfg.maxTurns - b.ls.turn, 0)
  {
    AdvanceAgrees(env, cfg, b, s);
    var x, y := Advance(env, cfg, Blocking, b), Advance(env, cfg, Streaming, s);
    if x.Again? {
      DriversAgree(env, cfg, x.conf, y.conf);
    }
  }

  /** From equal histories both drivers end with the same result, history, log and trace. */
  lemma StreamingRefinesBlocking(env: Env, cfg: Config, history: seq<Message>, message: string, q: nat, q': nat)
    requires StreamsAgree(env)
    ensures var b := RunSpec(env, cfg, Blocking, history, message, q);
            var s := RunSpec(env, cfg, Streaming, history, message, q');
            && b.result == s.result
            && b.conf.history == s.conf.history
            && b.conf.trace == s.conf.trace
            && b.conf.log == s.conf.log
  {
    DriversAgree(env, cfg, Initial(history, message, q), Initial(history, message, q'));
  }

  /** A sufficient condition on single requests: the stream corresponds to every one of them, and no
      error is one that a retry layer would retry. */
  ghost predicate RequestsAgree(env: Env) {
    forall h, n: nat ::
      var outcome := env.completeInner(h, n);
      && Matches(env, env.stream(h), outcome)
      && (outcome.Err? ==> !IsRetryableError(outcome.error, env.providerRetry) && !LoopRetryable(outcome.error))
  }

  lemma AgreementFromRequests(env: Env)
    requires RequestsAgree(env)
    ensures StreamsAgree(env)
  {
    forall h, q: nat
      ensures Matches(env, env.stream(h), Completion(env, h, q).0)
    {
      var outcome := env.completeInner(h, q);
      assert Matches(env, env.stream(h), outcome);
      assert ProviderComplete(env, h)(q) == (outcome, q + 1);
      assert Completion(env, h, q) == (outcome, q + 1);
    }
  }

  /** A response streamed piece by piece: its text, the fragments one delta each, its usage. */
  function StreamOf(resp: Response, frags: seq<ToolCall>): seq<Delta> {
    [Delta(Some(resp.message.content), None, None)] + FragmentDeltas(frags) + [Delta(None, None, Some(resp.usage))]
  }

  function FragmentDeltas(frags: seq<ToolCall>): seq<Delta> {
    seq(|frags|, i requires 0 <= i < |frags| => Delta(None, Some(frags[i]), None))
  }

  lemma {:induction false} FragmentDeltasMeaning(frags: seq<ToolCall>)
    ensures FlatMap(FragmentDeltas(frags), DeltaText) == "" && FlatMap(FragmentDeltas(frags), DeltaFragment) == frags
  {
    if frags == [] {
    } else {
      FragmentDeltasMeaning(frags[1..]);
      assert FragmentDeltas(frags)[1..] == FragmentDeltas(frags[1..]);
      assert [frags[0]] + frags[1..] == frags;
    }
  }

  lemma StreamOfMeaning(resp: Response, frags: seq<ToolCall>)
    ensures var ds := StreamOf(resp, frags);
            && FlatMap(ds, DeltaText) == resp.message.content
            && FlatMap(ds, DeltaFragment) == frags
            && LastUsage(ds) == Some(resp.usage)
  {
    var mid := FragmentDeltas(frags);
    var first, last := Delta(Some(resp.message.content), None, None), Delta(None, None, Some(resp.usage));
    FragmentDeltasMeaning(frags);
    FlatMapSnoc([first] + mid, last, DeltaText);
    FlatMapSnoc([first] + mid, last, DeltaFragment);
    FlatMapAppend([first], mid, DeltaText);
    FlatMapAppend([first], mid, DeltaFragment);
    FlatMapSingle(first, DeltaText);
    FlatMapSingle(first, DeltaFragment);
  }

  predicate AssistantShaped(m: Message) {
    m == AssistantMessage(m.content, CallsOf(m))
  }

  /** Which responses some stream delivers faithfully: assistant messages whose calls all have an id. */
  lemma StreamableIff(resp: Response)
    ensures (exists ds :: Decomposes(ds, resp))
       <==> AssistantShaped(resp.message)
            && forall i :: 0 <= i < |CallsOf(resp.message)| ==> CallsOf(resp.message)[i].id != ""
  {
    var calls := CallsOf(resp.message);
    if ds :| Decomposes(ds, resp) {
      AssembledIdsNonEmpty(FlatMap(ds, DeltaFragment));
    }
    if AssistantShaped(resp.message) && forall i :: 0 <= i < |calls| ==> calls[i].id != "" {
      SeparatedReassembles(calls);
      StreamOfMeaning(resp, Separated(calls));
      assert Decomposes(StreamOf(resp, Separated(calls)), resp);
    }
  }

  lemma {:induction false} WholeCalls(calls: seq<ToolCall>) returns (frags: seq<seq<ToolCall>>)
    ensures Concat(frags) == calls && SplitsOf(calls, frags)
  {
    if calls == [] {
      frags := [];
    } else {
      var c := calls[0];
      var rest := WholeCalls(calls[1..]);
      frags := [[c]] + rest;
      assert frags[1..] == rest && [c] + calls[1..] == calls;
      WholeCall(c);
    }
  }

  /** The plainest stream, one delta per call and nothing else, delivers those of them whose
      neighbouring calls have different ids. */
  lemma PlainStreamDecomposes(resp: Response)
    ensures Decomposes(StreamOf(resp, CallsOf(resp.message)), resp)
       <==> AssistantShaped(resp.message) && Addressable(CallsOf(resp.message))
  {
    var calls := CallsOf(resp.message);
    StreamOfMeaning(resp, calls);
    var frags := WholeCalls(calls);
    ReassemblyRoundTrip(calls, frags);
  }
}
