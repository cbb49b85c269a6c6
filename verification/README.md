# A verified model of claw-kernel

The project models the parts of claw-kernel whose behaviour spans many calls: the two drivers of the
agent loop, the framing of provider streams, admission of inbound messages, the cron scheduler and
its store, the memory quota, the hot-swapped sender, and the retry layers. Run
`dafny verify dfyconfig.toml` to check it.

## How it is organised

| files | what they hold |
|---|---|
| Base, Chat | options, results, messages, usage, provider errors, byte lengths of texts |
| StateMachines | the validated state machine and its transition table |
| Retry, Backoff | the retry loops; delay arithmetic and agent restarts |
| ToolAssembly | reassembly of streamed tool-call fragments |
| AgentSpec | what a run of the agent loop computes, for either driver |
| AgentLoops | `run` and `run_streaming` step by step, proved against AgentSpec |
| AgentLaws | laws of whole runs: trace, history, tokens, request bounds |
| AgentPairing | which requests and final histories have every tool call answered |
| AgentRequests | what happens at every loop head: stops, requests, failures, and what tool results say |
| AgentStreaming | the chunk protocol, and that streaming refines blocking |
| LineFraming, EventStreams | carry-over and per-chunk line framing; what each line of a stream yields |
| TokenBuckets, Dedup, Routing, RoutingLaws, Webhook | admission control and its composition |
| Cron, CronLaws | the scheduler and its agreement with the trigger store |
| SecureMemory, MemoryIsolation, QuotaProtocol | the memory wrapper, what isolation guarantees over runs, and the quota under concurrency |
| HotSwap | senders and channel swaps interleaved |

Code that changes state in place is a class or a method with loops, proved against a specification
function; the laws are lemmas about those functions. `AgentLoop.Run` and `AgentLoop.RunStreaming`
are both proved equal to `AgentSpec.RunSpec` (one function with a driver parameter), so every law of
`RunSpec` is a law of the two methods.

The environment of the agent loop is a set of functions: a single provider request answers according
to the history sent and to the number of requests made before it; a delta stream and a tool answer
according to the history, which is longer on every turn. Stop conditions are functions of the loop
state. The laws are told on the data they are about: on rules, headers, texts, clock readings and token
counts, not through the functions that compute the answers. Clock readings are arguments. The trace of broadcast states and the chunks sent are sequences.

## What the proofs found

- Streaming refines blocking whenever the streams decompose the responses. Some stream decomposes a
  response exactly when it is an assistant message whose calls all have a non-empty id
  (`StreamableIff`); the plainest one, a delta per call, also needs neighbours to differ in id
  (`PlainStreamDecomposes`).
- The driver's comment has a fragment without a new id accumulate the arguments of the ongoing call. A
  fragment with an empty id does not: it ends the call and loses its own arguments
  (`EmptyIdSeparates`). Assembly agrees with that reading exactly when such fragments bring no arguments
  and no call goes on after one (`ContinuesIff`); otherwise `ContinuationLoss` counts what is lost. The
  chunk parsers of the repository itself put no tool call into a delta
  (crates/claw-provider/src/openai/format.rs:257, crates/claw-provider/src/anthropic/format.rs:209), so
  this concerns other sources of deltas.
- A request carries a history with every earlier tool call answered exactly when the run began with
  such a history and no turn so far exceeded `max_tool_calls_per_turn` (`RequestsPairedIff`); a stop on
  a reply that wants tools leaves calls open for the next run (`FinalHistoryPairedIff`).
- The token-budget guard at the loop head is unreachable (`HeadBudgetGuardIsDead`).
- `AgentResult.tool_calls` is documented as the calls executed. It lists the calls requested; the two
  agree exactly when no tool turn exceeds `max_tool_calls_per_turn` (`ReportedCallsAreAnswered`).
- The comment on `build_transition_table` lets `LLMResponseReceived` lead to ToolExecuting as well.
  The table has only Running there and uses `ToolsRequired` for the other; the model follows the table.
- `into_sse_stream` validates only complete lines: an unterminated last `data` line is passed on even
  when it is not JSON or is the end marker (`FinalNewlineMatters`).
- Chunking is invisible to the per-chunk splitters exactly when every cut falls at a line boundary, up
  to white space (`PerChunkInvisibleIff`).
- With stamps taken before the lock, the distance between two acceptances of an id shrinks from the
  time to live by the lag (`AcceptancesAreApart`), and sweeping the cache is invisible exactly when
  there is no lag, or nothing to remember (`SweepingInvisibleIff`).
- A webhook request whose body does not parse still uses up its id: the corrected retry is queued
  exactly when the time to live is over (`BadBodyUsesUpTheId`). The router drops a message queued under
  a header id exactly when a header-less one with that id was routed within the time to live
  (`RouterDropsIff`).
- Every occurrence of a cron job since its registration is consumed by a fire or passed over by one, and
  never both, unless it is still ahead (`OccurrencesAccounted`).
- A restart brings back exactly the cron jobs that occur again after it (`RestartRebuilds`); a job whose
  last occurrence falls into the downtime is lost without having fired (`DowntimeLosesAJob`).
- The quota holds in every interleaving exactly when the inner store measures each item within its
  estimate (`QuotaHoldsIff`). The estimate is taken before the namespace is rewritten
  (`EstimatingStoreQuotaIff`), and the SQLite store measures an embedding by its JSON text although four
  bytes per number are charged (`SqliteQuotaIff`), so one admitted item can exceed the quota
  (`SqliteOutgrowsEstimate`). Without the lock, two tasks that both read the usage before either writes
  stay within every quota exactly when their stored sizes together fit the larger estimate, and each its
  own (`RaceSafeIff`).
- Ids are not checked against the namespace that owns them: with isolation on, a wrapper sees nothing of
  other namespaces (`OthersAreInvisible`), but storing or deleting an id of theirs takes that item away
  (`OthersKeepAllIff`).
- The exponential backoff is documented as capped growth. From attempt 64 on the 64-bit cast leaves
  zero and the delay is zero (`BackoffCollapses`); `LowerBoundIff` says exactly when the documented
  lower bound holds.

## Model

| member | source | states |
|---|---|---|
| StateMachines.StateMachine.constructor | crates/claw-loop/src/state_machine.rs:128-137 | a new machine is Idle and its table and per-state event index are exactly the legal moves |
| StateMachines.StateMachine.AddTransition | crates/claw-loop/src/state_machine.rs:301-306 | inserting a row keeps table and index in agreement, without repeats |
| StateMachines.StateMachine.BuildTransitionTable | crates/claw-loop/src/state_machine.rs:227-299 | the rows added are exactly the legal moves |
| StateMachines.StateMachine.Transition | crates/claw-loop/src/state_machine.rs:172-199 | a legal event moves to its target; an illegal one changes nothing and lists exactly the events legal there |
| StateMachines.MovesAreLegal | crates/claw-loop/src/state_machine.rs:227-299 | the legal moves are these seventeen and no other |
| StateMachines.RestartNeedsResetAndStart | crates/claw-loop/src/state_machine.rs:227-299 | to be active again after finishing, a machine passes a Reset and a Start |
| Retry.WithRetry | crates/claw-provider/src/retry.rs:135-161 | the retry loop equals the attempt function, and sleeps for exactly the attempts followed by a retry |
| Retry.OneWaitPerRetry | crates/claw-pal/src/retry.rs:107-143 | a loop that makes n calls waits n - 1 times, for attempts 0, 1, 2 and so on |
| Retry.FirstDecisiveOutcome | crates/claw-pal/src/retry.rs:107-143 | it returns the first success, first permanent error or last error allowed, after only retryable errors |
| Retry.RetryBound | crates/claw-provider/src/retry.rs:166-194 | retrying an operation of at most c calls makes at most (retries + 1) * c calls |
| Retry.RecvWithReconnect | crates/claw-channel/src/retry.rs:145-170 | recv equals the attempt function and performs receive, sleep, connect in that pattern |
| Retry.OneConnectFewer | crates/claw-channel/src/retry.rs:145-170 | recv connects exactly once less often than it receives, and receives last |
| Retry.ActionAt | crates/claw-channel/src/retry.rs:145-170 | the k-th retry sleeps for attempt k and then connects, between two receives |
| ToolAssembly.AccumulatorMeetsSpec | crates/claw-loop/src/agent_loop.rs:674-716 | feeding fragments one by one yields maximal runs of equal id, without the empty-id runs, first name kept, arguments concatenated |
| ToolAssembly.EmptyIdSeparates | crates/claw-loop/src/agent_loop.rs:674-700 | a fragment with an empty id splits the sequence in two independent assemblies and contributes nothing |
| ToolAssembly.ContinuesIff | crates/claw-loop/src/agent_loop.rs:690-698 | on every fragment sequence, empty ids assemble as continuations of the call before them exactly when they bring no arguments and the call does not go on |
| ToolAssembly.ContinuationLoss | crates/claw-loop/src/agent_loop.rs:674-716 | otherwise exactly the arguments of those fragments are lost, and each call taken up again becomes one call more |
| ToolAssembly.ContinuationLost | crates/claw-loop/src/agent_loop.rs:690-698 | the loss on one input of two fragments |
| ToolAssembly.ReassemblyRoundTrip | crates/claw-loop/src/agent_loop.rs:633-716 | any split of a call list into same-id fragments reassembles to it exactly when ids are non-empty and adjacent-distinct |
| ToolAssembly.AssemblesIff | crates/claw-loop/src/agent_loop.rs:633-716 | some fragment sequence assembles to a call list exactly when no id in it is empty |
| AgentLoops.AgentLoop.Transition | crates/claw-loop/src/agent_loop.rs:349-376 | a legal event updates machine, shared state and broadcast together; an illegal one changes none of them |
| AgentLoops.AgentLoop.HeadCheck | crates/claw-loop/src/agent_loop.rs:84-135 | the three guards of the loop head, in their order; what each comes to over a run is stated by AgentRequests |
| AgentLoops.AgentLoop.ExecuteToolsParallel | crates/claw-loop/src/agent_loop.rs:382-442 | one result per call within the limit, in call order, with parse failures and tool errors as contents |
| AgentLoops.AgentLoop.RunTools | crates/claw-loop/src/agent_loop.rs:248-320 | the tool phase leads to the loop head the specification gives: exactly the answers appended, announced when streaming, through ToolExecuting back to Running |
| AgentLoops.AgentLoop.BlockingTurn | crates/claw-loop/src/agent_loop.rs:80-343 | one iteration, from a loop head to the next or to the end, is one step of the specification |
| AgentLoops.AgentLoop.Run | crates/claw-loop/src/agent_loop.rs:63-343 | the blocking driver ends with the result, history, state, broadcasts and request count of the specification |
| AgentLoops.AgentLoop.ReadStream | crates/claw-loop/src/agent_loop.rs:633-716 | reading a delta stream accumulates text, calls and usage, forwards chunks as they arrive, and stops at the first error |
| AgentLoops.AgentLoop.StreamingTurn | crates/claw-loop/src/agent_loop.rs:543-871 | one streaming iteration is one step of the specification, chunks included |
| AgentLoops.AgentLoop.RunStreaming | crates/claw-loop/src/agent_loop.rs:524-871 | the streaming driver ends as the specification says, chunks included |
| AgentLaws.TraceLaw | crates/claw-loop/src/agent_loop.rs:63-343 | the trace is Running, tool rounds, then one of three endings; no invalid transition; Ok ends in Completed, failure in Error |
| AgentLaws.HistoryLaw | crates/claw-loop/src/agent_loop.rs:238-320 | a run appends the user message, then per turn the reply and its tool results, ids matching the calls within the limit in order |
| AgentLaws.EveryCallAnswered | crates/claw-loop/src/agent_loop.rs:382-392 | every call of every non-final turn is answered once exactly when no turn exceeds the limit or there is no registry |
| AgentLaws.ReportedCallsAreAnswered | crates/claw-loop/src/agent_loop.rs:248-250 | the reported calls are the ones that got results exactly when no tool turn exceeded the limit |
| AgentLaws.AccountLaw | crates/claw-loop/src/agent_loop.rs:199-226 | each token count is the sum over turns, turns stay within max_turns, and a run stops for the budget exactly when the total reaches it for the first time |
| AgentLaws.HeadBudgetGuardIsDead | crates/claw-loop/src/agent_loop.rs:132-155 | at every loop head a run reaches, the total is below the budget or there is none, so the guard there never fires |
| AgentLaws.CompletionBound | crates/claw-provider/src/traits.rs:535-542 | one reply costs at most 4 * (m + 1) provider requests |
| AgentLaws.RunQueriesBounded | crates/claw-loop/src/agent_loop.rs:80-202 | a whole run makes at most max_turns * 4 * (m + 1) provider requests |
| AgentRequests.HeadState | crates/claw-loop/src/agent_loop.rs:80-320 | at every loop head the stop conditions see the turns made, the tokens used and the history length after the last results |
| AgentRequests.StopConditionEnds | crates/claw-loop/src/agent_loop.rs:85-108 | a head where some stop condition holds ends the run there for that reason, with nothing more asked, also when the turns are used up |
| AgentRequests.TurnsEnd | crates/claw-loop/src/agent_loop.rs:110-130 | else a head with the turns used up ends it for that reason |
| AgentRequests.BlockingRequest | crates/claw-loop/src/agent_loop.rs:157-200 | else the provider is sent the history of the head, and its reply and usage are kept |
| AgentRequests.StreamingRequest | crates/claw-loop/src/agent_loop.rs:600-765 | the streaming driver streams the reply to that history: its text, its assembled calls, and the usage reported last or estimated by length |
| AgentRequests.FailingCompletion | crates/claw-provider/src/retry.rs:100-161 | a provider that always fails with one error is asked exactly as often as the two retry layers list that error |
| AgentRequests.BlockingFailure | crates/claw-loop/src/agent_loop.rs:157-200 | and its error ends the run with the history as it was sent |
| AgentRequests.StreamingFailure | crates/claw-loop/src/agent_loop.rs:600-672 | a stream that does not open or breaks off ends the run with that error, without a retry |
| AgentRequests.ResultsSayWhatToolsDid | crates/claw-loop/src/agent_loop.rs:382-442 | over a whole run every tool result holds the tool's output, its rendered error, the parse failure, or the fixed notice |
| AgentPairing.RequestsPairedIff | crates/claw-loop/src/agent_loop.rs:238-320 | the history each request carries has every call answered at once and in order exactly when the history before the run had and no turn so far exceeded the limit |
| AgentPairing.FinalHistoryPairedIff | crates/claw-loop/src/agent_loop.rs:199-342 | the history a run leaves is paired exactly when it began paired, no turn exceeded the limit and the last reply left no call open |
| AgentPairing.LeftOpenWhen | crates/claw-loop/src/agent_loop.rs:199-240 | a final reply leaves calls open only on a budget stop or with tool use off |
| AgentPairing.RepliesAreAssistant | crates/claw-loop/src/agent_loop.rs:719-755 | streamed replies are assistant messages, completed ones when the provider's are, which the two results above need |
| AgentPairing.LimitLeavesCallsOpen | crates/claw-loop/src/agent_loop.rs:382-392 | a run with two calls requested and one allowed reports both, answers one and leaves an unpaired history |
| AgentStreaming.StreamMeaning | crates/claw-loop/src/agent_loop.rs:633-729 | a stream yields concatenated text, assembled calls and last usage, and its chunks carry exactly that text and those calls |
| AgentStreaming.ChunkLaw | crates/claw-loop/src/agent_loop.rs:543-870 | exactly one Finish or failure chunk, last, matching the result, after the empty final text and the usage of a natural stop; before them all text, all call starts and all tool results with their contents, in order, those of an aborted turn included |
| AgentStreaming.StreamingRefinesBlocking | crates/claw-loop/src/agent_loop.rs:524-871 | when streams correspond to completions both drivers end with equal result, history, log and trace |
| AgentStreaming.AgreementFromRequests | crates/claw-provider/src/retry.rs:100-112 | correspondence with every single request and no retryable error suffice for that |
| AgentStreaming.StreamableIff | crates/claw-loop/src/agent_loop.rs:633-765 | some delta stream decomposes a response exactly when it is an assistant message whose calls all have an id |
| AgentStreaming.PlainStreamDecomposes | crates/claw-loop/src/agent_loop.rs:737-765 | the stream with one delta per call decomposes it exactly when, besides, neighbouring calls differ in id |
| LineFraming.LinesPartition | crates/claw-provider/src/streaming.rs:237-240 | cutting a text at its newlines loses nothing |
| LineFraming.LinesAppend | crates/claw-provider/src/streaming.rs:231-240 | carrying the unfinished line over gives the lines of the whole text |
| LineFraming.DrainLines | crates/claw-provider/src/streaming.rs:237-258 | taking lines off the buffer handles the complete ones in order, stops at an aborting one, and leaves the remainder |
| LineFraming.CarryOver | crates/claw-provider/src/streaming.rs:220-318 | the buffered loop equals the batch function of the text received and the transport error |
| LineFraming.IntoSseStream | crates/claw-provider/src/streaming.rs:220-275 | event-stream output depends only on the concatenated text and the transport error |
| LineFraming.IntoNdjsonStream | crates/claw-provider/src/streaming.rs:278-318 | the same for newline-delimited JSON, where a bad line ends the stream |
| LineFraming.ResplitInvisible | crates/claw-provider/src/streaming.rs:220-318 | cutting or joining pieces anywhere changes no output |
| LineFraming.FinalNewlineMatters | crates/claw-provider/src/streaming.rs:261-271 | a final newline changes the output exactly for a data line that is not JSON or is the end marker |
| LineFraming.NdjsonFinalNewline | crates/claw-provider/src/streaming.rs:308-313 | for newline-delimited JSON a final newline changes nothing |
| EventStreams.SpacesAreWhiteSpace | crates/claw-provider/src/streaming.rs:126-160 | trimming removes the Unicode White_Space characters |
| EventStreams.TrimMeans | crates/claw-provider/src/streaming.rs:126-160 | from both ends and nothing else |
| EventStreams.DataField | crates/claw-provider/src/streaming.rs:126-258 | a data line yields its JSON as content, an error for other text, nothing for the end marker or an empty value, with white space wherever it is allowed |
| EventStreams.DoubledDataField | crates/claw-provider/src/streaming.rs:191-258 | a doubled field name is checked without it and passed on with it |
| EventStreams.EventField | crates/claw-provider/src/streaming.rs:126-160 | an event line yields nothing unless it announces an error |
| EventStreams.OtherField | crates/claw-provider/src/streaming.rs:126-160 | any other field yields nothing |
| EventStreams.NoField | crates/claw-provider/src/streaming.rs:126-160 | nor does a comment, a blank line or a line without a colon |
| EventStreams.LastLine | crates/claw-provider/src/streaming.rs:261-271 | an unterminated data line is passed on unchecked |
| EventStreams.SseText | crates/claw-provider/src/streaming.rs:220-275 | a whole text yields what its lines yield, then the transport error, or what the unterminated line yields |
| EventStreams.SseContent | crates/claw-provider/src/streaming.rs:220-275 | one data line as a stream sends it yields its content |
| EventStreams.NdjsonLineMeans | crates/claw-provider/src/streaming.rs:278-318 | a JSON line is passed on as it stands, a blank one yields nothing, any other ends the stream |
| EventStreams.NdjsonText | crates/claw-provider/src/streaming.rs:278-318 | a whole text yields what its lines yield, the last one without newline included |
| EventStreams.NdjsonEnds | crates/claw-provider/src/streaming.rs:278-318 | a bad line is the last thing the stream yields |
| EventStreams.ReceivedMeans | crates/claw-provider/src/streaming.rs:228-236 | the text received is the concatenation of the pieces before the first transport error |
| LineFraming.CutUnnoticedIff | crates/claw-provider/src/stream_utils.rs:98-118 | a cut between two chunks goes unnoticed exactly at a line boundary, up to white space |
| LineFraming.ChunkingInvisibleIff | crates/claw-provider/src/stream_utils.rs:98-118 | for every chunk list the per-chunk lines are those of the whole text exactly when every cut falls at a line boundary, up to white space |
| LineFraming.PerChunkInvisibleIff | crates/claw-provider/src/traits.rs:325-350 | the same for the parsed output: all parsers agree on chunks and whole text exactly then |
| LineFraming.PerChunkAtLineBoundaries | crates/claw-provider/src/traits.rs:325-350 | and then every parser, of any item type, gives the batch output |
| EventStreams.ChunkText | crates/claw-provider/src/stream_utils.rs:98-118 | a chunk yields its lines, the last one included |
| EventStreams.ChunkLine | crates/claw-provider/src/stream_utils.rs:98-118 | each trimmed, unless it is blank |
| EventStreams.BrokenChunk | crates/claw-provider/src/stream_utils.rs:92-118 | a transport error between chunks is one failed item |
| TokenBuckets.TokenBucket.TryConsume | crates/claw-channel/src/webhook.rs:61-72 | one call refills by elapsed time up to the capacity and takes a token if there is one |
| TokenBuckets.WindowBound | crates/claw-channel/src/webhook.rs:50-72 | accepted calls of any window number at most capacity plus refill of its length |
| TokenBuckets.BucketWindowBound | crates/claw-channel/src/webhook.rs:49-72 | for the bucket itself: at most capacity plus length times capacity over period |
| TokenBuckets.ZeroPeriodVerdicts | crates/claw-channel/src/webhook.rs:49-72 | a zero period never refuses, unless the capacity is zero |
| TokenBuckets.AcceptedIffEveryWindowAllows | crates/claw-channel/src/webhook.rs:61-72 | a fresh bucket accepts a call exactly when every window ending there has room |
| TokenBuckets.BucketAcceptsIff | crates/claw-channel/src/webhook.rs:49-72 | the same at the bucket's own rate |
| TokenBuckets.BackwardClock | crates/claw-channel/src/webhook.rs:61-72 | a clock that runs backwards brings no tokens |
| TokenBuckets.RejectedCallIsInvisible | crates/claw-channel/src/webhook.rs:61-72 | deleting a rejected call changes no other verdict |
| Dedup.RequestDeduplicator.CheckAndInsert | crates/claw-channel/src/webhook.rs:111-131 | one call sweeps every gc_interval calls and decides by the entry left |
| Dedup.SweepingIsInvisible | crates/claw-channel/src/webhook.rs:111-131 | with ordered stamps the verdicts are "accepted less than ttl ago", whatever the sweeping schedule |
| Dedup.AcceptancesAreApart | crates/claw-channel/src/webhook.rs:111-131 | with stamps lagging by at most d, acceptances of one id are at least ttl - d apart |
| Dedup.LagMakesSweepingVisible | crates/claw-channel/src/webhook.rs:111-118 | that bound is attained for every positive lag and ttl, and only because of a sweep |
| Dedup.SweepingInvisibleIff | crates/claw-channel/src/webhook.rs:111-131 | verdicts do not depend on the sweeping schedule exactly when stamps do not lag or the ttl is zero |
| Routing.ChannelRouter.Route | crates/claw-channel/src/router.rs:210-254 | the first matching explicit rule, else the last Default |
| Routing.ChannelRouter.BroadcastRoute | crates/claw-channel/src/router.rs:269-317 | the agents of all matching explicit rules once each, else the last Default |
| Routing.ChannelRouter.RemoveRulesForAgent | crates/claw-channel/src/router.rs:379-392 | exactly the agent's rules go, and their number is returned |
| Routing.RouteIsHeadOfBroadcast | crates/claw-channel/src/router.rs:210-317 | single routing is the head of the broadcast, which names no agent twice |
| RoutingLaws.FirstRuleDecides | crates/claw-channel/src/router.rs:210-254 | the first rule that names the message by channel, sender or pattern decides |
| RoutingLaws.LastDefaultDecides | crates/claw-channel/src/router.rs:210-317 | when none does, the last Default gets it, alone |
| RoutingLaws.NobodyDecides | crates/claw-channel/src/router.rs:210-317 | and without a Default nobody |
| RoutingLaws.BroadcastOrder | crates/claw-channel/src/router.rs:269-317 | a broadcast names its agents in the order of the rules that first name the message for them |
| Routing.BroadcastReaches | crates/claw-channel/src/router.rs:269-317 | which agents a broadcast reaches, in terms of the rules alone |
| Routing.DefaultPositionIsIrrelevant | crates/claw-channel/src/router.rs:203-209 | moving Default rules without reordering them changes no answer |
| Routing.RemovalLaw | crates/claw-channel/src/router.rs:379-392 | a removed agent is never reached, answers naming another agent stay, and a broadcast that still has an explicit match loses that agent alone, else goes to the last Default left |
| Routing.DeduplicatingRouter.IsDuplicate | crates/claw-channel/src/router.rs:645-664 | the router's cache is the same time-to-live cache |
| Routing.DeduplicatingRouter.Route | crates/claw-channel/src/router.rs:669-675 | duplicates get no agent, new ids the rules' answer |
| Routing.DeduplicatingRouter.BroadcastRoute | crates/claw-channel/src/router.rs:680-686 | duplicates reach nobody, new ids the broadcast |
| Webhook.WebhookHandler.Post | crates/claw-channel/src/webhook.rs:338-392 | limit, signature, deduplication and parsing in order, each answer told on the headers and the body: what is refused, what counts as known, what is queued under which id; rejected and badly signed requests leave the cache unchanged |
| Webhook.BadBodyUsesUpTheId | crates/claw-channel/src/webhook.rs:358-391 | an unparsable body uses up its id: whatever is posted in between under other ids, the corrected retry is queued exactly when the ttl is over |
| Webhook.RouterDropsIff | crates/claw-channel/src/webhook.rs:370-384 | with no delay the router drops what was queued under a header id exactly when a header-less post with that id was routed within the ttl |
| Webhook.RouterDropsNothing | crates/claw-channel/src/webhook.rs:370-384 | so with separate ids it drops nothing queued under a header id |
| Webhook.SharedIdsCanBeDropped | crates/claw-channel/src/webhook.rs:378-384 | without that separation it can |
| Webhook.RoutedOncePerTtl | crates/claw-channel/src/router.rs:645-675 | an id is routed at most once per ttl, however often the HTTP cache is lost |
| Cron.CronScheduler.Add | crates/claw-runtime/src/cron_scheduler.rs:178-246 | validation, duplicate check, registration with the first occurrence after now, and persistence, with the error of each failure |
| Cron.CronScheduler.Remove | crates/claw-runtime/src/cron_scheduler.rs:253-269 | removes a registered job and its record; an id known only to the store is left there |
| Cron.CronScheduler.RestoreFromStore | crates/claw-runtime/src/cron_scheduler.rs:288-374 | adds exactly the enabled cron records that parse and still fire, and no other |
| Cron.CronScheduler.Tick | crates/claw-runtime/src/cron_scheduler.rs:397-479 | due jobs are announced once each with their targets, moved to their next occurrence, or removed from map and store when exhausted |
| CronLaws.FiresBoundedByOccurrences | crates/claw-runtime/src/cron_scheduler.rs:390-481 | the fires of a job never outnumber its occurrences since registration |
| CronLaws.OccurrencesAccounted | crates/claw-runtime/src/cron_scheduler.rs:417-462 | an occurrence since registration is consumed by a fire or passed over by a firing tick, never both, unless it is still ahead |
| CronLaws.FiresCountOccurrencesIff | crates/claw-runtime/src/cron_scheduler.rs:417-462 | the fires are as many as the occurrences so far exactly when none was passed over |
| CronLaws.ConsumesOccurrences | crates/claw-runtime/src/cron_scheduler.rs:417-462 | each fire consumes a later occurrence than the one before |
| CronLaws.TickLooksAhead | crates/claw-runtime/src/cron_scheduler.rs:440-462 | after a tick every enabled job fires next past the tick |
| CronLaws.RestoreAgrees | crates/claw-runtime/src/cron_scheduler.rs:288-374 | after a restore every job is backed by its record and every restorable record is loaded |
| CronLaws.RunAgrees | crates/claw-runtime/src/cron_scheduler.rs:390-481 | with successful writes the job map is exactly the restorable records after every tick |
| CronLaws.LifecycleAgrees | crates/claw-runtime/src/cron_scheduler.rs:178-481 | any registrations and removals over a store left by another scheduler, the restore and any ticks leave map and store in agreement |
| CronLaws.SetUpWaits | crates/claw-runtime/src/cron_scheduler.rs:178-246 | every job set up waits for the first occurrence of its expression after it was added |
| CronLaws.LifecycleAccounts | crates/claw-runtime/src/cron_scheduler.rs:178-481 | and its occurrences since then are consumed, passed over or still ahead over the whole life of the scheduler |
| CronLaws.RecordCountsFires | crates/claw-runtime/src/cron_scheduler.rs:417-462 | with successful writes a kept record counts the fires of its job and holds the time of the last |
| CronLaws.RestartRebuilds | crates/claw-runtime/src/cron_scheduler.rs:288-374 | a restart any time later rebuilds exactly the jobs that occur again after it, with the same expressions and targets |
| CronLaws.RestartKeepsAllIff | crates/claw-runtime/src/cron_scheduler.rs:288-374 | it keeps all ids exactly when every job has an occurrence after the restart |
| CronLaws.LifecycleRestarts | crates/claw-runtime/src/cron_scheduler.rs:178-481 | the two joined: what a whole life of a scheduler leaves and the next one rebuilds |
| CronLaws.DowntimeLosesAJob | crates/claw-runtime/src/cron_scheduler.rs:336-346 | a job whose last occurrence falls into the downtime is lost without having fired |
| SecureMemory.SecureMemoryStore.Store | crates/claw-memory/src/secure.rs:102-128 | an item is stored, under the wrapper's namespace, exactly when usage plus its estimate fits the quota and the inner store does not fail; else nothing changes |
| SecureMemory.SecureMemoryStore.StoreBatch | crates/claw-memory/src/traits.rs:19-26 | a failed batch leaves exactly the prefix before the first item that does not fit or that the inner store fails on, and returns that failure |
| Chat.Utf8RoundTrip | crates/claw-memory/src/secure.rs:69-75 | byte lengths are those of UTF-8: each character in the fewest bytes, and read back |
| Chat.BytesOfUtf8 | crates/claw-memory/src/secure.rs:69-75 | the byte length of a text is that of its encoding |
| SecureMemory.AdmittedIff | crates/claw-memory/src/secure.rs:46-128 | an item is admitted exactly when the usage, the bytes of its texts, two per tag, four per number and 128 fit the quota together |
| MemoryIsolation.OthersAreInvisible | crates/claw-memory/src/secure.rs:102-196 | with isolation, inner stores that agree on the wrapper's namespace give the same reads, verdicts and counts to every sequence of operations |
| MemoryIsolation.OthersLose | crates/claw-memory/src/secure.rs:102-196 | a run takes from the other namespaces exactly the items whose ids it stores or deletes, and adds nothing |
| MemoryIsolation.OthersKeepAllIff | crates/claw-memory/src/secure.rs:180-184 | they keep everything exactly when no id stored or deleted is theirs |
| SecureMemory.SecureMemoryStore.ClearNamespace | crates/claw-memory/src/secure.rs:188-196 | clears a namespace and counts it; with isolation another namespace is refused |
| QuotaProtocol.QuotaHolds | crates/claw-memory/src/secure.rs:102-128 | in every interleaving usage stays within the quota plus what some item measures above its estimate |
| QuotaProtocol.OneHolder | crates/claw-memory/src/secure.rs:117 | at most one task is between lock and write, whatever the configuration, items and inner store |
| QuotaProtocol.LockIsReleased | crates/claw-memory/src/secure.rs:117-128 | whoever holds the lock gives it back within three steps of its own |
| QuotaProtocol.BatchIsStored | crates/claw-memory/src/traits.rs:19-26 | a task left to itself stores its batch up to the first item that does not fit |
| QuotaProtocol.StoredWhileFittingIsPrefix | crates/claw-memory/src/traits.rs:19-26 | which is what the wrapper's own batch stores |
| QuotaProtocol.FailureTakesEffect | crates/claw-memory/src/secure.rs:117-128 | a failure of the inner store frees the lock and stores nothing |
| QuotaProtocol.DeletingTakesEffect | crates/claw-memory/src/secure.rs:183-185 | a deletion takes effect at once, whoever holds the lock |
| QuotaProtocol.ClearingTakesEffect | crates/claw-memory/src/secure.rs:188-196 | so does a clearing, unless another namespace is meant under isolation |
| QuotaProtocol.WithoutTheLockQuotaFails | crates/claw-memory/src/traits.rs:118-135 | without the lock two stores can exceed the quota together |
| QuotaProtocol.RaceSafeIff | crates/claw-memory/src/traits.rs:118-135 | for any measure and two items, both reading before either writes is safe for every quota exactly when the stored sizes fit their estimates and together the larger one |
| QuotaProtocol.AdmissionSafeIff | crates/claw-memory/src/secure.rs:102-128 | admitting an item keeps every quota over every inner store exactly when its stored size is within its estimate |
| QuotaProtocol.QuotaHoldsIff | crates/claw-memory/src/secure.rs:102-128 | for every set of items: the quota holds in every interleaving that stores them exactly when each is measured within its estimate |
| QuotaProtocol.EstimatingStoreQuotaIff | crates/claw-memory/src/secure.rs:102-107 | over a store that measures as the wrapper estimates, exactly when no submitted namespace is shorter than the wrapper's |
| QuotaProtocol.SqliteQuotaIff | crates/claw-memory/src/sqlite/store.rs:396-407 | over the SQLite store, exactly when content plus embedding text of each item stay within its estimate |
| QuotaProtocol.SqliteQuotaWithoutEmbeddings | crates/claw-memory/src/sqlite/store.rs:396-407 | over the SQLite store the quota holds in every interleaving without embeddings |
| QuotaProtocol.SqliteOutgrowsEstimate | crates/claw-memory/src/sqlite/store.rs:396-407 | with an embedding one admitted item can exceed the quota |
| HotSwap.QueueOrderIsLockOrder | crates/claw-runtime/src/agent_handle.rs:131-143 | a channel holds exactly the successful sends addressed to it, in lock order, within its capacity |
| HotSwap.SendsReachTheInstalledLoop | crates/claw-runtime/src/agent_handle.rs:131-143 | a successful send goes to the loop installed while it held the lock; an empty slot, and only that, is refused as empty |
| HotSwap.SendGoesThrough | crates/claw-runtime/src/agent_handle.rs:131-143 | with the lock free and room in an open loop, a send queues its message there, succeeds and frees the lock |
| HotSwap.SendFails | crates/claw-runtime/src/agent_handle.rs:131-143 | with the loop gone or the slot empty it fails and frees the lock |
| HotSwap.HeldLockReleases | crates/claw-runtime/src/agent_handle.rs:131-143 | a sender holding the lock succeeds as soon as there is room, fails as soon as the loop is gone, and waits exactly otherwise |
| HotSwap.RestartInstalls | crates/claw-runtime/src/orchestrator.rs:1583-1602 | a restart installs a new loop with an empty channel once the lock is free |
| HotSwap.EmptyingTakesEffect | crates/claw-runtime/src/agent_handle.rs:95-110 | emptying the slot takes effect once the lock is free |
| HotSwap.LoopSteps | crates/claw-runtime/src/orchestrator.rs:1583-1602 | an open loop takes its messages one by one; one that exits keeps what it accepted |
| HotSwap.NoSendReachesAnOlderLoop | crates/claw-runtime/src/orchestrator.rs:1583-1602 | no send after a swap reaches a loop installed before it, in whatever order the loops were spawned |
| HotSwap.EverySuccessIsQueuedOnce | crates/claw-runtime/src/agent_handle.rs:151-172 | each successful send has a place of its own in the queue of the loop it went to, and the queues hold nothing else |
| Backoff.DelayRange | crates/claw-pal/src/retry.rs:63-81 | within 64 bits the delay lies between the exponential and twice it, both capped |
| Backoff.LowerBoundIff | crates/claw-pal/src/retry.rs:60-81 | exactly when the documented lower bound holds |
| Backoff.BackoffCollapses | crates/claw-pal/src/retry.rs:63-81 | from attempt 64 on the delay is zero until the product saturates |
| Backoff.SaturationRestores | crates/claw-pal/src/retry.rs:63-81 | once the product saturates the delay is the maximum again |
| Backoff.CopiesAgree | crates/claw-provider/src/retry.rs:77-95 | the provider's copy agrees for every jitter exactly when the delay before jitter is at most half the 64-bit range |
| Backoff.TotalWaitBound | crates/claw-pal/src/retry.rs:107-143 | k retries wait at most k * max and at most 2 * base * (2^k - 1), truncated delays included |
| Backoff.RetryLoopWait | crates/claw-pal/src/retry.rs:107-143 | a retry loop that makes k + 1 calls sleeps k times and for no longer than that |
| Backoff.DelaysGrow | crates/claw-runtime/src/restart_policy.rs:80-85 | restart delays never shrink and never pass the maximum |
| Backoff.DelayRecurrence | crates/claw-runtime/src/restart_policy.rs:80-85 | each restart delay is the one before multiplied, up to the maximum |
| Backoff.RestartState.RestartUntilExhausted | crates/claw-runtime/src/restart_policy.rs:127-139 | a loop that keeps dying is restarted max_retries times, each after its own delay |

## Left out

- `namespace_usage` of the wrapper is passed through for any namespace and is not among the operations of OthersAreInvisible.
- Transport errors between chunks of the per-chunk splitters: each is one failed item and leaves the chunks around it as they are.
- A task that is aborted while it holds the quota lock or the sender's lock.
- HTTP, sockets, axum, reqwest, Discord, stdin, WebSocket, real sleeping and thread scheduling: only the outcomes they produce appear.
- JSON, TOML, regular expressions, cron syntax and signature verification: functions of the environment; the texts of error contents are functions too.
- Event publishing to observers, transition hooks, execution time, request options, the finish reason a provider reports (the loop only logs it) and `stream_run`, which reshapes a `run` result.
- Token counters are unbounded: the 64-bit overflow of the usage sums is not modelled, nor the 32-bit width of turn counts, which stay below max_turns.
- Tool execution is one step after another with results in call order; the original runs them concurrently and joins them in that order.
- A receiver of stream chunks that goes away: sends to it are ignored by the original and always recorded here. Likewise a closed or full webhook queue.
- Token-bucket time and tokens are real numbers; floating-point rounding is not modelled. Restart delays likewise.
- UTF-8 sequences cut between chunks: chunks are decoded text.
- Concurrent use of the router's cache, which does not hold one lock over check and insert, is modelled as sequential calls.
- Cron: creation stamps; one flag per call says whether the store accepts its writes; the order in which a tick walks the job map is left open.
- QuotaProtocol and HotSwap model the concurrent code as interleaved steps on values rather than as objects, so aliasing is not captured; the lock is fair or unfair alike.
- HotSwap: replies of `send_await` and its timeout; the restart policy that triggers a swap.
- Searches of the memory wrapper other than `retrieve`: each filters the inner store's results by namespace in the same way.
- Argon2, AES-GCM, SHA-256, process management, the lock file, builders, CLI and directory lookup: foreign code or no property of interest.
