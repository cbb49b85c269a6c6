/** Messages, tool calls, deltas and usage, as the provider interface defines them. */
module Chat {
  import opened Base

  datatype Role = User | Assistant | System | Tool

  datatype ToolCall = ToolCall(id: string, name: string, arguments: string)

  datatype Message = Message(role: Role, content: string, toolCalls: Option<seq<ToolCall>>, toolCallId: Option<string>)

  function UserMessage(content: string): Message {
    Message(User, content, None, None)
  }

  function AssistantMessage(content: string, calls: seq<ToolCall>): Message {
    Message(Assistant, content, if calls == [] then None else Some(calls), None)
  }

  function ToolResultMessage(id: string, content: string): Message {
    Message(Tool, content, None, Some(id))
  }

  /** The calls a message requests; a missing list and an empty one mean the same. */
  function CallsOf(m: Message): seq<ToolCall> {
    m.toolCalls.GetOr([])
  }

  datatype TokenUsage = TokenUsage(prompt: nat, completion: nat, total: nat)

  const NO_USAGE := TokenUsage(0, 0, 0)

  function Plus(a: TokenUsage, b: TokenUsage): TokenUsage {
    TokenUsage(a.prompt + b.prompt, a.completion + b.completion, a.total + b.total)
  }

  datatype ProviderError =
    | Http(status: nat, message: string)
    | Network(message: string)
    | RateLimited(retryAfterSecs: nat)
    | Permanent(message: string)

  datatype RetryConfig = RetryConfig(maxRetries: nat, retryableStatuses: set<nat>)

  const DEFAULT_STATUSES: set<nat> := {429, 500, 502, 503, 504}

  predicate IsRetryableError(e: ProviderError, config: RetryConfig) {
    match e
    case Network(_) => true
    case RateLimited(_) => true
    case Http(status, _) => status in config.retryableStatuses
    case Permanent(_) => false
  }

  datatype Response = Response(message: Message, usage: TokenUsage)

  datatype Delta = Delta(content: Option<string>, toolCall: Option<ToolCall>, usage: Option<TokenUsage>)

  /** Length in bytes of the UTF-8 encoding. */
  function ByteLength(s: string): nat {
    if s == [] then 0
    else
      var c := s[0] as int;
      (if c < 0x80 then 1 else if c < 0x800 then 2 else if c < 0x1_0000 then 3 else 4) + ByteLength(s[1..])
  }

  /** The UTF-8 encoding of a character, section 3 of RFC 3629: six bits to each byte but the first. */
  function Utf8Char(ch: char): seq<int> {
    var c := ch as int;
    var c1 := c / 0x40;
    var c2 := c1 / 0x40;
    var c3 := c2 / 0x40;
    if c < 0x80 then [c]
    else if c < 0x800 then [0xC0 + c1, 0x80 + c % 0x40]
    else if c < 0x1_0000 then [0xE0 + c2, 0x80 + c1 % 0x40, 0x80 + c % 0x40]
    else [0xF0 + c3, 0x80 + c2 % 0x40, 0x80 + c1 % 0x40, 0x80 + c % 0x40]
  }

  function Utf8(s: string): seq<int> {
    if s == [] then [] else Utf8Char(s[0]) + Utf8(s[1..])
  }

  /** The length its first byte announces, and the bits that byte carries. */
  function Announced(first: int): (nat, int) {
    if first < 0x80 then (1, first)
    else if first < 0xE0 then (2, first - 0xC0)
    else if first < 0xF0 then (3, first - 0xE0)
    else (4, first - 0xF0)
  }

  function Decoded(b: seq<int>): int
    requires b != []
  {
    if |b| == 1 then Announced(b[0]).1 else Decoded(b[..|b| - 1]) * 0x40 + (b[|b| - 1] - 0x80)
  }

  /** Each character is encoded in as many bytes as the first announces and no fewer would do, and it is
      read back from them. */
  lemma Utf8RoundTrip(ch: char)
    ensures var b, c := Utf8Char(ch), ch as int;
            && b != [] && |b| == Announced(b[0]).0 && Decoded(b) == c
            && (forall i :: 1 <= i < |b| ==> 0x80 <= b[i] < 0xC0)
            && (|b| == 2 ==> c >= 0x80) && (|b| == 3 ==> c >= 0x800) && (|b| == 4 ==> c >= 0x1_0000)
  {
    var b, c := Utf8Char(ch), ch as int;
    var c1 := c / 0x40;
    var c2 := c1 / 0x40;
    assert c == c1 * 0x40 + c % 0x40 && c1 == c2 * 0x40 + c1 % 0x40 && c2 == c2 / 0x40 * 0x40 + c2 % 0x40;
    if |b| == 2 {
      assert b[..1] == [b[0]];
    } else if |b| == 3 {
      assert b[..2] == [b[0], b[1]] && b[..2][..1] == [b[0]];
      assert Decoded(b[..2]) == c1;
    } else if |b| == 4 {
      assert b[..3] == [b[0], b[1], b[2]] && b[..3][..2] == [b[0], b[1]] && b[..3][..2][..1] == [b[0]];
      assert Decoded(b[..3][..2]) == c2;
    }
  }

  /** The byte length is that of the encoding. */
  lemma {:induction false} BytesOfUtf8(s: string)
    ensures ByteLength(s) == |Utf8(s)|
  {
    if s == [] {
    } else {
      BytesOfUtf8(s[1..]);
    }
  }
}
