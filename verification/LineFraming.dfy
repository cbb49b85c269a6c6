/**
 Line framing of byte streams. Chunks are decoded text; a chunk may also be a transport error.
 `into_sse_stream` and `into_ndjson_stream` carry an unfinished line from chunk to chunk;
 `parse_sse_stream` and `stream_request` split every chunk on its own.
 */
module LineFraming {
  import opened Base

  datatype Piece = Data(text: string) | Broken(error: string)

  /** One item of an output stream: a chunk, an error chunk, or the error that ends the stream. */
  datatype Item = Content(text: string) | ErrorChunk(message: string) | Abort(error: string)

  // ---- lines ----

  /** The position of the first `c`, or the length. */
  function Find(s: string, c: char): (n: nat)
    ensures n <= |s| && (n < |s| ==> s[n] == c)
  {
    if s == "" || s[0] == c then 0 else 1 + Find(s[1..], c)
  }

  lemma {:induction false} NoneBefore(s: string, c: char)
    ensures c !in s[..Find(s, c)]
  {
    if s != "" && s[0] != c {
      NoneBefore(s[1..], c);
      var n := Find(s, c);
      assert s[..n] == [s[0]] + s[1..][..n - 1];
    }
  }

  lemma {:induction false} FindPast(r: string, b: string, c: char)
    requires c !in r
    ensures Find(r + b, c) == |r| + Find(b, c)
  {
    if r == "" {
      assert r + b == b;
    } else {
      assert (r + b)[1..] == r[1..] + b;
      FindPast(r[1..], b, c);
    }
  }

  /** The complete lines of a text, without their newlines. */
  function Lines(s: string): seq<string>
    decreases |s|
  {
    var n := Find(s, '\n');
    if n == |s| then [] else [s[..n]] + Lines(s[n + 1..])
  }

  /** What follows the last newline. */
  function Rest(s: string): (r: string)
    ensures '\n' !in r
    decreases |s|
  {
    var n := Find(s, '\n');
    NoneBefore(s, '\n');
    assert s[..|s|] == s;
    if n == |s| then s else Rest(s[n + 1..])
  }

  function Unlines(lines: seq<string>): string {
    if lines == [] then "" else lines[0] + "\n" + Unlines(lines[1..])
  }

  lemma LinesOfLine(l: string, t: string)
    requires '\n' !in l
    ensures Find(l + "\n" + t, '\n') == |l|
    ensures Lines(l + "\n" + t) == [l] + Lines(t) && Rest(l + "\n" + t) == Rest(t)
  {
    var s := l + "\n" + t;
    assert s == l + ("\n" + t);
    FindPast(l, "\n" + t, '\n');
    assert s[..|l|] == l && s[|l| + 1..] == t;
  }

  lemma CutAt(s: string, n: nat)
    requires n < |s| && s[n] == '\n'
    ensures s == s[..n] + "\n" + s[n + 1..]
  {
  }

  lemma Prepend(l: string, x: seq<string>, y: seq<string>)
    ensures [l] + (x + y) == ([l] + x) + y
  {
  }

  lemma Reassociate(l: string, u: string, r: string)
    ensures (l + "\n" + u) + r == (l + "\n") + (u + r)
  {
  }

  /** The lines and the remainder are the text, cut at its newlines. */
  lemma {:induction false} LinesPartition(s: string)
    ensures Unlines(Lines(s)) + Rest(s) == s
    ensures '\n' !in Rest(s) && forall i :: 0 <= i < |Lines(s)| ==> '\n' !in Lines(s)[i]
    decreases |s|
  {
    var n := Find(s, '\n');
    NoneBefore(s, '\n');
    if n < |s| {
      var l, t := s[..n], s[n + 1..];
      LinesPartition(t);
      CutAt(s, n);
      assert ([l] + Lines(t))[1..] == Lines(t);
      Reassociate(l, Unlines(Lines(t)), Rest(t));
    }
  }

  lemma LinesAppendStep(l: string, t: string, b: string)
    requires '\n' !in l
    requires Lines(t + b) == Lines(t) + Lines(Rest(t) + b) && Rest(t + b) == Rest(Rest(t) + b)
    ensures var a := l + "\n" + t;
            Lines(a + b) == Lines(a) + Lines(Rest(a) + b) && Rest(a + b) == Rest(Rest(a) + b)
  {
    LinesOfLine(l, t);
    LinesOfLine(l, t + b);
    Reassociate(l, t, b);
    Prepend(l, Lines(t), Lines(Rest(t) + b));
  }

  /** Splitting at any place: only the remainder of the first part matters to the second. */
  lemma {:induction false} LinesAppend(a: string, b: string)
    ensures Lines(a + b) == Lines(a) + Lines(Rest(a) + b)
    ensures Rest(a + b) == Rest(Rest(a) + b)
    decreases |a|
  {
    var n := Find(a, '\n');
    if n < |a| {
      LinesAppend(a[n + 1..], b);
      NoneBefore(a, '\n');
      LinesAppendStep(a[..n], a[n + 1..], b);
      CutAt(a, n);
    }
  }

  // ---- a batch specification of carry-over framing ----

  /** What a line contributes to the output; an Abort ends the stream. */
  type LineHandler = string -> seq<Item>

  predicate Dead(out: seq<Item>) {
    out != [] && out[|out| - 1].Abort?
  }

  function Then(out: seq<Item>, more: seq<Item>): seq<Item> {
    if Dead(out) then out else out + more
  }

  lemma ThenAssociates(done: seq<Item>, out: seq<Item>, more: seq<Item>)
    ensures Dead(out) ==> done + Then(out, more) == done + out && Dead(done + out)
    ensures !Dead(out) ==> done + Then(out, more) == (done + out) + more
  {
    if Dead(out) {
      assert (done + out)[|done + out| - 1] == out[|out| - 1];
    }
  }

  lemma DeadAppend(out: seq<Item>, more: seq<Item>)
    requires !Dead(out)
    ensures Dead(out + more) <==> Dead(more)
  {
    if more == [] {
      assert out + more == out;
    }
  }

  function HandleAll(lines: seq<string>, onLine: LineHandler): seq<Item> {
    if lines == [] then [] else Then(onLine(lines[0]), HandleAll(lines[1..], onLine))
  }

  lemma HandleCons(l: string, tail: seq<string>, onLine: LineHandler)
    ensures HandleAll([l] + tail, onLine) == Then(onLine(l), HandleAll(tail, onLine))
  {
    assert ([l] + tail)[1..] == tail;
  }

  lemma HandleFirst(s: string, onLine: LineHandler)
    requires Find(s, '\n') < |s|
    ensures var n := Find(s, '\n');
            && HandleAll(Lines(s), onLine) == Then(onLine(s[..n]), HandleAll(Lines(s[n + 1..]), onLine))
            && Rest(s) == Rest(s[n + 1..])
  {
    var n := Find(s, '\n');
    CutAt(s, n);
    NoneBefore(s, '\n');
    LinesOfLine(s[..n], s[n + 1..]);
    HandleCons(s[..n], Lines(s[n + 1..]), onLine);
  }

  lemma {:induction false} HandleAllAppend(a: seq<string>, b: seq<string>, onLine: LineHandler)
    ensures HandleAll(a + b, onLine) == Then(HandleAll(a, onLine), HandleAll(b, onLine))
  {
    if a == [] {
      assert a + b == b;
    } else {
      assert (a + b)[1..] == a[1..] + b;
      HandleAllAppend(a[1..], b, onLine);
    }
  }

  /** The text up to the first transport error, and that error. */
  function Received(pieces: seq<Piece>): string {
    if pieces == [] || pieces[0].Broken? then "" else pieces[0].text + Received(pieces[1..])
  }

  function TransportError(pieces: seq<Piece>): Option<string> {
    if pieces == [] then None
    else if pieces[0].Broken? then Some(pieces[0].error)
    else TransportError(pieces[1..])
  }

  /** The whole text at once: its complete lines, then the transport error or the unterminated rest. */
  function Batch(text: string, broken: Option<string>, onLine: LineHandler, onRest: LineHandler): seq<Item> {
    var out := HandleAll(Lines(text), onLine);
    if broken.Some? then Then(out, [Abort(broken.value)])
    else if Rest(text) == "" then out
    else Then(out, onRest(Rest(text)))
  }

  // ---- the two carry-over framers ----

  /** Unicode White_Space, the characters that trimming removes. */
  predicate IsSpace(c: char) {
    var n := c as int;
    || 0x9 <= n <= 0xD || n == 0x20 || n == 0x85 || n == 0xA0 || n == 0x1680
    || 0x2000 <= n <= 0x200A || n == 0x2028 || n == 0x2029 || n == 0x202F || n == 0x205F || n == 0x3000
  }

  function TrimStart(s: string): string {
    if s != "" && IsSpace(s[0]) then TrimStart(s[1..]) else s
  }

  function TrimEnd(s: string): string {
    if s != "" && IsSpace(s[|s| - 1]) then TrimEnd(s[..|s| - 1]) else s
  }

  function Trim(s: string): string {
    TrimEnd(TrimStart(s))
  }

  /** `json` decides which texts parse, and names the error of the others. */
  datatype Json = Json(parse: string -> Option<string>)

  /** An `event:` or `data:` field as (event type, data); every other line is None. */
  function ParseSseEvent(rawLine: string): Option<(string, string)> {
    var line := Trim(rawLine);
    if line == "" || line[0] == ':' then None
    else
      var colon := Find(line, ':');
      if colon == |line| then None
      else
        var field, value := Trim(line[..colon]), TrimStart(line[colon + 1..]);
        if field == "event" then Some((value, ""))
        else if field == "data" then Some(("message", value))
        else None
  }

  const DATA_PREFIX := "data: "

  /** Ok(false) for the end marker and for empty data. */
  function ParseSseDataLine(json: Json, rawLine: string): Result<bool, string> {
    var line := Trim(rawLine);
    var data := if DATA_PREFIX <= line then Trim(line[|DATA_PREFIX|..]) else line;
    if data == "[DONE]" || data == "" then Ok(false)
    else if json.parse(data).Some? then Err(json.parse(data).value)
    else Ok(true)
  }

  function SseLine(json: Json): LineHandler {
    (line: string) =>
      match ParseSseEvent(line)
      case None => []
      case Some((event, data)) =>
        if event == "error" then [ErrorChunk(data)]
        else if data == "" then []
        else
          match ParseSseDataLine(json, data)
          case Ok(keep) => if keep then [Content(data)] else []
          case Err(e) => [ErrorChunk(e)]
  }

  /** The unterminated remainder is not checked for JSON or for the end marker. */
  function SseRest(): LineHandler {
    (line: string) =>
      match ParseSseEvent(line)
      case None => []
      case Some((event, data)) =>
        if event == "error" then [ErrorChunk(data)]
        else if data == "" then []
        else [Content(data)]
  }

  function NdjsonLine(json: Json): LineHandler {
    (line: string) =>
      if Trim(line) == "" then []
      else if json.parse(Trim(line)).Some? then [Abort(json.parse(Trim(line)).value)]
      else [Content(line)]
  }

  /** Takes the complete lines off the buffer; `ended` tells that one of them ended the stream. */
  method DrainLines(buffer: string, onLine: LineHandler)
    returns (rest: string, items: seq<Item>, ended: bool)
    ensures items == HandleAll(Lines(buffer), onLine)
    ensures ended == Dead(items)
    ensures !ended ==> rest == Rest(buffer)
  {
    rest, items, ended := buffer, [], false;
    while true
      invariant !Dead(items)
      invariant HandleAll(Lines(buffer), onLine) == items + HandleAll(Lines(rest), onLine)
      invariant Rest(buffer) == Rest(rest)
      decreases |rest|
    {
      var pos := Find(rest, '\n');
      if pos == |rest| {
        return;
      }
      HandleFirst(rest, onLine);
      var produced := onLine(rest[..pos]);
      rest := rest[pos + 1..];
      ThenAssociates(items, produced, HandleAll(Lines(rest), onLine));
      items := items + produced;
      if Dead(produced) {
        ended := true;
        return;
      }
    }
  }

  /** `into_sse_stream`. */
  method IntoSseStream(json: Json, pieces: seq<Piece>) returns (out: seq<Item>)
    ensures out == Batch(Received(pieces), TransportError(pieces), SseLine(json), SseRest())
  {
    out := CarryOver(pieces, SseLine(json), SseRest());
  }

  /** `into_ndjson_stream`. */
  method IntoNdjsonStream(json: Json, pieces: seq<Piece>) returns (out: seq<Item>)
    ensures out == Batch(Received(pieces), TransportError(pieces), NdjsonLine(json), NdjsonLine(json))
  {
    out := CarryOver(pieces, NdjsonLine(json), NdjsonLine(json));
  }

  lemma {:induction false} ReceivedStep(pieces: seq<Piece>, i: nat)
    requires i < |pieces| && TransportError(pieces[..i]) == None
    ensures match pieces[i]
            case Data(text) =>
              && Received(pieces[..i + 1]) == Received(pieces[..i]) + text
              && TransportError(pieces[..i + 1]) == None
            case Broken(e) =>
              && Received(pieces) == Received(pieces[..i])
              && TransportError(pieces) == Some(e)
  {
    if i > 0 {
      var tail := pieces[1..];
      assert pieces[..i][1..] == tail[..i - 1] && pieces[..i + 1][1..] == tail[..i];
      ReceivedStep(tail, i - 1);
      if pieces[i].Data? {
        assert pieces[0].text + (Received(tail[..i - 1]) + pieces[i].text)
            == (pieces[0].text + Received(tail[..i - 1])) + pieces[i].text;
      }
    } else if pieces[0].Data? {
      assert pieces[..1][1..] == [] && pieces[0].text + "" == pieces[0].text;
    }
  }

  /** The lines of a text, and of what is read after it. */
  lemma HandleNext(before: string, text: string, onLine: LineHandler)
    ensures HandleAll(Lines(before + text), onLine)
         == Then(HandleAll(Lines(before), onLine), HandleAll(Lines(Rest(before) + text), onLine))
    ensures Rest(before + text) == Rest(Rest(before) + text)
  {
    LinesAppend(before, text);
    HandleAllAppend(Lines(before), Lines(Rest(before) + text), onLine);
  }

  /** A transport error ends the output. */
  lemma BrokenPiece(pieces: seq<Piece>, i: nat, onLine: LineHandler, onRest: LineHandler)
    requires i < |pieces| && TransportError(pieces[..i]) == None && pieces[i].Broken?
    ensures Batch(Received(pieces), TransportError(pieces), onLine, onRest)
         == Then(HandleAll(Lines(Received(pieces[..i])), onLine), [Abort(pieces[i].error)])
  {
    ReceivedStep(pieces, i);
  }

  /** The loop both framers share: a buffer carried from piece to piece. */
  method CarryOver(pieces: seq<Piece>, onLine: LineHandler, onRest: LineHandler) returns (out: seq<Item>)
    ensures out == Batch(Received(pieces), TransportError(pieces), onLine, onRest)
  {
    out := [];
    var buffer := "";
    for i := 0 to |pieces|
      invariant TransportError(pieces[..i]) == None
      invariant !Dead(out) && out == HandleAll(Lines(Received(pieces[..i])), onLine)
      invariant buffer == Rest(Received(pieces[..i]))
    {
      if pieces[i].Broken? {
        BrokenPiece(pieces, i, onLine, onRest);
        out := out + [Abort(pieces[i].error)];
        return;
      }
      ReceivedStep(pieces, i);
      ghost var before := Received(pieces[..i]);
      HandleNext(before, pieces[i].text, onLine);
      buffer := buffer + pieces[i].text;
      var ended;
      var items;
      buffer, items, ended := DrainLines(buffer, onLine);
      DeadAppend(out, items);
      out := out + items;
      if ended {
        DeadPrefix(pieces, i + 1, onLine, onRest);
        return;
      }
    }
    assert pieces[..|pieces|] == pieces;
    if buffer != "" {
      out := out + onRest(buffer);
    }
  }

  lemma {:induction false} ReceivedPrefix(pieces: seq<Piece>, i: nat) returns (more: string)
    requires i <= |pieces|
    ensures Received(pieces) == Received(pieces[..i]) + more
  {
    if i == 0 {
      more := Received(pieces);
    } else if pieces[0].Data? {
      assert pieces[..i][1..] == pieces[1..][..i - 1];
      more := ReceivedPrefix(pieces[1..], i - 1);
    } else {
      more := "";
    }
  }

  /** Once a line has ended the stream, later pieces add nothing. */
  lemma DeadPrefix(pieces: seq<Piece>, i: nat, onLine: LineHandler, onRest: LineHandler)
    requires i <= |pieces| && Dead(HandleAll(Lines(Received(pieces[..i])), onLine))
    ensures Batch(Received(pieces), TransportError(pieces), onLine, onRest)
         == HandleAll(Lines(Received(pieces[..i])), onLine)
  {
    var more := ReceivedPrefix(pieces, i);
    HandleNext(Received(pieces[..i]), more, onLine);
  }

  // ---- chunking is invisible to the carry-over framers ----

  /** Cutting a piece in two anywhere in a stream, or joining two, changes no output. */
  lemma {:induction false} ResplitInvisible(pre: seq<Piece>, a: string, b: string, post: seq<Piece>,
                                            onLine: LineHandler, onRest: LineHandler)
    ensures var joined, cut := pre + [Data(a + b)] + post, pre + [Data(a), Data(b)] + post;
            && Received(joined) == Received(cut) && TransportError(joined) == TransportError(cut)
            && Batch(Received(joined), TransportError(joined), onLine, onRest)
               == Batch(Received(cut), TransportError(cut), onLine, onRest)
  {
    var joined, cut := pre + [Data(a + b)] + post, pre + [Data(a), Data(b)] + post;
    if pre == [] {
      assert joined[1..] == post && cut[1..] == [Data(b)] + post && ([Data(b)] + post)[1..] == post;
      assert (a + b) + Received(post) == a + (b + Received(post));
    } else {
      ResplitInvisible(pre[1..], a, b, post, onLine, onRest);
      assert joined[1..] == pre[1..] + [Data(a + b)] + post;
      assert cut[1..] == pre[1..] + [Data(a), Data(b)] + post;
    }
  }

  lemma TerminatedText(text: string)
    ensures Lines(text + "\n") == Lines(text) + [Rest(text)] && Rest(text + "\n") == ""
  {
    LinesAppend(text, "\n");
    var r := Rest(text);
    assert r + "\n" == r + "\n" + "";
    LinesOfLine(r, "");
  }

  lemma SseLineNeverAborts(json: Json, line: string)
    ensures |SseLine(json)(line)| <= 1 && !Dead(SseLine(json)(line))
  {
  }

  lemma {:induction false} SseLinesNeverAbort(json: Json, lines: seq<string>)
    ensures !Dead(HandleAll(lines, SseLine(json)))
  {
    if lines == [] {
    } else {
      SseLineNeverAborts(json, lines[0]);
      SseLinesNeverAbort(json, lines[1..]);
    }
  }

  /** Ending an event stream with a newline makes a difference exactly when the last line is a
      `data` field whose content is not JSON or is the end marker: only complete lines are checked. */
  lemma FinalNewlineMatters(json: Json, text: string)
    requires Rest(text) != ""
    ensures Batch(text, None, SseLine(json), SseRest()) == Batch(text + "\n", None, SseLine(json), SseRest())
       <==> match ParseSseEvent(Rest(text))
            case Some((event, data)) => event == "error" || data == "" || ParseSseDataLine(json, data) == Ok(true)
            case None => true
  {
    var r := Rest(text);
    var out := HandleAll(Lines(text), SseLine(json));
    TerminatedText(text);
    HandleAllAppend(Lines(text), [r], SseLine(json));
    SseLinesNeverAbort(json, Lines(text));
    SseLinesNeverAbort(json, [r]);
    assert HandleAll([r], SseLine(json)) == SseLine(json)(r) by {
      assert [r][1..] == [];
    }
    if out + SseRest()(r) == out + SseLine(json)(r) {
      assert SseRest()(r) == (out + SseRest()(r))[|out|..];
      assert SseLine(json)(r) == (out + SseLine(json)(r))[|out|..];
    }
  }

  /** For newline-delimited JSON it makes none. */
  lemma NdjsonFinalNewline(json: Json, text: string)
    ensures Batch(text, None, NdjsonLine(json), NdjsonLine(json))
         == Batch(text + "\n", None, NdjsonLine(json), NdjsonLine(json))
  {
    var r := Rest(text);
    TerminatedText(text);
    HandleAllAppend(Lines(text), [r], NdjsonLine(json));
    assert r == "" ==> Trim(r) == "" && NdjsonLine(json)(r) == [];
    assert HandleAll([r], NdjsonLine(json)) == NdjsonLine(json)(r) by {
      assert [r][1..] == [];
    }
  }

  // ---- the per-chunk splitter ----

  predicate Blank(s: string) {
    forall i :: 0 <= i < |s| ==> IsSpace(s[i])
  }

  function NonBlankOf(line: string): seq<string> {
    if Trim(line) == "" then [] else [Trim(line)]
  }

  /** The trimmed, non-empty lines of one chunk, the unterminated last line included. */
  function NonBlankLines(text: string): seq<string> {
    FlatMap(Segments(text), NonBlankOf)
  }

  /** The text cut at every newline. */
  function Segments(text: string): seq<string> {
    Lines(text) + [Rest(text)]
  }

  lemma SegmentsOfLine(h: string, t: string)
    requires '\n' !in h
    ensures Segments(h + "\n" + t) == [h] + Segments(t)
  {
    LinesOfLine(h, t);
  }

  lemma SegmentsOfRest(h: string)
    requires '\n' !in h
    ensures Segments(h) == [h]
  {
  }

  lemma SegmentsAppend(a: string, b: string)
    ensures Segments(a + b) == Lines(a) + Segments(Rest(a) + b)
  {
    LinesAppend(a, b);
  }

  /** The first trimmed line, if any, and the others. */
  lemma NonBlankFirst(h: string, t: string)
    requires '\n' !in h
    ensures NonBlankLines(h + "\n" + t) == NonBlankOf(h) + NonBlankLines(t)
    ensures NonBlankLines(h) == NonBlankOf(h)
  {
    SegmentsOfLine(h, t);
    SegmentsOfRest(h);
    FlatMapAppend([h], Segments(t), NonBlankOf);
    FlatMapSingle(h, NonBlankOf);
  }

  /** `parse_sse_stream` and `stream_request`: every chunk is split on its own. */
  function PerChunk<T>(pieces: seq<Piece>, parse: string -> seq<T>, fail: string -> T): seq<T> {
    FlatMap(pieces, (p: Piece) =>
      match p
      case Data(text) => FlatMap(NonBlankLines(text), parse)
      case Broken(e) => [fail(e)])
  }

  lemma {:induction false} TrimStartBlank(s: string, t: string)
    requires Blank(s)
    ensures TrimStart(s + t) == TrimStart(t)
  {
    if s == "" {
      assert s + t == t;
    } else {
      assert (s + t)[1..] == s[1..] + t;
      TrimStartBlank(s[1..], t);
    }
  }

  lemma {:induction false} TrimEndBlank(s: string, t: string)
    requires Blank(t)
    ensures TrimEnd(s + t) == TrimEnd(s)
  {
    if t == "" {
      assert s + t == s;
    } else {
      assert (s + t)[..|s + t| - 1] == s + t[..|t| - 1];
      TrimEndBlank(s, t[..|t| - 1]);
    }
  }

  lemma {:induction false} TrimStartKeeps(s: string, t: string)
    requires !Blank(s)
    ensures TrimStart(s) != "" && TrimStart(s + t) == TrimStart(s) + t && !Blank(TrimStart(s))
  {
    if IsSpace(s[0]) {
      assert (s + t)[1..] == s[1..] + t;
      assert !Blank(s[1..]) by {
        var i :| 0 <= i < |s| && !IsSpace(s[i]);
        assert s[1..][i - 1] == s[i];
      }
      TrimStartKeeps(s[1..], t);
    }
  }

  lemma {:induction false} TrimEndNonBlank(s: string)
    requires !Blank(s)
    ensures TrimEnd(s) != ""
  {
    if IsSpace(s[|s| - 1]) {
      assert !Blank(s[..|s| - 1]) by {
        var i :| 0 <= i < |s| && !IsSpace(s[i]);
        assert s[..|s| - 1][i] == s[i];
      }
      TrimEndNonBlank(s[..|s| - 1]);
    }
  }

  lemma TrimEmptyIffBlank(s: string)
    ensures Trim(s) == "" <==> Blank(s)
  {
    if Blank(s) {
      TrimStartBlank(s, "");
      assert s + "" == s;
    } else {
      TrimStartKeeps(s, "");
      TrimEndNonBlank(TrimStart(s));
    }
  }

  /** A line cut in two gives the same trimmed lines exactly when one part is blank. */
  lemma CutLine(r: string, h: string)
    ensures NonBlankOf(r) + NonBlankOf(h) == NonBlankOf(r + h) <==> Blank(r) || Blank(h)
  {
    TrimEmptyIffBlank(r);
    TrimEmptyIffBlank(h);
    TrimEmptyIffBlank(r + h);
    if Blank(r) {
      TrimStartBlank(r, h);
      if Blank(h) {
        TrimStartBlank(h, "");
        assert h + "" == h;
      }
    } else {
      if Blank(h) {
        TrimStartKeeps(r, h);
        TrimStartKeeps(r, "");
        TrimEndBlank(TrimStart(r), h);
      }
      assert |NonBlankOf(r + h)| <= 1;
    }
  }

  /** The part of a chunk that continues an unfinished line. */
  function Continuation(b: string): string {
    b[..Find(b, '\n')]
  }

  lemma ContinueLine(r: string, h: string, t: string)
    ensures r + (h + "\n" + t) == (r + h) + "\n" + t
  {
  }

  lemma NonBlankLinesSplit(r: string, b: string) returns (more: seq<string>)
    requires '\n' !in r
    ensures NonBlankLines(b) == NonBlankOf(Continuation(b)) + more
    ensures NonBlankLines(r + b) == NonBlankOf(r + Continuation(b)) + more
  {
    var n := Find(b, '\n');
    var h := b[..n];
    NoneBefore(b, '\n');
    if n == |b| {
      more := [];
      assert h == b && '\n' !in b;
      NonBlankFirst(h, "");
      NonBlankFirst(r + h, "");
    } else {
      var t := b[n + 1..];
      more := NonBlankLines(t);
      CutAt(b, n);
      NonBlankFirst(h, t);
      NonBlankFirst(r + h, t);
      ContinueLine(r, h, t);
    }
  }

  /** Splitting a text between `a` and `b` goes unnoticed by the per-chunk splitter exactly when the
      cut falls at a line boundary, up to white space. */
  lemma CutUnnoticedIff(a: string, b: string)
    ensures NonBlankLines(a) + NonBlankLines(b) == NonBlankLines(a + b)
       <==> Blank(Rest(a)) || Blank(Continuation(b))
  {
    var r, h := Rest(a), Continuation(b);
    var done := FlatMap(Lines(a), NonBlankOf);
    FlatMapSnoc(Lines(a), r, NonBlankOf);
    var more := NonBlankLinesSplit(r, b);
    SegmentsAppend(a, b);
    FlatMapAppend(Lines(a), Segments(r + b), NonBlankOf);
    Regroup(done, NonBlankOf(r), NonBlankOf(h), more);
    CancelBoth(done, NonBlankOf(r) + NonBlankOf(h), NonBlankOf(r + h), more);
    CutLine(r, h);
  }

  lemma Regroup<T>(x: seq<T>, u: seq<T>, v: seq<T>, y: seq<T>)
    ensures (x + u) + (v + y) == x + ((u + v) + y)
  {
  }

  lemma CancelBoth<T>(x: seq<T>, u: seq<T>, v: seq<T>, y: seq<T>)
    ensures x + (u + y) == x + (v + y) <==> u == v
  {
    if x + (u + y) == x + (v + y) {
      assert |u| == |v|;
      assert u == (x + (u + y))[|x|..|x| + |u|];
      assert v == (x + (v + y))[|x|..|x| + |v|];
    }
  }

  // ---- whole chunk lists ----

  function Texts(chunks: seq<string>): string {
    Concat(chunks)
  }

  /** The lines the per-chunk splitter finds. */
  function ChunkLines(chunks: seq<string>): seq<string> {
    FlatMap(chunks, NonBlankLines)
  }

  /** The cut after chunk `i` falls at a line boundary, up to white space. */
  predicate CleanCut(chunks: seq<string>, i: nat)
    requires i < |chunks|
  {
    Blank(Rest(chunks[i])) || Blank(Continuation(Texts(chunks[i + 1..])))
  }

  /** A cut never loses a line, and one inside a line adds one. */
  lemma CutLineCounts(r: string, h: string)
    ensures |NonBlankOf(r + h)| <= |NonBlankOf(r) + NonBlankOf(h)|
    ensures !Blank(r) && !Blank(h) ==> |NonBlankOf(r + h)| < |NonBlankOf(r) + NonBlankOf(h)|
  {
    TrimEmptyIffBlank(r);
    TrimEmptyIffBlank(h);
    CutLine(r, h);
  }

  lemma CutCounts(a: string, b: string)
    ensures |NonBlankLines(a + b)| <= |NonBlankLines(a)| + |NonBlankLines(b)|
    ensures !Blank(Rest(a)) && !Blank(Continuation(b)) ==>
              |NonBlankLines(a + b)| < |NonBlankLines(a)| + |NonBlankLines(b)|
  {
    var r, h := Rest(a), Continuation(b);
    FlatMapSnoc(Lines(a), r, NonBlankOf);
    var more := NonBlankLinesSplit(r, b);
    SegmentsAppend(a, b);
    FlatMapAppend(Lines(a), Segments(r + b), NonBlankOf);
    CutLineCounts(r, h);
  }

  lemma CleanTail(chunks: seq<string>, i: nat)
    requires i + 1 < |chunks|
    ensures CleanCut(chunks[1..], i) == CleanCut(chunks, i + 1)
  {
    assert chunks[1..][i + 1..] == chunks[i + 2..];
  }

  /** The first chunk and the others: equal counts mean a clean first cut and equal counts later. */
  lemma {:induction false} ChunkCounts(chunks: seq<string>)
    ensures |NonBlankLines(Texts(chunks))| <= |ChunkLines(chunks)|
    ensures |NonBlankLines(Texts(chunks))| == |ChunkLines(chunks)| ==>
              forall i :: 0 <= i < |chunks| ==> CleanCut(chunks, i)
  {
    if chunks == [] {
      NonBlankFirst("", "");
    } else {
      var a, rest := chunks[0], chunks[1..];
      ChunkCounts(rest);
      CutCounts(a, Texts(rest));
      if |NonBlankLines(Texts(chunks))| == |ChunkLines(chunks)| {
        forall i | 0 <= i < |chunks|
          ensures CleanCut(chunks, i)
        {
          if i > 0 {
            CleanTail(chunks, i - 1);
          }
        }
      }
    }
  }

  lemma {:induction false} CleanCutsAreUnnoticed(chunks: seq<string>)
    requires forall i :: 0 <= i < |chunks| ==> CleanCut(chunks, i)
    ensures ChunkLines(chunks) == NonBlankLines(Texts(chunks))
  {
    if chunks == [] {
      NonBlankFirst("", "");
    } else {
      var a, rest := chunks[0], chunks[1..];
      forall i | 0 <= i < |rest|
        ensures CleanCut(rest, i)
      {
        CleanTail(chunks, i);
        assert CleanCut(chunks, i + 1);
      }
      CleanCutsAreUnnoticed(rest);
      assert CleanCut(chunks, 0);
      CutUnnoticedIff(a, Texts(rest));
    }
  }

  /** Chunking is invisible to the per-chunk splitter exactly when every cut falls at a line boundary. */
  lemma ChunkingInvisibleIff(chunks: seq<string>)
    ensures ChunkLines(chunks) == NonBlankLines(Texts(chunks)) <==> forall i :: 0 <= i < |chunks| ==> CleanCut(chunks, i)
  {
    ChunkCounts(chunks);
    if forall i :: 0 <= i < |chunks| ==> CleanCut(chunks, i) {
      CleanCutsAreUnnoticed(chunks);
    }
  }

  function AsPieces(chunks: seq<string>): seq<Piece> {
    seq(|chunks|, i requires 0 <= i < |chunks| => Data(chunks[i]))
  }

  /** What a parser makes of the chunks depends only on the lines found in them. */
  lemma {:induction false} PerChunkParsesLines<T>(chunks: seq<string>, parse: string -> seq<T>, fail: string -> T)
    ensures PerChunk(AsPieces(chunks), parse, fail) == FlatMap(ChunkLines(chunks), parse)
  {
    if chunks == [] {
    } else {
      var rest := chunks[1..];
      PerChunkParsesLines(rest, parse, fail);
      assert AsPieces(chunks)[1..] == AsPieces(rest);
      FlatMapAppend(NonBlankLines(chunks[0]), ChunkLines(rest), parse);
    }
  }

  lemma PerChunkAtLineBoundaries<T>(chunks: seq<string>, parse: string -> seq<T>, fail: string -> T)
    requires forall i :: 0 <= i < |chunks| ==> CleanCut(chunks, i)
    ensures PerChunk(AsPieces(chunks), parse, fail) == FlatMap(NonBlankLines(Texts(chunks)), parse)
  {
    CleanCutsAreUnnoticed(chunks);
    PerChunkParsesLines(chunks, parse, fail);
  }

  /** So every parser sees the text as if it had come in one piece exactly when every cut falls at a
      line boundary. */
  lemma PerChunkInvisibleIff(chunks: seq<string>, fail: string -> string)
    ensures (forall parse: string -> seq<string> ::
               PerChunk(AsPieces(chunks), parse, fail) == PerChunk(AsPieces([Texts(chunks)]), parse, fail))
       <==> forall i :: 0 <= i < |chunks| ==> CleanCut(chunks, i)
  {
    var whole := [Texts(chunks)];
    ChunkingInvisibleIff(chunks);
    FlatMapSingle(Texts(chunks), NonBlankLines);
    forall parse: string -> seq<string>
      ensures PerChunk(AsPieces(chunks), parse, fail) == FlatMap(ChunkLines(chunks), parse)
      ensures PerChunk(AsPieces(whole), parse, fail) == FlatMap(NonBlankLines(Texts(chunks)), parse)
    {
      PerChunkParsesLines(chunks, parse, fail);
      PerChunkParsesLines(whole, parse, fail);
    }
    KeepingLines(ChunkLines(chunks));
    KeepingLines(NonBlankLines(Texts(chunks)));
    assert PerChunk(AsPieces(chunks), KeepLine, fail) == ChunkLines(chunks);
    assert PerChunk(AsPieces(whole), KeepLine, fail) == NonBlankLines(Texts(chunks));
  }

  function KeepLine(line: string): seq<string> {
    [line]
  }

  lemma {:induction false} KeepingLines(lines: seq<string>)
    ensures FlatMap(lines, KeepLine) == lines
  {
    if lines == [] {
    } else {
      KeepingLines(lines[1..]);
    }
  }
}
