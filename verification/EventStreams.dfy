/**
 What the two carry-over framers make of a text, told on the text itself: which lines of an event
 stream yield content, which yield errors and which yield nothing, and the same for
 newline-delimited JSON.
 */
module EventStreams {
  import opened Base
  import opened LineFraming

  // ---- white space and trimming ----

  /** The characters with the Unicode property White_Space. */
  const WHITE_SPACE: set<int> := {
    0x9, 0xA, 0xB, 0xC, 0xD, 0x20, 0x85, 0xA0, 0x1680,
    0x2000, 0x2001, 0x2002, 0x2003, 0x2004, 0x2005, 0x2006, 0x2007, 0x2008, 0x2009, 0x200A,
    0x2028, 0x2029, 0x202F, 0x205F, 0x3000
  }

  lemma SpacesAreWhiteSpace(c: char)
    ensures IsSpace(c) <==> c as int in WHITE_SPACE
  {
  }

  /** No white space at either end. */
  predicate Bare(s: string) {
    s == "" || (!IsSpace(s[0]) && !IsSpace(s[|s| - 1]))
  }

  /** Trimming takes white space off both ends and nothing else. */
  lemma TrimMeans(pre: string, s: string, post: string)
    requires Blank(pre) && Bare(s) && Blank(post)
    ensures Trim(pre + s + post) == s
  {
    assert pre + s + post == pre + (s + post);
    TrimStartBlank(pre, s + post);
    if s == "" {
      assert s + post == post;
      TrimStartBlank(post, "");
      assert post + "" == post;
    } else {
      TrimEndBlank(s, post);
    }
  }

  // ---- the lines of an event stream ----

  /** A field, with white space wherever it is allowed: around the name and around the value. */
  function Field(pre: string, name: string, gap: string, lead: string, value: string, post: string): string {
    pre + name + gap + ":" + lead + value + post
  }

  predicate FieldOk(pre: string, name: string, gap: string, lead: string, value: string, post: string) {
    && Blank(pre) && Blank(gap) && Blank(lead) && Blank(post)
    && name != "" && Bare(name) && ':' !in name && Bare(value)
  }

  lemma BlankHasNoColon(s: string)
    requires Blank(s)
    ensures ':' !in s
  {
  }

  /** The field once its line is trimmed: the white space before an empty value goes too. */
  lemma TrimField(pre: string, name: string, gap: string, lead: string, value: string, post: string)
    requires FieldOk(pre, name, gap, lead, value, post)
    ensures var kept := if value == "" then "" else lead + value;
            Trim(Field(pre, name, gap, lead, value, post)) == name + gap + ":" + kept
  {
    var line := Field(pre, name, gap, lead, value, post);
    if value == "" {
      var body := name + gap + ":";
      assert line == pre + body + (lead + post);
      assert body + "" == body;
      TrimMeans(pre, body, lead + post);
    } else {
      var body := name + gap + ":" + (lead + value);
      assert line == pre + body + post;
      TrimMeans(pre, body, post);
    }
  }

  lemma SplitField(name: string, gap: string, kept: string)
    requires name != "" && Bare(name) && ':' !in name && Blank(gap)
    ensures var line := name + gap + ":" + kept;
            && line != "" && line[0] != ':'
            && Find(line, ':') == |name + gap| < |line|
            && line[..|name + gap|] == name + gap && line[|name + gap| + 1..] == kept
            && Trim(name + gap) == name
  {
    var line := name + gap + ":" + kept;
    BlankHasNoColon(gap);
    assert line == (name + gap) + (":" + kept);
    FindPast(name + gap, ":" + kept, ':');
    TrimMeans("", name, gap);
    assert "" + name + gap == name + gap;
  }

  /** What is read from a field. */
  lemma FieldRead(pre: string, name: string, gap: string, lead: string, value: string, post: string)
    requires FieldOk(pre, name, gap, lead, value, post)
    ensures ParseSseEvent(Field(pre, name, gap, lead, value, post))
         == if name == "event" then Some((value, "")) else if name == "data" then Some(("message", value)) else None
  {
    var kept := if value == "" then "" else lead + value;
    TrimField(pre, name, gap, lead, value, post);
    SplitField(name, gap, kept);
    if value != "" {
      TrimStartBlank(lead, value);
    }
  }

  /** A data field with JSON is passed on; with other text it is an error; the end marker and an empty
      value yield nothing. */
  lemma DataField(json: Json, pre: string, gap: string, lead: string, value: string, post: string)
    requires FieldOk(pre, "data", gap, lead, value, post) && !("data: " <= value)
    ensures SseLine(json)(Field(pre, "data", gap, lead, value, post))
         == if value == "" || value == "[DONE]" then []
            else match json.parse(value)
              case None => [Content(value)]
              case Some(why) => [ErrorChunk(why)]
  {
    FieldRead(pre, "data", gap, lead, value, post);
    TrimMeans("", value, "");
    assert "" + value + "" == value;
  }

  lemma InnerChecked(json: Json, inner: string)
    requires inner != "" && Bare(inner)
    ensures ParseSseDataLine(json, "data: " + inner)
         == if inner == "[DONE]" then Ok(false)
            else match json.parse(inner) case None => Ok(true) case Some(why) => Err(why)
  {
    var value := "data: " + inner;
    TrimMeans("", value, "");
    TrimMeans("", inner, "");
    assert "" + value + "" == value && "" + inner + "" == inner && value[6..] == inner;
  }

  /** A doubled field name is checked without it, and passed on with it. */
  lemma DoubledDataField(json: Json, pre: string, gap: string, lead: string, inner: string, post: string)
    requires inner != "" && Bare(inner) && FieldOk(pre, "data", gap, lead, "data: " + inner, post)
    ensures SseLine(json)(Field(pre, "data", gap, lead, "data: " + inner, post))
         == if inner == "[DONE]" then []
            else match json.parse(inner)
              case None => [Content("data: " + inner)]
              case Some(why) => [ErrorChunk(why)]
  {
    FieldRead(pre, "data", gap, lead, "data: " + inner, post);
    InnerChecked(json, inner);
  }

  /** An event field yields nothing, unless it announces an error. */
  lemma EventField(json: Json, pre: string, gap: string, lead: string, value: string, post: string)
    requires FieldOk(pre, "event", gap, lead, value, post)
    ensures SseLine(json)(Field(pre, "event", gap, lead, value, post)) == if value == "error" then [ErrorChunk("")] else []
  {
    FieldRead(pre, "event", gap, lead, value, post);
  }

  /** Any other field yields nothing. */
  lemma OtherField(json: Json, pre: string, name: string, gap: string, lead: string, value: string, post: string)
    requires FieldOk(pre, name, gap, lead, value, post) && name != "data" && name != "event"
    ensures SseLine(json)(Field(pre, name, gap, lead, value, post)) == []
  {
    FieldRead(pre, name, gap, lead, value, post);
  }

  /** Nor does a comment, a line without a colon, or a blank one. */
  lemma NoField(json: Json, pre: string, text: string, post: string)
    requires Blank(pre) && Blank(post) && Bare(text)
    requires text == "" || text[0] == ':' || ':' !in text
    ensures SseLine(json)(pre + text + post) == []
  {
    TrimMeans(pre, text, post);
    if ':' !in text {
      FindPast(text, "", ':');
      assert text + "" == text;
    }
  }

  /** The unterminated last line: a data field is passed on unchecked. */
  lemma LastLine(pre: string, name: string, gap: string, lead: string, value: string, post: string)
    requires FieldOk(pre, name, gap, lead, value, post)
    ensures SseRest()(Field(pre, name, gap, lead, value, post))
         == if name == "data" && value != "" then [Content(value)]
            else if name == "event" && value == "error" then [ErrorChunk("")]
            else []
  {
    FieldRead(pre, name, gap, lead, value, post);
  }

  // ---- whole texts ----

  ghost predicate AreLines(lines: seq<string>) {
    forall i :: 0 <= i < |lines| ==> '\n' !in lines[i]
  }

  lemma {:induction false} LinesOfUnlines(lines: seq<string>, rest: string)
    requires AreLines(lines) && '\n' !in rest
    ensures Lines(Unlines(lines) + rest) == lines && Rest(Unlines(lines) + rest) == rest
  {
    if lines == [] {
      assert "" + rest == rest;
      FindPast(rest, "", '\n');
      assert rest + "" == rest;
    } else {
      LinesOfUnlines(lines[1..], rest);
      Reassociate(lines[0], Unlines(lines[1..]), rest);
      assert Unlines(lines) + rest == lines[0] + "\n" + (Unlines(lines[1..]) + rest);
      LinesOfLine(lines[0], Unlines(lines[1..]) + rest);
    }
  }

  /** No line ends the stream. */
  ghost predicate NeverEnds(lines: seq<string>, onLine: LineHandler) {
    forall i :: 0 <= i < |lines| ==> !Dead(onLine(lines[i]))
  }

  lemma {:induction false} HandleAllIsFlatMap(lines: seq<string>, onLine: LineHandler)
    requires NeverEnds(lines, onLine)
    ensures HandleAll(lines, onLine) == FlatMap(lines, onLine) && !Dead(FlatMap(lines, onLine))
  {
    if lines == [] {
    } else {
      HandleAllIsFlatMap(lines[1..], onLine);
      DeadAppend(onLine(lines[0]), FlatMap(lines[1..], onLine));
    }
  }

  /** An event stream yields what its lines yield, in order; then the transport error, which drops an
      unterminated line, or else what that line yields. */
  lemma SseText(json: Json, lines: seq<string>, rest: string, broken: Option<string>)
    requires AreLines(lines) && '\n' !in rest
    ensures Batch(Unlines(lines) + rest, broken, SseLine(json), SseRest())
         == FlatMap(lines, SseLine(json))
            + match broken
              case Some(e) => [Abort(e)]
              case None => if rest == "" then [] else SseRest()(rest)
  {
    LinesOfUnlines(lines, rest);
    forall i | 0 <= i < |lines|
      ensures !Dead(SseLine(json)(lines[i]))
    {
      SseLineNeverAborts(json, lines[i]);
    }
    HandleAllIsFlatMap(lines, SseLine(json));
  }

  lemma OneLine(json: Json, line: string)
    requires '\n' !in line
    ensures Batch(line + "\n", None, SseLine(json), SseRest()) == SseLine(json)(line)
  {
    assert Unlines([line]) + "" == line + "\n" by {
      assert [line][1..] == [];
    }
    SseText(json, [line], "", None);
    FlatMapSingle(line, SseLine(json));
  }

  lemma PlainDataLine(value: string)
    ensures "data: " + value == Field("", "data", "", " ", value, "")
  {
    assert "data: " == "" + "data" + "" + ":" + " ";
  }

  /** One data line on its own, as a stream would send it. */
  lemma SseContent(json: Json, value: string)
    requires value != "" && Bare(value) && '\n' !in value && !("data: " <= value)
    ensures Batch("data: " + value + "\n", None, SseLine(json), SseRest())
         == if value == "[DONE]" then []
            else match json.parse(value)
              case None => [Content(value)]
              case Some(why) => [ErrorChunk(why)]
  {
    PlainDataLine(value);
    OneLine(json, "data: " + value);
    DataField(json, "", "", " ", value, "");
  }

  // ---- newline-delimited JSON ----

  /** A JSON line is passed on as it stands, a blank one yields nothing, any other ends the stream. */
  lemma NdjsonLineMeans(json: Json, pre: string, text: string, post: string)
    requires Blank(pre) && Blank(post) && Bare(text)
    ensures NdjsonLine(json)(pre + text + post)
         == if text == "" then []
            else match json.parse(text)
              case None => [Content(pre + text + post)]
              case Some(why) => [Abort(why)]
  {
    TrimMeans(pre, text, post);
  }

  /** As long as no line ends the stream it yields what its lines yield, the last one without its newline
      included, and then the transport error, which drops that one. */
  lemma NdjsonText(json: Json, lines: seq<string>, rest: string, broken: Option<string>)
    requires AreLines(lines) && '\n' !in rest && NeverEnds(lines, NdjsonLine(json))
    ensures Batch(Unlines(lines) + rest, broken, NdjsonLine(json), NdjsonLine(json))
         == FlatMap(lines, NdjsonLine(json))
            + match broken
              case Some(e) => [Abort(e)]
              case None => if rest == "" then [] else NdjsonLine(json)(rest)
  {
    LinesOfUnlines(lines, rest);
    HandleAllIsFlatMap(lines, NdjsonLine(json));
  }

  /** A line that ends the stream is the last thing it yields, whatever follows. */
  lemma NdjsonEnds(json: Json, lines: seq<string>, bad: string, more: seq<string>, rest: string, broken: Option<string>)
    requires AreLines(lines) && '\n' !in bad && AreLines(more) && '\n' !in rest
    requires NeverEnds(lines, NdjsonLine(json)) && Dead(NdjsonLine(json)(bad))
    ensures Batch(Unlines(lines + [bad] + more) + rest, broken, NdjsonLine(json), NdjsonLine(json))
         == FlatMap(lines, NdjsonLine(json)) + NdjsonLine(json)(bad)
  {
    var onLine := NdjsonLine(json);
    LinesOfUnlines(lines + [bad] + more, rest);
    HandleAllIsFlatMap(lines, onLine);
    Associate(lines, [bad], more);
    HandleAllAppend(lines, [bad] + more, onLine);
    HandleCons(bad, more, onLine);
    DeadAppend(FlatMap(lines, onLine), onLine(bad));
  }

  // ---- the per-chunk splitter ----

  /** It passes on every line that is not blank, trimmed, the last one included. */
  lemma ChunkText(lines: seq<string>, rest: string)
    requires AreLines(lines) && '\n' !in rest
    ensures NonBlankLines(Unlines(lines) + rest) == FlatMap(lines + [rest], NonBlankOf)
  {
    LinesOfUnlines(lines, rest);
  }

  lemma ChunkLine(pre: string, text: string, post: string)
    requires Blank(pre) && Blank(post) && Bare(text)
    ensures NonBlankOf(pre + text + post) == if text == "" then [] else [text]
  {
    TrimMeans(pre, text, post);
  }

  /** A transport error between chunks is one failed item; the chunks around it are split as before. */
  lemma BrokenChunk<T>(a: seq<Piece>, e: string, b: seq<Piece>, parse: string -> seq<T>, fail: string -> T)
    ensures PerChunk(a + [Broken(e)] + b, parse, fail) == PerChunk(a, parse, fail) + [fail(e)] + PerChunk(b, parse, fail)
  {
    var f := (p: Piece) =>
      match p
      case Data(text) => FlatMap(NonBlankLines(text), parse)
      case Broken(why) => [fail(why)];
    FlatMapAppend(a + [Broken(e)], b, f);
    FlatMapAppend(a, [Broken(e)], f);
    FlatMapSingle(Broken(e), f);
  }

  // ---- what the carry-over framers receive ----

  /** Everything up to the first transport error, in order. */
  lemma {:induction false} ReceivedMeans(chunks: seq<string>, e: string, more: seq<Piece>)
    ensures Received(AsPieces(chunks)) == Concat(chunks) && TransportError(AsPieces(chunks)) == None
    ensures Received(AsPieces(chunks) + [Broken(e)] + more) == Concat(chunks)
    ensures TransportError(AsPieces(chunks) + [Broken(e)] + more) == Some(e)
  {
    var pieces, all := AsPieces(chunks), AsPieces(chunks) + [Broken(e)] + more;
    if chunks == [] {
      assert all[0] == Broken(e);
    } else {
      ReceivedMeans(chunks[1..], e, more);
      assert pieces[1..] == AsPieces(chunks[1..]);
      assert all[1..] == AsPieces(chunks[1..]) + [Broken(e)] + more;
    }
  }
}
