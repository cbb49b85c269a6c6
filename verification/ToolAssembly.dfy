/**
 Reassembly of streamed tool-call fragments. `Feed` and `Close` follow the streaming driver one
 fragment at a time; `Assemble` says what they compute without any state.
 */
module ToolAssembly {
  import opened Base
  import opened Chat

  /** The calls flushed so far and the call still being assembled. */
  datatype Assembly = Assembly(done: seq<ToolCall>, open: Option<ToolCall>)

  const NOTHING := Assembly([], None)

  ghost predicate Valid(a: Assembly) {
    a.open.Some? ==> a.open.value.id != ""
  }

  predicate IsNewCall(a: Assembly, f: ToolCall) {
    f.id != (if a.open.Some? then a.open.value.id else "")
  }

  function Feed(a: Assembly, f: ToolCall): Assembly {
    if IsNewCall(a, f) then
      Assembly(Close(a), if f.id != "" then Some(f) else None)
    else if a.open.Some? then
      a.(open := Some(a.open.value.(arguments := a.open.value.arguments + f.arguments)))
    else
      a
  }

  function Close(a: Assembly): seq<ToolCall> {
    if a.open.Some? then a.done + [a.open.value] else a.done
  }

  function FeedAll(a: Assembly, fs: seq<ToolCall>): Assembly
    decreases |fs|
  {
    if fs == [] then a else FeedAll(Feed(a, fs[0]), fs[1..])
  }

  /** How many fragments at the front carry the given id. */
  function RunLength(fs: seq<ToolCall>, id: string): (n: nat)
    ensures n <= |fs|
    ensures forall i :: 0 <= i < n ==> fs[i].id == id
    ensures n < |fs| ==> fs[n].id != id
  {
    if fs == [] || fs[0].id != id then 0 else 1 + RunLength(fs[1..], id)
  }

  function Arguments(fs: seq<ToolCall>): string {
    if fs == [] then "" else fs[0].arguments + Arguments(fs[1..])
  }

  /** The specification: cut the fragments into maximal runs of equal id, drop the runs whose id is
      empty, keep each run's first name and concatenate its arguments. */
  function Assemble(fs: seq<ToolCall>): seq<ToolCall>
    decreases |fs|
  {
    if fs == [] then []
    else
      var n := RunLength(fs, fs[0].id);
      (if fs[0].id == "" then [] else [ToolCall(fs[0].id, fs[0].name, Arguments(fs[..n]))]) + Assemble(fs[n..])
  }

  /** What remains to be produced when `a` is about to read `fs`. */
  ghost function Pending(a: Assembly, fs: seq<ToolCall>): seq<ToolCall> {
    if a.open.None? then a.done + Assemble(fs)
    else
      var p := a.open.value;
      var n := RunLength(fs, p.id);
      a.done + [p.(arguments := p.arguments + Arguments(fs[..n]))] + Assemble(fs[n..])
  }

  lemma AssembleSkipsEmptyId(fs: seq<ToolCall>)
    requires fs != [] && fs[0].id == ""
    ensures Assemble(fs) == Assemble(fs[1..])
  {
    var n := RunLength(fs, "");
    var rest := fs[1..];
    if rest != [] && rest[0].id == "" {
      assert rest[n - 1..] == fs[n..];
    } else {
      assert n == 1;
    }
  }

  lemma PendingBeforeNewCall(a: Assembly, fs: seq<ToolCall>)
    requires fs == [] || IsNewCall(a, fs[0])
    ensures Pending(a, fs) == Close(a) + Assemble(fs)
  {
    if a.open.Some? {
      assert fs[..0] == [] && fs[0..] == fs;
      assert a.open.value.arguments + "" == a.open.value.arguments;
    }
  }

  lemma FeedNewCall(a: Assembly, fs: seq<ToolCall>)
    requires Valid(a) && fs != [] && IsNewCall(a, fs[0])
    ensures Pending(Feed(a, fs[0]), fs[1..]) == Pending(a, fs)
  {
    PendingBeforeNewCall(a, fs);
    if fs[0].id == "" {
      AssembleSkipsEmptyId(fs);
    } else {
      var f, rest := fs[0], fs[1..];
      RunOfFirst(fs);
      var n := RunLength(rest, f.id);
      var whole := ToolCall(f.id, f.name, f.arguments + Arguments(rest[..n]));
      assert Assemble(fs) == [whole] + Assemble(rest[n..]);
      Associate(Close(a), [whole], Assemble(rest[n..]));
    }
  }

  lemma FeedContinuation(a: Assembly, fs: seq<ToolCall>)
    requires Valid(a) && fs != [] && !IsNewCall(a, fs[0])
    ensures Pending(Feed(a, fs[0]), fs[1..]) == Pending(a, fs)
  {
    if a.open.Some? {
      RunOfFirst(fs);
      var p, f, rest := a.open.value, fs[0], fs[1..];
      var n := RunLength(rest, p.id);
      assert p.arguments + (f.arguments + Arguments(rest[..n])) == (p.arguments + f.arguments) + Arguments(rest[..n]);
    } else {
      AssembleSkipsEmptyId(fs);
    }
  }

  lemma FeedKeepsPending(a: Assembly, fs: seq<ToolCall>)
    requires Valid(a) && fs != []
    ensures Valid(Feed(a, fs[0])) && Pending(Feed(a, fs[0]), fs[1..]) == Pending(a, fs)
  {
    if IsNewCall(a, fs[0]) {
      FeedNewCall(a, fs);
    } else {
      FeedContinuation(a, fs);
    }
  }

  lemma RunOfFirst(fs: seq<ToolCall>)
    requires fs != []
    ensures var f, rest := fs[0], fs[1..];
            var n := RunLength(rest, f.id);
            && RunLength(fs, f.id) == n + 1
            && fs[n + 1..] == rest[n..]
            && Arguments(fs[..n + 1]) == f.arguments + Arguments(rest[..n])
  {
    var n := RunLength(fs[1..], fs[0].id);
    assert fs[..n + 1][1..] == fs[1..][..n];
  }

  lemma {:induction false} FeedAllMeetsPending(a: Assembly, fs: seq<ToolCall>)
    requires Valid(a)
    ensures Valid(FeedAll(a, fs)) && Close(FeedAll(a, fs)) == Pending(a, fs)
    decreases |fs|
  {
    if fs == [] {
      PendingBeforeNewCall(a, fs);
    } else {
      FeedKeepsPending(a, fs);
      FeedAllMeetsPending(Feed(a, fs[0]), fs[1..]);
    }
  }

  /** The incremental accumulator computes the specification, on every fragment sequence. */
  lemma AccumulatorMeetsSpec(fs: seq<ToolCall>)
    ensures Close(FeedAll(NOTHING, fs)) == Assemble(fs)
  {
    FeedAllMeetsPending(NOTHING, fs);
  }

  lemma {:induction false} FeedAllAppend(a: Assembly, fs: seq<ToolCall>, gs: seq<ToolCall>)
    ensures FeedAll(a, fs + gs) == FeedAll(FeedAll(a, fs), gs)
    decreases |fs|
  {
    if fs == [] {
      assert fs + gs == gs;
    } else {
      assert (fs + gs)[1..] == fs[1..] + gs;
      FeedAllAppend(Feed(a, fs[0]), fs[1..], gs);
    }
  }

  /** A fragment without an id ends the call being assembled and loses its own arguments, even when
      it was meant as a continuation: what follows is assembled on its own. */
  lemma EmptyIdSeparates(fs: seq<ToolCall>, f: ToolCall, gs: seq<ToolCall>)
    requires f.id == ""
    ensures Assemble(fs + [f] + gs) == Assemble(fs) + Assemble(gs)
  {
    var a := FeedAll(NOTHING, fs);
    var b := Assembly(Close(a), None);
    assert FeedAll(NOTHING, fs + [f] + gs) == FeedAll(b, gs) by {
      FeedAllMeetsPending(NOTHING, fs);
      FeedAllAppend(NOTHING, fs + [f], gs);
      FeedAllAppend(NOTHING, fs, [f]);
      assert [f][1..] == [] && FeedAll(a, [f]) == FeedAll(b, []);
    }
    AccumulatorMeetsSpec(fs + [f] + gs);
    AccumulatorMeetsSpec(fs);
    FeedAllMeetsPending(b, gs);
  }

  // ---- fragments without an id, read as continuations ----

  /** The fragments with every empty id replaced by the last non-empty one before it; `id` is that of
      the fragments read so far. */
  function Continued(fs: seq<ToolCall>, id: string): seq<ToolCall>
    decreases |fs|
  {
    if fs == [] then []
    else
      var id' := if fs[0].id == "" then id else fs[0].id;
      [fs[0].(id := id')] + Continued(fs[1..], id')
  }

  /** No argument text is lost and no call is cut in two: an empty id after a call brings no arguments,
      and the next id is another one. `open` tells that the call `id` has not met an empty id yet. */
  predicate Harmless(fs: seq<ToolCall>, id: string, open: bool)
    decreases |fs|
  {
    fs == [] ||
    if fs[0].id == "" then (id == "" || fs[0].arguments == "") && Harmless(fs[1..], id, false)
    else (open || fs[0].id != id) && Harmless(fs[1..], fs[0].id, true)
  }

  /** Argument text of the fragments without an id that follow a call. */
  function Lost(fs: seq<ToolCall>, id: string): nat
    decreases |fs|
  {
    if fs == [] then 0
    else if fs[0].id == "" then (if id == "" then 0 else |fs[0].arguments|) + Lost(fs[1..], id)
    else Lost(fs[1..], fs[0].id)
  }

  /** How often a call is taken up again after such a fragment. */
  function Splits(fs: seq<ToolCall>, id: string, open: bool): nat
    decreases |fs|
  {
    if fs == [] then 0
    else if fs[0].id == "" then Splits(fs[1..], id, false)
    else (if open || fs[0].id != id then 0 else 1) + Splits(fs[1..], fs[0].id, true)
  }

  lemma {:induction false} HarmlessIff(fs: seq<ToolCall>, id: string, open: bool)
    ensures Harmless(fs, id, open) <==> Lost(fs, id) == 0 && Splits(fs, id, open) == 0
    decreases |fs|
  {
    if fs == [] {
    } else if fs[0].id == "" {
      HarmlessIff(fs[1..], id, false);
    } else {
      HarmlessIff(fs[1..], fs[0].id, true);
    }
  }

  /** `a` has read fragments and `b` the same ones continued: `b` still has the call `id` open, and `a`
      has it too unless it met an empty id. */
  ghost predicate Aligned(a: Assembly, b: Assembly, id: string, open: bool) {
    && (open ==> id != "")
    && (if open then a.open.Some? && a.open.value.id == id else a.open.None?)
    && (if id == "" then b.open.None? else b.open.Some? && b.open.value.id == id)
  }

  lemma AlignedStep(a: Assembly, b: Assembly, f: ToolCall, id: string, open: bool)
    requires Aligned(a, b, id, open)
    ensures var id' := if f.id == "" then id else f.id;
            Aligned(Feed(a, f), Feed(b, f.(id := id')), id', f.id != "")
  {
  }

  /** While nothing is lost or cut, both have the same calls, flushed or open. */
  lemma SameStep(a: Assembly, b: Assembly, f: ToolCall, id: string, open: bool)
    requires Aligned(a, b, id, open) && Close(a) == Close(b) && (open ==> a == b)
    requires if f.id == "" then id == "" || f.arguments == "" else open || f.id != id
    ensures var b' := Feed(b, f.(id := if f.id == "" then id else f.id));
            Close(Feed(a, f)) == Close(b') && (f.id != "" ==> Feed(a, f) == b')
  {
    if f.id == "" && id != "" {
      assert b.open.value.arguments + "" == b.open.value.arguments;
    }
  }

  lemma {:induction false} HarmlessKeeps(a: Assembly, b: Assembly, fs: seq<ToolCall>, id: string, open: bool)
    requires Aligned(a, b, id, open) && Close(a) == Close(b) && (open ==> a == b) && Harmless(fs, id, open)
    ensures Close(FeedAll(a, fs)) == Close(FeedAll(b, Continued(fs, id)))
    decreases |fs|
  {
    if fs == [] {
    } else {
      var f := fs[0];
      var id' := if f.id == "" then id else f.id;
      AlignedStep(a, b, f, id, open);
      SameStep(a, b, f, id, open);
      HarmlessKeeps(Feed(a, f), Feed(b, f.(id := id')), fs[1..], id', f.id != "");
      assert Continued(fs, id)[1..] == Continued(fs[1..], id');
    }
  }

  function TextOf(calls: seq<ToolCall>): nat {
    if calls == [] then 0 else TextOf(calls[..|calls| - 1]) + |calls[|calls| - 1].arguments|
  }

  lemma TextOfSnoc(calls: seq<ToolCall>, c: ToolCall)
    ensures TextOf(calls + [c]) == TextOf(calls) + |c.arguments|
  {
    assert (calls + [c])[..|calls|] == calls;
  }

  lemma FeedCounts(a: Assembly, f: ToolCall)
    requires Valid(a)
    ensures |Close(Feed(a, f))| == |Close(a)| + if IsNewCall(a, f) && f.id != "" then 1 else 0
    ensures TextOf(Close(Feed(a, f))) == TextOf(Close(a)) + if f.id != "" then |f.arguments| else 0
  {
    if IsNewCall(a, f) {
      TextOfSnoc(Close(a), f);
    } else if a.open.Some? {
      TextOfSnoc(a.done, a.open.value);
      TextOfSnoc(a.done, Feed(a, f).open.value);
    }
  }

  /** Reading empty ids as they stand loses exactly `Lost` characters and makes exactly `Splits` more
      calls than reading them as continuations. */
  lemma {:induction false} ContinuationCounts(a: Assembly, b: Assembly, fs: seq<ToolCall>, id: string, open: bool)
    requires Aligned(a, b, id, open)
    ensures var x, y := Close(FeedAll(a, fs)), Close(FeedAll(b, Continued(fs, id)));
            && TextOf(y) - TextOf(x) == TextOf(Close(b)) - TextOf(Close(a)) + Lost(fs, id)
            && |x| - |y| == |Close(a)| - |Close(b)| + Splits(fs, id, open)
    decreases |fs|
  {
    if fs == [] {
    } else {
      var f := fs[0];
      var id' := if f.id == "" then id else f.id;
      AlignedStep(a, b, f, id, open);
      FeedCounts(a, f);
      FeedCounts(b, f.(id := id'));
      ContinuationCounts(Feed(a, f), Feed(b, f.(id := id')), fs[1..], id', f.id != "");
      assert Continued(fs, id)[1..] == Continued(fs[1..], id');
    }
  }

  lemma ContinuationLoss(fs: seq<ToolCall>)
    ensures TextOf(Assemble(fs)) + Lost(fs, "") == TextOf(Assemble(Continued(fs, "")))
    ensures |Assemble(fs)| == |Assemble(Continued(fs, ""))| + Splits(fs, "", false)
  {
    AccumulatorMeetsSpec(fs);
    AccumulatorMeetsSpec(Continued(fs, ""));
    ContinuationCounts(NOTHING, NOTHING, fs, "", false);
  }

  /** On every fragment sequence: assembling it as it stands gives what its continuation would exactly
      when no text is lost and no call is cut. */
  lemma ContinuesIff(fs: seq<ToolCall>)
    ensures Assemble(fs) == Assemble(Continued(fs, "")) <==> Harmless(fs, "", false)
  {
    AccumulatorMeetsSpec(fs);
    AccumulatorMeetsSpec(Continued(fs, ""));
    HarmlessIff(fs, "", false);
    ContinuationLoss(fs);
    if Harmless(fs, "", false) {
      HarmlessKeeps(NOTHING, NOTHING, fs, "", false);
    }
  }

  /** The loss on one input: the second half of the arguments. */
  lemma ContinuationLost(id: string, name: string, first: string, second: string)
    requires id != "" && second != ""
    ensures var fs := [ToolCall(id, name, first), ToolCall("", "", second)];
            && Assemble(fs) == [ToolCall(id, name, first)]
            && Assemble(Continued(fs, "")) == [ToolCall(id, name, first + second)]
  {
    var c, more, next := ToolCall(id, name, first), ToolCall("", "", second), ToolCall(id, "", second);
    EmptyIdSeparates([c], more, []);
    assert [c] + [more] + [] == [c, more];
    WholeCall(c);
    ContinuedPair(c, more);
    TwoFragments(c, next);
    AssembleFirst(ToolCall(id, name, first + second), [c, next], []);
    assert [c, next] + [] == [c, next];
  }

  lemma ContinuedPair(c: ToolCall, more: ToolCall)
    requires c.id != "" && more.id == ""
    ensures Continued([c, more], "") == [c, more.(id := c.id)]
  {
    var next := more.(id := c.id);
    assert [c, more][1..] == [more] && [more][1..] == [];
    assert Continued([more], c.id) == [next] + [] == [next];
    assert [c] + [next] == [c, next];
  }

  lemma TwoFragments(c: ToolCall, next: ToolCall)
    requires next.id == c.id
    ensures SplitOf(c.(arguments := c.arguments + next.arguments), [c, next])
  {
    assert [c, next][1..] == [next] && [next][1..] == [];
    assert Arguments([next]) == next.arguments + "" == next.arguments;
    assert Arguments([c, next]) == c.arguments + Arguments([next]);
  }

  // ---- splitting and reassembling ----

  /** `frags` is the call `c` cut into one or more fragments; only the first one's name matters. */
  ghost predicate SplitOf(c: ToolCall, frags: seq<ToolCall>) {
    && frags != []
    && frags[0].name == c.name
    && Arguments(frags) == c.arguments
    && forall i :: 0 <= i < |frags| ==> frags[i].id == c.id
  }

  ghost predicate SplitsOf(calls: seq<ToolCall>, frags: seq<seq<ToolCall>>) {
    |calls| == |frags| && forall i :: 0 <= i < |calls| ==> SplitOf(calls[i], frags[i])
  }

  /** The call lists that survive streaming in fragments of their own ids alone: ids are non-empty and
      differ between neighbours. */
  predicate Addressable(calls: seq<ToolCall>) {
    && (forall i :: 0 <= i < |calls| ==> calls[i].id != "")
    && (forall i :: 0 <= i < |calls| - 1 ==> calls[i].id != calls[i + 1].id)
  }

  lemma {:induction false} LeadingRun(a: seq<ToolCall>, b: seq<ToolCall>, id: string)
    requires forall i :: 0 <= i < |a| ==> a[i].id == id
    requires b == [] || b[0].id != id
    ensures RunLength(a + b, id) == |a|
  {
    if a == [] {
      assert a + b == b;
    } else {
      assert (a + b)[1..] == a[1..] + b;
      LeadingRun(a[1..], b, id);
    }
  }

  lemma AssembleFirst(c: ToolCall, frag: seq<ToolCall>, rest: seq<ToolCall>)
    requires SplitOf(c, frag) && c.id != "" && (rest == [] || rest[0].id != c.id)
    ensures Assemble(frag + rest) == [c] + Assemble(rest)
  {
    LeadingRun(frag, rest, c.id);
    var fs := frag + rest;
    assert fs[..|frag|] == frag && fs[|frag|..] == rest;
  }

  lemma AddressableTail(calls: seq<ToolCall>)
    requires calls != [] && Addressable(calls)
    ensures Addressable(calls[1..]) && calls[0].id != ""
    ensures |calls| > 1 ==> calls[0].id != calls[1].id
  {
    var tail := calls[1..];
    forall i | 0 <= i < |tail| - 1
      ensures tail[i].id != tail[i + 1].id
    {
      assert calls[i + 1].id != calls[i + 1 + 1].id;
    }
    assert |calls| > 1 ==> calls[0].id != calls[0 + 1].id;
  }

  lemma {:induction false} ReassembleAddressable(calls: seq<ToolCall>, frags: seq<seq<ToolCall>>)
    requires SplitsOf(calls, frags) && Addressable(calls)
    ensures Assemble(Concat(frags)) == calls
  {
    if calls == [] {
    } else {
      var rest := Concat(frags[1..]);
      AddressableTail(calls);
      assert SplitsOf(calls[1..], frags[1..]);
      ReassembleAddressable(calls[1..], frags[1..]);
      assert SplitOf(calls[0], frags[0]);
      if |frags| > 1 {
        assert SplitOf(calls[1], frags[1]) && rest[0] == frags[1][0];
      }
      AssembleFirst(calls[0], frags[0], rest);
    }
  }

  lemma {:induction false} AssembledIdsNonEmpty(fs: seq<ToolCall>)
    ensures forall i :: 0 <= i < |Assemble(fs)| ==> Assemble(fs)[i].id != ""
    decreases |fs|
  {
    if fs == [] {
    } else {
      AssembledIdsNonEmpty(fs[RunLength(fs, fs[0].id)..]);
    }
  }

  lemma {:induction false} AssembledIdsDiffer(fs: seq<ToolCall>)
    requires forall i :: 0 <= i < |fs| ==> fs[i].id != ""
    ensures Addressable(Assemble(fs))
    ensures fs != [] ==> Assemble(fs) != [] && Assemble(fs)[0].id == fs[0].id
    decreases |fs|
  {
    if fs == [] {
    } else {
      AssembledIdsDiffer(fs[RunLength(fs, fs[0].id)..]);
    }
  }

  lemma {:induction false} FragmentIds(calls: seq<ToolCall>, frags: seq<seq<ToolCall>>)
    requires SplitsOf(calls, frags)
    requires forall i :: 0 <= i < |calls| ==> calls[i].id != ""
    ensures forall i :: 0 <= i < |Concat(frags)| ==> Concat(frags)[i].id != ""
  {
    if calls == [] {
    } else {
      FragmentIds(calls[1..], frags[1..]);
    }
  }

  const SEPARATOR := ToolCall("", "", "")

  /** The calls one fragment each, with an empty id after each to close it. */
  function Separated(calls: seq<ToolCall>): seq<ToolCall> {
    if calls == [] then [] else [calls[0], SEPARATOR] + Separated(calls[1..])
  }

  lemma WholeCall(c: ToolCall)
    ensures SplitOf(c, [c])
    ensures c.id != "" ==> Assemble([c]) == [c]
  {
    assert [c][1..] == [] && c.arguments + "" == c.arguments;
    if c.id != "" {
      AssembleFirst(c, [c], []);
      assert [c] + [] == [c];
    }
  }

  /** With separators, calls reassemble whatever their neighbours' ids. */
  lemma {:induction false} SeparatedReassembles(calls: seq<ToolCall>)
    requires forall i :: 0 <= i < |calls| ==> calls[i].id != ""
    ensures Assemble(Separated(calls)) == calls
  {
    if calls == [] {
    } else {
      var c, rest := calls[0], calls[1..];
      SeparatedReassembles(rest);
      EmptyIdSeparates([c], SEPARATOR, Separated(rest));
      Associate([c], [SEPARATOR], Separated(rest));
      assert [c, SEPARATOR] == [c] + [SEPARATOR];
      WholeCall(c);
    }
  }

  /** Some fragment sequence assembles to the calls exactly when no id is empty. */
  lemma AssemblesIff(calls: seq<ToolCall>)
    ensures (exists fs :: Assemble(fs) == calls) <==> forall i :: 0 <= i < |calls| ==> calls[i].id != ""
  {
    if fs :| Assemble(fs) == calls {
      AssembledIdsNonEmpty(fs);
    }
    if forall i :: 0 <= i < |calls| ==> calls[i].id != "" {
      SeparatedReassembles(calls);
    }
  }

  /** Splitting calls into fragments and reassembling them gives the calls back exactly when their
      ids are non-empty and no two neighbours share one. */
  lemma ReassemblyRoundTrip(calls: seq<ToolCall>, frags: seq<seq<ToolCall>>)
    requires SplitsOf(calls, frags)
    ensures Assemble(Concat(frags)) == calls <==> Addressable(calls)
  {
    if Addressable(calls) {
      ReassembleAddressable(calls, frags);
    } else if Assemble(Concat(frags)) == calls {
      AssembledIdsNonEmpty(Concat(frags));
      FragmentIds(calls, frags);
      AssembledIdsDiffer(Concat(frags));
    }
  }
}
