/** internal/upstream/sse.go, Aggregate: a stream of chunks folded into one response. */
module Sse {
  import opened Options
  import opened Text
  import opened Json
  import opened Folds
  import opened ToolCalls
  import opened Lines

  /** An absent reasoning text is empty; absent tool calls and usage are None. */
  datatype Response = Response(id: string, created: int, model: string, role: string, content: string,
                               reasoning: string, toolCalls: Option<seq<ToolCall>>, finishReason: string,
                               usage: Option<Fields>)

  // ---- what the chunks of a stream amount to -------------------------------------

  /** The objects of the arrays found under a key, in order. */
  function AllObjects(os: seq<Fields>, key: string): seq<Fields>
  {
    if os == [] then [] else AllObjects(os[..|os| - 1], key) + ObjectsAt(os[|os| - 1], key)
  }

  function Deltas(calls: seq<Fields>): seq<Delta>
  {
    if calls == [] then [] else Deltas(calls[..|calls| - 1]) + [DeltaOf(calls[|calls| - 1])]
  }

  function Choices(chunks: seq<Fields>): seq<Fields> {
    AllObjects(chunks, "choices")
  }

  function Calls(choices: seq<Fields>): seq<Fields> {
    AllObjects(Sub(choices, "delta"), "tool_calls")
  }

  predicate HasDeltaText(choice: Fields) {
    ObjAt(choice, "delta").Some? && HasStr(ObjAt(choice, "delta").value, "content")
  }

  ghost predicate AnyDeltaText(choices: seq<Fields>) {
    exists i :: 0 <= i < |choices| && HasDeltaText(choices[i])
  }

  function TextUnder(choice: Fields, key: string): string {
    match ObjAt(choice, key) case None => "" case Some(o) => StrAt(o, "content")
  }

  /** Delta texts in order; whole messages count only until the first delta text. */
  ghost function Content(choices: seq<Fields>): string
  {
    if choices == [] then ""
    else
      var c := choices[|choices| - 1];
      Content(choices[..|choices| - 1]) + TextUnder(c, "delta")
      + if AnyDeltaText(choices) then "" else TextUnder(c, "message")
  }

  function Created(chunks: seq<Fields>): real
  {
    if chunks == [] then 0.0
    else
      var c := Created(chunks[..|chunks| - 1]);
      if c != 0.0 then c
      else
        var n := NumAt(chunks[|chunks| - 1], "created");
        if n.Some? then n.value else 0.0
  }

  function LastObject(os: seq<Fields>): Option<Fields> {
    if os == [] then None else Some(os[|os| - 1])
  }

  /** The response a list of chunks stands for; the id and the time are made up only when no chunk gives them. */
  ghost predicate IsResponse(chunks: seq<Fields>, freshId: string, now: int, r: Response) {
    var choices := Choices(chunks);
    var deltas := Sub(choices, "delta");
    && r.id == (if FirstStr(chunks, "id") != "" then FirstStr(chunks, "id") else freshId)
    && r.model == FirstStr(chunks, "model")
    && r.created == (if Created(chunks) != 0.0 then Truncate(Created(chunks)) else now)
    && r.usage == LastObject(Sub(chunks, "usage"))
    && r.finishReason == Later("stop", LastStr(choices, "finish_reason"))
    && r.role == Later("assistant", LastStr(deltas, "role"))
    && r.content == Content(choices)
    && r.reasoning == ConcatStr(deltas, "reasoning_content")
    && match r.toolCalls
       case None => Calls(choices) == []
       case Some(calls) => Calls(choices) != [] && IsToolCalls(Deltas(Calls(choices)), calls)
  }

  // ---- the accumulator: Aggregate's local variables --------------------------------

  class Accumulator {
    var id: string
    var model: string
    var created: real
    var usage: Option<Fields>
    var finishReason: string
    var role: string
    var content: string
    var reasoning: string
    var gotAnyContent: bool
    var toolCalls: map<int, ToolCall>
    var toolOrder: seq<int>
    ghost var chunks: seq<Fields>   // the chunks, choices and call objects seen so far
    ghost var choices: seq<Fields>
    ghost var calls: seq<Fields>

    constructor ()
      ensures chunks == choices == calls == []
      ensures Valid()
    {
      id, model, created, usage := "", "", 0.0, None;
      finishReason, role, content, reasoning, gotAnyContent := "stop", "assistant", "", "", false;
      toolCalls, toolOrder := map[], [];
      chunks, choices, calls := [], [], [];
    }

    ghost predicate ChunkPart()
      reads this`chunks, this`id, this`model, this`created, this`usage
    {
      && id == FirstStr(chunks, "id") && model == FirstStr(chunks, "model")
      && created == Created(chunks) && usage == LastObject(Sub(chunks, "usage"))
    }

    ghost predicate ChoicePart()
      reads this`choices, this`finishReason, this`role, this`content, this`reasoning, this`gotAnyContent
    {
      && finishReason == Later("stop", LastStr(choices, "finish_reason"))
      && role == Later("assistant", LastStr(Sub(choices, "delta"), "role"))
      && content == Content(choices)
      && reasoning == ConcatStr(Sub(choices, "delta"), "reasoning_content")
      && gotAnyContent == AnyDeltaText(choices)
    }

    ghost predicate CallPart()
      reads this`calls, this`toolCalls, this`toolOrder
    {
      && toolCalls == MergedCalls(calls)
      && (forall k :: k in toolCalls <==> k in toolOrder)
      && (forall i, j :: 0 <= i < j < |toolOrder| ==> toolOrder[i] != toolOrder[j])
    }

    /** The innermost loop body: one tool-call delta. */
    method AddCall(call: Fields)
      requires CallPart()
      modifies this`calls, this`toolCalls, this`toolOrder
      ensures CallPart() && calls == old(calls) + [call]
    {
      hide MergedCalls, Merged, ForIndex, Deltas, DeltaOf;
      var idx := DeltaOf(call).index;
      MergedCallsMore(calls, call);
      ghost var before := ForIndex(Deltas(calls), idx);
      if idx !in toolCalls {
        NewCallIsEmpty(idx);
        toolCalls := toolCalls[idx := ToolCall(idx, "", "", None)];
        toolOrder := toolOrder + [idx];
      }
      var merged := MergeToolCallDelta(toolCalls[idx], call, before);
      toolCalls := toolCalls[idx := merged];
      calls := calls + [call];
    }

    /** The delta of a choice. */
    method AddDelta(d: Fields)
      requires CallPart()
      modifies this`role, this`content, this`reasoning, this`gotAnyContent, this`calls, this`toolCalls, this`toolOrder
      ensures CallPart() && calls == old(calls) + ObjectsAt(d, "tool_calls")
      ensures role == Later(old(role), StrAt(d, "role"))
      ensures content == old(content) + StrAt(d, "content")
      ensures reasoning == old(reasoning) + StrAt(d, "reasoning_content")
      ensures gotAnyContent == (old(gotAnyContent) || HasStr(d, "content"))
    {
      hide CallPart;
      if HasStr(d, "role") && StrAt(d, "role") != "" {
        role := StrAt(d, "role");
      }
      if HasStr(d, "content") {
        content := content + StrAt(d, "content");
        gotAnyContent := true;
      }
      if HasStr(d, "reasoning_content") {
        reasoning := reasoning + StrAt(d, "reasoning_content");
      }
      AddCalls(ObjectsAt(d, "tool_calls"));
    }

    /** The loop body over choices. */
    method AddChoice(c: Fields)
      requires ChoicePart() && CallPart() && calls == Calls(choices)
      modifies this`choices, this`finishReason, this`role, this`content, this`reasoning, this`gotAnyContent
      modifies this`calls, this`toolCalls, this`toolOrder
      ensures ChoicePart() && CallPart() && calls == Calls(choices) && choices == old(choices) + [c]
    {
      ChoiceMore(choices, c);
      hide Sub, LastStr, ConcatStr, Content, AnyDeltaText, Calls, CallPart, ObjectsAt;
      if HasStr(c, "finish_reason") && StrAt(c, "finish_reason") != "" {
        finishReason := StrAt(c, "finish_reason");
      }
      var delta := ObjAt(c, "delta");
      if delta.Some? {
        AddDelta(delta.value);
      }
      var msg := ObjAt(c, "message");
      if msg.Some? && !gotAnyContent {
        if HasStr(msg.value, "content") {
          content := content + StrAt(msg.value, "content");
        }
      }
      choices := choices + [c];
    }

    /** Everything seen so far is accounted for. */
    ghost predicate Valid()
      reads this
    {
      ChunkPart() && ChoicePart() && CallPart() && calls == Calls(choices) && choices == Choices(chunks)
    }

    /** The loop body over chunks. */
    method AddChunk(chunk: Fields)
      requires Valid()
      modifies this
      ensures Valid() && chunks == old(chunks) + [chunk]
    {
      ChunkMore(chunks, chunk);
      hide FirstStr, Created, Sub, LastObject, ChoicePart, CallPart, Calls, Choices, ObjectsAt;
      if HasStr(chunk, "id") && id == "" {
        id := StrAt(chunk, "id");
      }
      if HasStr(chunk, "model") && model == "" {
        model := StrAt(chunk, "model");
      }
      var n := NumAt(chunk, "created");
      if n.Some? && created == 0.0 {
        created := n.value;
      }
      var u := ObjAt(chunk, "usage");
      if u.Some? {
        usage := u;
      }
      chunks := chunks + [chunk];
      AddChoices(ObjectsAt(chunk, "choices"));
    }

    /** One line of the stream. */
    method AddLine(line: string, parse: string -> Option<Fields>)
      requires Valid()
      modifies this
      ensures Valid() && chunks == old(chunks) + ChunkOn(line, parse)
    {
      hide Valid, PayloadOf;
      var payload := PayloadOf(line);
      if payload.Some? && payload.value != DONE {
        var chunk := parse(payload.value);
        if chunk.Some? {
          AddChunk(chunk.value);
        }
      }
    }

    /** The response after the last line. */
    method Finish(freshId: string, now: int) returns (r: Response)
      requires Valid()
      ensures IsResponse(chunks, freshId, now, r)
    {
      hide Truncate;
      var listed := OrderedCalls();
      r := Response(
        if id == "" then freshId else id,
        if created == 0.0 then now else Truncate(created),
        model, role, content, reasoning, listed, finishReason, usage);
    }

    lemma NothingListed()
      requires CallPart()
      ensures calls == [] <==> toolOrder == []
      ensures forall k :: k in MergedCalls(calls) <==> k in toolOrder
      ensures forall i, j :: 0 <= i < j < |toolOrder| ==> toolOrder[i] != toolOrder[j]
      ensures toolCalls == MergedCalls(calls)
    {
      hide Merged, ForIndex;
      NoCallsNoIndices(calls);
      if toolOrder == [] {
        assert toolCalls.Keys == {};
      } else {
        assert toolOrder[0] in toolCalls;
      }
    }

    /** The accumulated calls in the order of their indices. */
    method OrderedCalls() returns (listed: Option<seq<ToolCall>>)
      requires CallPart()
      ensures match listed
              case None => calls == []
              case Some(s) => calls != [] && IsToolCalls(Deltas(calls), s)
    {
      NothingListed();
      hide MergedCalls, IsToolCalls, Deltas, CallPart;
      if |toolOrder| == 0 {
        return None;
      }
      var order := Sorted(toolOrder);
      var s: seq<ToolCall> := [];
      for i := 0 to |order|
        invariant |s| == i && forall j :: 0 <= j < i ==> order[j] in toolCalls && s[j] == toolCalls[order[j]]
      {
        assert order[i] in order;
        s := s + [toolCalls[order[i]]];
      }
      ListingIsToolCalls(calls, order, s);
      return Some(s);
    }

    method AddChoices(cs: seq<Fields>)
      requires ChoicePart() && CallPart() && calls == Calls(choices)
      modifies this`choices, this`finishReason, this`role, this`content, this`reasoning, this`gotAnyContent
      modifies this`calls, this`toolCalls, this`toolOrder
      ensures ChoicePart() && CallPart() && calls == Calls(choices) && choices == old(choices) + cs
    {
      hide ChoicePart, CallPart, Calls;
      for i := 0 to |cs|
        invariant ChoicePart() && CallPart() && calls == Calls(choices) && choices == old(choices) + cs[..i]
      {
        AddChoice(cs[i]);
      }
    }

    method AddCalls(tcs: seq<Fields>)
      requires CallPart()
      modifies this`calls, this`toolCalls, this`toolOrder
      ensures CallPart() && calls == old(calls) + tcs
    {
      for i := 0 to |tcs|
        invariant CallPart() && calls == old(calls) + tcs[..i]
      {
        AddCall(tcs[i]);
      }
    }
  }

  /** What one more choice adds. */
  lemma ChoiceMore(cs: seq<Fields>, c: Fields)
    ensures var d := ObjAt(c, "delta");
            && LastStr(cs + [c], "finish_reason") == Later(LastStr(cs, "finish_reason"), StrAt(c, "finish_reason"))
            && AnyDeltaText(cs + [c]) == (AnyDeltaText(cs) || HasDeltaText(c))
            && Content(cs + [c]) == Content(cs) + TextUnder(c, "delta")
                                    + (if AnyDeltaText(cs + [c]) then "" else TextUnder(c, "message"))
            && (d.None? ==> Sub(cs + [c], "delta") == Sub(cs, "delta") && Calls(cs + [c]) == Calls(cs))
            && (d.Some? ==>
                  && LastStr(Sub(cs + [c], "delta"), "role")
                     == Later(LastStr(Sub(cs, "delta"), "role"), StrAt(d.value, "role"))
                  && ConcatStr(Sub(cs + [c], "delta"), "reasoning_content")
                     == ConcatStr(Sub(cs, "delta"), "reasoning_content") + StrAt(d.value, "reasoning_content")
                  && Calls(cs + [c]) == Calls(cs) + ObjectsAt(d.value, "tool_calls"))
  {
    assert (cs + [c])[..|cs|] == cs;
    assert (cs + [c])[|cs|] == c;
    assert forall i :: 0 <= i < |cs| ==> (cs + [c])[i] == cs[i];
    var d := ObjAt(c, "delta");
    if d.Some? {
      var ds := Sub(cs, "delta");
      assert Sub(cs + [c], "delta") == ds + [d.value];
      assert (ds + [d.value])[..|ds|] == ds;
    }
  }

  /** What one more chunk adds. */
  lemma ChunkMore(chunks: seq<Fields>, c: Fields)
    ensures FirstStr(chunks + [c], "id") ==
              if FirstStr(chunks, "id") != "" then FirstStr(chunks, "id") else StrAt(c, "id")
    ensures FirstStr(chunks + [c], "model") ==
              if FirstStr(chunks, "model") != "" then FirstStr(chunks, "model") else StrAt(c, "model")
    ensures Created(chunks + [c]) ==
              if Created(chunks) != 0.0 || NumAt(c, "created").None? then Created(chunks) else NumAt(c, "created").value
    ensures LastObject(Sub(chunks + [c], "usage")) ==
              if ObjAt(c, "usage").Some? then ObjAt(c, "usage") else LastObject(Sub(chunks, "usage"))
    ensures Choices(chunks + [c]) == Choices(chunks) + ObjectsAt(c, "choices")
  {
    assert (chunks + [c])[..|chunks|] == chunks;
  }

  method Sorted(s: seq<int>) returns (t: seq<int>)
    requires forall i, j :: 0 <= i < j < |s| ==> s[i] != s[j]
    ensures Ascending(t) && forall k :: k in t <==> k in s
  {
    var a := new int[|s|](i requires 0 <= i < |s| => s[i]);
    assert a[..] == s;
    SortInts(a);
    DistinctSorted(s, a[..]);
    t := a[..];
  }

  lemma NoCallsNoIndices(calls: seq<Fields>)
    ensures calls == [] <==> MergedCalls(calls) == map[]
  {
    hide Merged, ForIndex, DeltaOf;
    if calls != [] {
      var ds := Deltas(calls);
      assert ds[|ds| - 1].index in IndicesOf(ds);
      assert ds[|ds| - 1].index in MergedCalls(calls);
    }
  }

  /** Sorting distinct numbers puts the same numbers in strictly ascending order. */
  lemma DistinctSorted(s: seq<int>, t: seq<int>)
    requires forall i, j :: 0 <= i < j < |s| ==> s[i] != s[j]
    requires Settled(t, |t|) && multiset(t) == multiset(s)
    ensures Ascending(t) && forall k :: k in t <==> k in s
  {
    assert forall k :: k in t <==> k in multiset(t);
    assert forall k :: k in s <==> k in multiset(s);
    forall i, j | 0 <= i < j < |t|
      ensures t[i] < t[j]
    {
      if t[i] == t[j] {
        TwiceIn(t, i, j);
        OnceIn(s, t[i]);
      }
    }
  }

  lemma TwiceIn(t: seq<int>, i: int, j: int)
    requires 0 <= i < j < |t| && t[i] == t[j]
    ensures multiset(t)[t[i]] >= 2
  {
    assert t == t[..j] + [t[j]] + t[j + 1..];
    assert t[..j][i] == t[i];
  }

  lemma {:induction false} OnceIn(s: seq<int>, k: int)
    requires forall i, j :: 0 <= i < j < |s| ==> s[i] != s[j]
    ensures multiset(s)[k] <= 1
  {
    if s != [] {
      var n := |s| - 1;
      OnceIn(s[..n], k);
      assert s == s[..n] + [s[n]];
      assert s[n] !in s[..n];
    }
  }

  lemma ListingIsToolCalls(calls: seq<Fields>, order: seq<int>, s: seq<ToolCall>)
    requires Ascending(order) && forall k :: k in order <==> k in MergedCalls(calls)
    requires |s| == |order|
    requires forall i :: 0 <= i < |s| ==> order[i] in MergedCalls(calls) && s[i] == MergedCalls(calls)[order[i]]
    ensures IsToolCalls(Deltas(calls), s)
  {
    hide Merged, ForIndex, Deltas;
    var ds := Deltas(calls);
    forall i | 0 <= i < |s|
      ensures s[i].index == order[i] && s[i] == Merged(order[i], ForIndex(ds, order[i]))
    {
      MergedIndex(order[i], ForIndex(ds, order[i]));
    }
    forall k
      ensures IndexSeen(ds, k) <==> exists i :: 0 <= i < |s| && s[i].index == k
    {
      SeenIsIndex(ds, k);
      if k in order {
        var i :| 0 <= i < |order| && order[i] == k;
        assert s[i].index == k;
      }
    }
    assert seq(|s|, i requires 0 <= i < |s| => s[i].index) == order;
  }

  lemma SeenIsIndex(ds: seq<Delta>, k: int)
    ensures IndexSeen(ds, k) <==> k in IndicesOf(ds)
  {
  }

  lemma NewCallIsEmpty(k: int)
    ensures Merged(k, []) == ToolCall(k, "", "", None)
  {
  }

  /** The calls that a list of call objects amounts to, by index. */
  ghost function MergedCalls(calls: seq<Fields>): map<int, ToolCall> {
    map k | k in IndicesOf(Deltas(calls)) :: Merged(k, ForIndex(Deltas(calls), k))
  }

  function IndicesOf(ds: seq<Delta>): set<int> {
    set i | 0 <= i < |ds| :: ds[i].index
  }

  lemma MergedCallsMore(calls: seq<Fields>, call: Fields)
    ensures var idx, before := DeltaOf(call).index, ForIndex(Deltas(calls), DeltaOf(call).index);
            && MergedCalls(calls + [call]) == MergedCalls(calls)[idx := Merged(idx, before + [call])]
            && (idx in MergedCalls(calls) ==>
                  MergedCalls(calls)[idx] == Merged(idx, before) && Merged(idx, before).index == idx)
            && (idx !in MergedCalls(calls) ==> before == [])
  {
    hide DeltaOf, Deltas, ForIndex, Merged;
    DeltasMore(calls, call);
    var ds, d := Deltas(calls), DeltaOf(call);
    SeenIsNonEmpty(ds, d.index);
    IndicesMore(ds, d);
    MergedIndex(d.index, ForIndex(ds, d.index));
    var merged := Merged(d.index, ForIndex(ds, d.index) + [call]);
    assert MergedCalls(calls + [call]) == MergedCalls(calls)[d.index := merged];
  }

  lemma MergedIndex(k: int, ds: seq<Fields>)
    ensures Merged(k, ds).index == k
  {
  }

  lemma IndicesMore(ds: seq<Delta>, d: Delta)
    ensures IndicesOf(ds + [d]) == IndicesOf(ds) + {d.index}
    ensures forall k :: k in IndicesOf(ds) <==> IndexSeen(ds, k)
  {
    var all := ds + [d];
    assert all[|ds|].index in IndicesOf(all);
    forall k | k in IndicesOf(ds)
      ensures k in IndicesOf(all)
    {
      var i :| 0 <= i < |ds| && ds[i].index == k;
      assert all[i].index == k;
    }
  }

  lemma DeltasMore(calls: seq<Fields>, call: Fields)
    ensures Deltas(calls + [call]) == Deltas(calls) + [DeltaOf(call)]
    ensures forall k :: ForIndex(Deltas(calls + [call]), k) ==
              if DeltaOf(call).index == k then ForIndex(Deltas(calls), k) + [call] else ForIndex(Deltas(calls), k)
  {
    assert (calls + [call])[..|calls|] == calls;
    var ds := Deltas(calls);
    assert (ds + [DeltaOf(call)])[..|ds|] == ds;
  }

  // ---- Aggregate --------------------------------------------------------------------

  /** What follows "data:" on a line, trimmed. */
  function PayloadOf(line: string): Option<string> {
    var t := TrimCrLf(line);
    if "data:" <= t then Some(TrimSpace(t[5..])) else None
  }

  const DONE := "[DONE]"

  predicate IsDone(line: string) {
    PayloadOf(line) == Some(DONE)
  }

  /** The chunk on a line, if its payload parses as an object. */
  function ChunkOn(line: string, parse: string -> Option<Fields>): seq<Fields> {
    match PayloadOf(line)
    case None => []
    case Some(p) => if p == DONE then [] else match parse(p) case None => [] case Some(o) => [o]
  }

  function ChunksOn(lines: seq<string>, parse: string -> Option<Fields>): seq<Fields>
  {
    if lines == [] then [] else ChunksOn(lines[..|lines| - 1], parse) + ChunkOn(lines[|lines| - 1], parse)
  }

  /** All chunks of a stream, an unterminated last line included. */
  function ChunksOf(data: string, parse: string -> Option<Fields>): seq<Fields> {
    ChunksOn(Complete(data) + [Tail(data)], parse)
  }

  lemma NewlineDoesNotMatter(l: string, parse: string -> Option<Fields>)
    ensures ChunkOn(l + ['\n'], parse) == ChunkOn(l, parse)
  {
    assert (l + ['\n'])[..|l|] == l;
    assert TrimCrLf(l + ['\n']) == TrimCrLf(l);
  }

  lemma {:induction false} ChunksOnAppend(a: seq<string>, b: seq<string>, parse: string -> Option<Fields>)
    ensures ChunksOn(a + b, parse) == ChunksOn(a, parse) + ChunksOn(b, parse)
  {
    if b == [] {
      assert a + b == a;
    } else {
      assert (a + b)[..|a + b| - 1] == a + b[..|b| - 1];
      ChunksOnAppend(a, b[..|b| - 1], parse);
    }
  }

  lemma FirstLineChunks(rest: string, parse: string -> Option<Fields>)
    ensures var i := IndexByte(rest, '\n');
            ChunksOf(rest, parse) ==
              if i < 0 then ChunkOn(rest, parse) else ChunkOn(rest[..i + 1], parse) + ChunksOf(rest[i + 1..], parse)
  {
    hide IndexByte, Complete, Tail, ChunkOn, ChunksOn;
    SplitAtIndex(rest);
    var i := IndexByte(rest, '\n');
    if i < 0 {
      assert [] + [rest] == [rest];
      OneLineChunks(rest, parse);
    } else {
      var l, more := rest[..i], rest[i + 1..];
      assert rest[..i + 1] == l + ['\n'];
      NewlineDoesNotMatter(l, parse);
      OneLineChunks(l, parse);
      ChunksOnAppend([l], Complete(more) + [Tail(more)], parse);
      assert Complete(rest) + [Tail(rest)] == [l] + (Complete(more) + [Tail(more)]);
    }
  }

  lemma OneLineChunks(l: string, parse: string -> Option<Fields>)
    ensures ChunksOn([l], parse) == ChunkOn(l, parse)
  {
    assert [l][..0] == [];
  }

  /** The whole stream is read, past any [DONE] line, up to its end or to a read failure. */
  method Aggregate(data: string, failed: bool, parse: string -> Option<Fields>, freshId: string, now: int)
    returns (r: Option<Response>)
    ensures r.None? <==> failed
    ensures r.Some? ==> IsResponse(ChunksOf(data, parse), freshId, now, r.value)
  {
    hide *;
    var acc := new Accumulator();
    var rest := data;
    while true
      invariant fresh(acc) && acc.Valid()
      invariant acc.chunks + ChunksOf(rest, parse) == ChunksOf(data, parse)
      decreases |rest|
    {
      FirstLineChunks(rest, parse);
      var i := IndexByte(rest, '\n');
      if i < 0 {
        if failed {
          return None;
        }
        acc.AddLine(rest, parse);
        break;
      }
      acc.AddLine(rest[..i + 1], parse);
      rest := rest[i + 1..];
    }
    var response := acc.Finish(freshId, now);
    r := Some(response);
  }
}
