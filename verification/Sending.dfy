/** What an upstream sends, and what Aggregate makes of it: building a stream of chunks is undone by aggregating it. */
module Sending {
  import opened Options
  import opened Text
  import opened Json
  import opened Folds
  import opened ToolCalls
  import opened Sse
  import Lines
  import Stream

  /** A piece of a tool call. */
  datatype CallPart = CallPart(index: int, id: string, kind: string, name: string, args: string)

  /** A piece of a response; created is 0 and strings are empty when there is nothing to say. A part streams a piece of
      text, or brings a whole message, or neither. */
  datatype Part = Part(id: string, model: string, created: int, role: string, text: Option<string>,
                       message: Option<string>, reasoning: string, finish: string, usage: Option<Fields>,
                       calls: seq<CallPart>)

  // ---- as JSON -------------------------------------------------------------------

  function FunctionFields(c: CallPart): Fields {
    map["name" := Str(c.name), "arguments" := Str(c.args)]
  }

  function CallFields(c: CallPart): Fields {
    map["index" := Num(c.index as real), "id" := Str(c.id), "type" := Str(c.kind), "function" := Obj(FunctionFields(c))]
  }

  /** Items other than objects, which may stand anywhere in an array. */
  predicate NoObjects(junk: seq<Json>) {
    forall x :: x in junk ==> !x.Obj?
  }

  function CallItems(junk: seq<Json>, calls: seq<CallPart>): seq<Json>
  {
    if calls == [] then junk
    else CallItems(junk, calls[..|calls| - 1]) + [Obj(CallFields(calls[|calls| - 1]))] + junk
  }

  function OrNull(text: Option<string>): Json {
    match text case None => Null case Some(t) => Str(t)
  }

  function DeltaFields(junk: seq<Json>, p: Part): Fields {
    map["role" := Str(p.role), "content" := OrNull(p.text), "reasoning_content" := Str(p.reasoning),
        "tool_calls" := Arr(CallItems(junk, p.calls))]
  }

  function ChoiceFields(junk: seq<Json>, p: Part): Fields {
    map["delta" := Obj(DeltaFields(junk, p)), "finish_reason" := Str(p.finish),
        "message" := Obj(map["content" := OrNull(p.message)])]
  }

  function ChunkFields(junk: seq<Json>, p: Part): Fields {
    map["id" := Str(p.id), "model" := Str(p.model), "created" := Num(p.created as real),
        "choices" := Arr(junk + [Obj(ChoiceFields(junk, p))] + junk),
        "usage" := match p.usage case None => Null case Some(u) => Obj(u)]
  }

  function Chunks(junk: seq<Json>, parts: seq<Part>): seq<Fields>
  {
    if parts == [] then [] else Chunks(junk, parts[..|parts| - 1]) + [ChunkFields(junk, parts[|parts| - 1])]
  }

  // ---- what the parts amount to ------------------------------------------------------

  function FirstOf(ss: seq<string>): string
  {
    if ss == [] then "" else if ss[0] != "" then ss[0] else FirstOf(ss[1..])
  }

  function LastOf(ss: seq<string>): string
  {
    if ss == [] then "" else if ss[|ss| - 1] != "" then ss[|ss| - 1] else LastOf(ss[..|ss| - 1])
  }

  function Default(s: string, otherwise: string): string {
    if s != "" then s else otherwise
  }

  function Each(parts: seq<Part>, f: Part -> string): seq<string> {
    seq(|parts|, i requires 0 <= i < |parts| => f(parts[i]))
  }

  function EachCall(calls: seq<CallPart>, f: CallPart -> string): seq<string> {
    seq(|calls|, i requires 0 <= i < |calls| => f(calls[i]))
  }

  /** The first time given, or now. */
  function CreatedOf(parts: seq<Part>, now: int): int
  {
    if parts == [] then now else if parts[0].created != 0 then parts[0].created else CreatedOf(parts[1..], now)
  }

  function UsageOf(parts: seq<Part>): Option<Fields>
  {
    if parts == [] then None
    else
      var last := parts[|parts| - 1];
      if last.usage.Some? then last.usage else UsageOf(parts[..|parts| - 1])
  }

  function OrEmpty(text: Option<string>): string {
    match text case None => "" case Some(t) => t
  }

  ghost predicate Streams(parts: seq<Part>) {
    exists p :: p in parts && p.text.Some?
  }

  /** The streamed texts, and the whole messages that come before any of them. */
  ghost function TextOf(parts: seq<Part>): string
  {
    if parts == [] then ""
    else
      var last := parts[|parts| - 1];
      TextOf(parts[..|parts| - 1]) + OrEmpty(last.text) + if Streams(parts) then "" else OrEmpty(last.message)
  }

  function AllCalls(parts: seq<Part>): seq<CallPart>
  {
    if parts == [] then [] else AllCalls(parts[..|parts| - 1]) + parts[|parts| - 1].calls
  }

  function OfIndex(calls: seq<CallPart>, k: int): seq<CallPart>
  {
    if calls == [] then []
    else OfIndex(calls[..|calls| - 1], k) + if calls[|calls| - 1].index == k then [calls[|calls| - 1]] else []
  }

  /** The call that the pieces of one index make up. */
  function WholeCall(k: int, own: seq<CallPart>): ToolCall {
    ToolCall(k, LastOf(EachCall(own, (c: CallPart) => c.id)), LastOf(EachCall(own, (c: CallPart) => c.kind)),
             Some(Function(LastOf(EachCall(own, (c: CallPart) => c.name)),
                           Concat(EachCall(own, (c: CallPart) => c.args)))))
  }

  /** The listed calls are those of the indices sent, in ascending order. */
  ghost predicate ListsCalls(sent: seq<CallPart>, listed: Option<seq<ToolCall>>) {
    match listed
    case None => sent == []
    case Some(calls) =>
      && sent != []
      && (forall i, j :: 0 <= i < j < |calls| ==> calls[i].index < calls[j].index)
      && (forall c :: c in sent ==> exists i :: 0 <= i < |calls| && calls[i].index == c.index)
      && (forall i :: 0 <= i < |calls| ==>
            (exists c :: c in sent && c.index == calls[i].index) &&
            calls[i] == WholeCall(calls[i].index, OfIndex(sent, calls[i].index)))
  }

  /** The response the parts amount to. */
  ghost predicate IsWhole(parts: seq<Part>, freshId: string, now: int, r: Response) {
    && r.id == Default(FirstOf(Each(parts, (p: Part) => p.id)), freshId)
    && r.model == FirstOf(Each(parts, (p: Part) => p.model))
    && r.created == CreatedOf(parts, now)
    && r.role == Default(LastOf(Each(parts, (p: Part) => p.role)), "assistant")
    && r.content == TextOf(parts)
    && r.reasoning == Concat(Each(parts, (p: Part) => p.reasoning))
    && r.finishReason == Default(LastOf(Each(parts, (p: Part) => p.finish)), "stop")
    && r.usage == UsageOf(parts)
    && ListsCalls(AllCalls(parts), r.toolCalls)
  }

  // ---- reading one chunk back -----------------------------------------------------------

  lemma {:induction false} JunkIsSkipped(junk: seq<Json>)
    requires NoObjects(junk)
    ensures Objects(junk) == []
  {
    if junk != [] {
      assert junk[|junk| - 1] in junk;
      assert forall x :: x in junk[..|junk| - 1] ==> x in junk;
      JunkIsSkipped(junk[..|junk| - 1]);
    }
  }

  lemma {:induction false} ObjectsAppend(a: seq<Json>, b: seq<Json>)
    ensures Objects(a + b) == Objects(a) + Objects(b)
  {
    if b == [] {
      assert a + b == a;
    } else {
      assert (a + b)[..|a + b| - 1] == a + b[..|b| - 1];
      ObjectsAppend(a, b[..|b| - 1]);
    }
  }

  lemma OneObject(o: Fields)
    ensures Objects([Obj(o)]) == [o]
  {
    assert [Obj(o)][..0] == [];
  }

  function AllCallFields(calls: seq<CallPart>): seq<Fields>
  {
    if calls == [] then [] else AllCallFields(calls[..|calls| - 1]) + [CallFields(calls[|calls| - 1])]
  }

  lemma {:induction false} CallItemsRead(junk: seq<Json>, calls: seq<CallPart>)
    requires NoObjects(junk)
    ensures Objects(CallItems(junk, calls)) == AllCallFields(calls)
  {
    hide Objects, CallFields, NoObjects;
    JunkIsSkipped(junk);
    if calls != [] {
      var init, o := calls[..|calls| - 1], CallFields(calls[|calls| - 1]);
      CallItemsRead(junk, init);
      OneObject(o);
      ObjectsAppend(CallItems(junk, init), [Obj(o)]);
      ObjectsAppend(CallItems(junk, init) + [Obj(o)], junk);
    }
  }

  lemma ChunkReads(junk: seq<Json>, p: Part)
    requires NoObjects(junk)
    ensures var c := ChunkFields(junk, p);
            && StrAt(c, "id") == p.id && StrAt(c, "model") == p.model && NumAt(c, "created") == Some(p.created as real)
            && ObjAt(c, "usage") == p.usage && ObjectsAt(c, "choices") == [ChoiceFields(junk, p)]
  {
    hide Objects, NoObjects, ChoiceFields;
    JunkIsSkipped(junk);
    OneObject(ChoiceFields(junk, p));
    ObjectsAppend(junk, [Obj(ChoiceFields(junk, p))]);
    ObjectsAppend(junk + [Obj(ChoiceFields(junk, p))], junk);
  }

  lemma ChoiceReads(junk: seq<Json>, p: Part)
    requires NoObjects(junk)
    ensures var c, d := ChoiceFields(junk, p), DeltaFields(junk, p);
            && StrAt(c, "finish_reason") == p.finish && ObjAt(c, "delta") == Some(d)
            && HasDeltaText(c) == p.text.Some? && TextUnder(c, "delta") == OrEmpty(p.text)
            && TextUnder(c, "message") == OrEmpty(p.message)
            && StrAt(d, "role") == p.role && StrAt(d, "reasoning_content") == p.reasoning
            && ObjectsAt(d, "tool_calls") == AllCallFields(p.calls)
  {
    hide Objects, NoObjects, CallItems, AllCallFields;
    CallItemsRead(junk, p.calls);
  }

  // ---- the folds, part by part ---------------------------------------------------------------

  function AllChoices(junk: seq<Json>, parts: seq<Part>): seq<Fields>
  {
    if parts == [] then [] else AllChoices(junk, parts[..|parts| - 1]) + [ChoiceFields(junk, parts[|parts| - 1])]
  }

  lemma EachMore(parts: seq<Part>, p: Part, f: Part -> string)
    ensures Each(parts + [p], f) == Each(parts, f) + [f(p)]
  {
  }

  lemma {:induction false} FirstOfMore(ss: seq<string>, s: string)
    ensures FirstOf(ss + [s]) == if FirstOf(ss) != "" then FirstOf(ss) else s
  {
    if ss == [] {
      assert [s][1..] == [];
    } else {
      assert (ss + [s])[1..] == ss[1..] + [s];
      FirstOfMore(ss[1..], s);
    }
  }

  lemma LastOfMore(ss: seq<string>, s: string)
    ensures LastOf(ss + [s]) == Later(LastOf(ss), s)
  {
    assert (ss + [s])[..|ss|] == ss;
  }

  lemma {:induction false} CreatedMore(parts: seq<Part>, p: Part, now: int)
    ensures CreatedOf(parts + [p], now) ==
              if exists i :: 0 <= i < |parts| && parts[i].created != 0 then CreatedOf(parts, now)
              else if p.created != 0 then p.created else now
  {
    var all := parts + [p];
    if parts == [] {
      assert all[1..] == [];
    } else {
      assert all[1..] == parts[1..] + [p];
      CreatedMore(parts[1..], p, now);
      assert forall i :: 0 < i < |parts| ==> parts[i] == parts[1..][i - 1];
    }
  }

  lemma {:induction false} IdsRead(junk: seq<Json>, parts: seq<Part>)
    requires NoObjects(junk)
    ensures FirstStr(Chunks(junk, parts), "id") == FirstOf(Each(parts, (p: Part) => p.id))
    ensures FirstStr(Chunks(junk, parts), "model") == FirstOf(Each(parts, (p: Part) => p.model))
    ensures LastObject(Sub(Chunks(junk, parts), "usage")) == UsageOf(parts)
    ensures Choices(Chunks(junk, parts)) == AllChoices(junk, parts)
  {
    if parts != [] {
      hide FirstStr, Sub, Choices, FirstOf, Each, ChunkFields, ChoiceFields, NoObjects, LastObject, ObjectsAt;
      var init, p := parts[..|parts| - 1], parts[|parts| - 1];
      assert init + [p] == parts;
      IdsRead(junk, init);
      ChunkMore(Chunks(junk, init), ChunkFields(junk, p));
      ChunkReads(junk, p);
      EachMore(init, p, (p: Part) => p.id);
      EachMore(init, p, (p: Part) => p.model);
      FirstOfMore(Each(init, (p: Part) => p.id), p.id);
      FirstOfMore(Each(init, (p: Part) => p.model), p.model);
    }
  }

  lemma {:induction false} TimesRead(junk: seq<Json>, parts: seq<Part>, now: int)
    requires NoObjects(junk)
    ensures Created(Chunks(junk, parts)) != 0.0 <==> exists i :: 0 <= i < |parts| && parts[i].created != 0
    ensures CreatedOf(parts, now) ==
              if Created(Chunks(junk, parts)) != 0.0 then Truncate(Created(Chunks(junk, parts))) else now
  {
    if parts != [] {
      hide ChunkFields, NoObjects, Created, CreatedOf, Truncate;
      var init, p := parts[..|parts| - 1], parts[|parts| - 1];
      assert init + [p] == parts;
      TimesRead(junk, init, now);
      ChunkMore(Chunks(junk, init), ChunkFields(junk, p));
      ChunkReads(junk, p);
      CreatedMore(init, p, now);
      WholeNumber(p.created);
    }
  }

  lemma WholeNumber(n: int)
    ensures Truncate(n as real) == n && (n as real == 0.0 <==> n == 0)
  {
  }

  lemma {:induction false} ChoicesRead(junk: seq<Json>, parts: seq<Part>)
    requires NoObjects(junk)
    ensures var cs := AllChoices(junk, parts);
            && LastStr(cs, "finish_reason") == LastOf(Each(parts, (p: Part) => p.finish))
            && LastStr(Sub(cs, "delta"), "role") == LastOf(Each(parts, (p: Part) => p.role))
            && ConcatStr(Sub(cs, "delta"), "reasoning_content") == Concat(Each(parts, (p: Part) => p.reasoning))
            && Content(cs) == TextOf(parts) && AnyDeltaText(cs) == Streams(parts)
            && Calls(cs) == AllCallFields(AllCalls(parts))
  {
    if parts != [] {
      hide *;
      var init, p := parts[..|parts| - 1], parts[|parts| - 1];
      assert init + [p] == parts;
      ChoicesRead(junk, init);
      AllChoicesMore(junk, init, p);
      ChoiceMore(AllChoices(junk, init), ChoiceFields(junk, p));
      ChoiceReads(junk, p);
      EachMore(init, p, (p: Part) => p.finish);
      EachMore(init, p, (p: Part) => p.role);
      EachMore(init, p, (p: Part) => p.reasoning);
      LastOfMore(Each(init, (p: Part) => p.finish), p.finish);
      LastOfMore(Each(init, (p: Part) => p.role), p.role);
      ConcatMore(Each(init, (p: Part) => p.reasoning), p.reasoning);
      TextMore(init, p);
      AllCallsMore(init, p);
      CallFieldsAppend(AllCalls(init), p.calls);
    }
  }

  lemma AllChoicesMore(junk: seq<Json>, parts: seq<Part>, p: Part)
    ensures AllChoices(junk, parts + [p]) == AllChoices(junk, parts) + [ChoiceFields(junk, p)]
  {
    assert (parts + [p])[..|parts|] == parts;
    hide ChoiceFields;
  }

  lemma TextMore(parts: seq<Part>, p: Part)
    ensures Streams(parts + [p]) <==> Streams(parts) || p.text.Some?
    ensures TextOf(parts + [p]) ==
              TextOf(parts) + OrEmpty(p.text) + if Streams(parts + [p]) then "" else OrEmpty(p.message)
  {
    var all := parts + [p];
    assert all[..|parts|] == parts && p in all && forall q :: q in parts ==> q in all;
  }

  lemma AllCallsMore(parts: seq<Part>, p: Part)
    ensures AllCalls(parts + [p]) == AllCalls(parts) + p.calls
  {
    assert (parts + [p])[..|parts|] == parts;
  }

  lemma {:induction false} CallFieldsAppend(a: seq<CallPart>, b: seq<CallPart>)
    ensures AllCallFields(a + b) == AllCallFields(a) + AllCallFields(b)
  {
    hide CallFields;
    if b == [] {
      assert a + b == a;
    } else {
      assert (a + b)[..|a + b| - 1] == a + b[..|b| - 1];
      CallFieldsAppend(a, b[..|b| - 1]);
    }
  }

  // ---- the tool calls ----------------------------------------------------------------------

  lemma CallReads(c: CallPart)
    ensures var f := CallFields(c);
            && DeltaOf(f) == Delta(c.index, f)
            && StrAt(f, "id") == c.id && StrAt(f, "type") == c.kind && ObjAt(f, "function") == Some(FunctionFields(c))
            && StrAt(FunctionFields(c), "name") == c.name && StrAt(FunctionFields(c), "arguments") == c.args
  {
    WholeNumber(c.index);
    hide Truncate;
  }

  lemma OfIndexMore(calls: seq<CallPart>, c: CallPart, k: int)
    ensures OfIndex(calls + [c], k) == if c.index == k then OfIndex(calls, k) + [c] else OfIndex(calls, k)
  {
    assert (calls + [c])[..|calls|] == calls;
  }

  lemma {:induction false} IndexedReads(calls: seq<CallPart>, k: int)
    ensures ForIndex(Deltas(AllCallFields(calls)), k) == AllCallFields(OfIndex(calls, k))
    ensures IndexSeen(Deltas(AllCallFields(calls)), k) <==> exists c :: c in calls && c.index == k
  {
    if calls == [] {
      NothingSeen(k);
    } else {
      hide *;
      var init, c := calls[..|calls| - 1], calls[|calls| - 1];
      assert calls == init + [c];
      IndexedReads(init, k);
      CallReads(c);
      CallFieldsMore(init, c);
      DeltasMore(AllCallFields(init), CallFields(c));
      SeenMore(Deltas(AllCallFields(init)), DeltaOf(CallFields(c)), k);
      OfIndexMore(init, c, k);
      CallFieldsMore(OfIndex(init, k), c);
      SomeMore(init, c, k);
    }
  }

  lemma SomeMore(calls: seq<CallPart>, c: CallPart, k: int)
    ensures (exists x :: x in calls + [c] && x.index == k) <==> (exists x :: x in calls && x.index == k) || c.index == k
  {
    assert c in calls + [c];
    assert forall x :: x in calls ==> x in calls + [c];
  }

  lemma CallFieldsMore(calls: seq<CallPart>, c: CallPart)
    ensures AllCallFields(calls + [c]) == AllCallFields(calls) + [CallFields(c)]
  {
    hide CallFields;
    assert (calls + [c])[..|calls|] == calls;
  }

  lemma NothingSeen(k: int)
    ensures !IndexSeen(Deltas([]), k) && ForIndex(Deltas([]), k) == []
  {
  }

  lemma SeenMore(ds: seq<Delta>, d: Delta, k: int)
    ensures IndexSeen(ds + [d], k) <==> IndexSeen(ds, k) || d.index == k
  {
    var all := ds + [d];
    assert all[|ds|] == d && forall i :: 0 <= i < |ds| ==> all[i] == ds[i];
  }

  lemma EachCallMore(calls: seq<CallPart>, c: CallPart, f: CallPart -> string)
    ensures EachCall(calls + [c], f) == EachCall(calls, f) + [f(c)]
  {
  }

  lemma {:induction false} MergedReads(k: int, own: seq<CallPart>)
    ensures var m, w := Merged(k, AllCallFields(own)), WholeCall(k, own);
            if own == [] then m == w.(fn := None) && w.fn == Some(Function("", "")) else m == w
  {
    if own == [] {
      assert EachCall(own, (c: CallPart) => c.id) == [];
    } else {
      hide Merged, LastOf, EachCall, Concat, CallFields, FunctionFields, AllCallFields;
      var init, c := own[..|own| - 1], own[|own| - 1];
      assert init + [c] == own;
      MergedReads(k, init);
      CallFieldsMore(init, c);
      MergedMore(k, AllCallFields(init), CallFields(c));
      CallReads(c);
      EachCallMore(init, c, (c: CallPart) => c.id);
      EachCallMore(init, c, (c: CallPart) => c.kind);
      EachCallMore(init, c, (c: CallPart) => c.name);
      EachCallMore(init, c, (c: CallPart) => c.args);
      LastOfMore(EachCall(init, (c: CallPart) => c.id), c.id);
      LastOfMore(EachCall(init, (c: CallPart) => c.kind), c.kind);
      LastOfMore(EachCall(init, (c: CallPart) => c.name), c.name);
      ConcatMore(EachCall(init, (c: CallPart) => c.args), c.args);
    }
  }

  lemma CallsRead(sent: seq<CallPart>, listed: Option<seq<ToolCall>>)
    requires match listed
             case None => AllCallFields(sent) == []
             case Some(calls) => AllCallFields(sent) != [] && IsToolCalls(Deltas(AllCallFields(sent)), calls)
    ensures ListsCalls(sent, listed)
  {
    hide Merged, ForIndex, Deltas, OfIndex, WholeCall, IndexSeen, CallFields, Ascending;
    assert AllCallFields(sent) == [] <==> sent == [];
    if listed.Some? {
      var calls := listed.value;
      AscendingIndices(Deltas(AllCallFields(sent)), calls);
      forall c | c in sent
        ensures exists i :: 0 <= i < |calls| && calls[i].index == c.index
      {
        IndexedReads(sent, c.index);
      }
      forall i | 0 <= i < |calls|
        ensures exists c :: c in sent && c.index == calls[i].index
        ensures calls[i] == WholeCall(calls[i].index, OfIndex(sent, calls[i].index))
      {
        OneCallReads(sent, calls[i].index);
      }
    }
  }

  lemma OneCallReads(sent: seq<CallPart>, k: int)
    ensures IndexSeen(Deltas(AllCallFields(sent)), k) <==> exists c :: c in sent && c.index == k
    ensures IndexSeen(Deltas(AllCallFields(sent)), k) ==>
              Merged(k, ForIndex(Deltas(AllCallFields(sent)), k)) == WholeCall(k, OfIndex(sent, k))
  {
    hide *;
    IndexedReads(sent, k);
    MergedReads(k, OfIndex(sent, k));
    SomeOfIndex(sent, k);
  }

  lemma AscendingIndices(ds: seq<Delta>, calls: seq<ToolCall>)
    requires IsToolCalls(ds, calls)
    ensures forall i, j :: 0 <= i < j < |calls| ==> calls[i].index < calls[j].index
  {
    hide Merged, ForIndex, IndexSeen;
    var s := seq(|calls|, i requires 0 <= i < |calls| => calls[i].index);
    assert Ascending(s);
    assert forall i :: 0 <= i < |calls| ==> s[i] == calls[i].index;
  }

  lemma {:induction false} SomeOfIndex(calls: seq<CallPart>, k: int)
    ensures OfIndex(calls, k) != [] <==> exists c :: c in calls && c.index == k
  {
    if calls != [] {
      SomeOfIndex(calls[..|calls| - 1], k);
      assert calls == calls[..|calls| - 1] + [calls[|calls| - 1]];
    }
  }

  // ---- sending is undone by aggregating --------------------------------------------------------

  /** Whatever is sent, part by part and with anything but objects in between, the response is what it amounts to. */
  lemma SentIsReceived(junk: seq<Json>, parts: seq<Part>, freshId: string, now: int, r: Response)
    requires NoObjects(junk) && IsResponse(Chunks(junk, parts), freshId, now, r)
    ensures IsWhole(parts, freshId, now, r)
  {
    hide FirstStr, LastStr, ConcatStr, Sub, Content, Created, Truncate, Choices, Calls, Chunks, AllChoices,
      AllCallFields, IsToolCalls, Deltas, NoObjects, FirstOf, LastOf, Concat, Each, ListsCalls, LastObject, CreatedOf;
    IdsRead(junk, parts);
    TimesRead(junk, parts, now);
    ChoicesRead(junk, parts);
    CallsRead(AllCalls(parts), r.toolCalls);
  }

  // ---- on the wire -----------------------------------------------------------------------

  /** A payload on its line, with or without spaces before it, and an empty line after it. */
  function Framed(pad: string, text: string, cr: string): string {
    "data:" + pad + text + cr + ['\n'] + (cr + ['\n'])
  }

  function Wire(texts: seq<string>, pad: string, cr: string): string
  {
    if texts == [] then "" else Wire(texts[..|texts| - 1], pad, cr) + Framed(pad, texts[|texts| - 1], cr)
  }

  /** Spaces, and an optional carriage return. */
  predicate Framing(pad: string, cr: string) {
    (forall i :: 0 <= i < |pad| ==> pad[i] == ' ') && (cr == "" || cr == "\r")
  }

  /** A text on one line that starts and ends with visible ASCII characters, as JSON objects do. */
  predicate OneLine(text: string) {
    text != "" && Visible(text[0]) && Visible(text[|text| - 1]) && Free(text, '\n')
  }

  lemma {:induction false} PadIsTrimmed(pad: string, text: string)
    requires OneLine(text) && Framing(pad, "")
    ensures TrimSpace(pad + text) == text
  {
    hide TrimRight;
    NoSpaceAtEnds(text);
    if pad == "" {
      assert pad + text == text;
      TrimIdentity(text);
    } else {
      assert (pad + text)[0] == ' ' && (pad + text)[1..] == pad[1..] + text;
      assert LeadingSpace(pad + text) == 1;
      PadIsTrimmed(pad[1..], text);
    }
  }

  lemma PayloadReads(pad: string, text: string, cr: string)
    requires OneLine(text) && Framing(pad, cr)
    ensures PayloadOf("data:" + pad + text + cr) == Some(text) && Free("data:" + pad + text + cr, '\n')
    ensures PayloadOf(cr) == None && Free(cr, '\n')
  {
    hide TrimSpace, TrimCrLf;
    var line := "data:" + pad + text;
    assert line[|line| - 1] == text[|text| - 1];
    CrIsTrimmed(line, cr);
    assert "data:" <= line && line[5..] == pad + text;
    PadIsTrimmed(pad, text);
    LineIsFree(pad, text, cr);
    CrIsTrimmed("", cr);
    assert "" + cr == cr;
  }

  lemma LineIsFree(pad: string, text: string, cr: string)
    requires OneLine(text) && Framing(pad, cr)
    ensures Free("data:" + pad + text + cr, '\n') && Free(cr, '\n')
  {
    var line := "data:" + pad + text + cr;
    forall i | 0 <= i < |line|
      ensures line[i] != '\n'
    {
      if 5 <= i < 5 + |pad| {
        assert line[i] == pad[i - 5];
      } else if 5 + |pad| <= i < 5 + |pad| + |text| {
        assert line[i] == text[i - 5 - |pad|];
      }
    }
  }

  lemma CrIsTrimmed(line: string, cr: string)
    requires cr == "" || cr == "\r"
    requires line == "" || Visible(line[|line| - 1])
    ensures TrimCrLf(line + cr) == line
  {
    if cr == "" {
      assert line + cr == line;
    } else {
      assert (line + cr)[..|line|] == line;
    }
  }

  lemma FramedLines(before: string, pad: string, text: string, cr: string)
    requires OneLine(text) && Framing(pad, cr) && Lines.Tail(before) == ""
    ensures Lines.Complete(before + Framed(pad, text, cr)) == Lines.Complete(before) + ["data:" + pad + text + cr, cr]
    ensures Lines.Tail(before + Framed(pad, text, cr)) == ""
  {
    hide PayloadOf, OneLine, Framing, Lines.Complete, Lines.Tail;
    PayloadReads(pad, text, cr);
    var line := "data:" + pad + text + cr;
    Lines.CompleteAppend(before, Framed(pad, text, cr));
    assert "" + Framed(pad, text, cr) == Framed(pad, text, cr) == line + ['\n'] + (cr + ['\n']);
    Lines.CompleteOne(line, cr + ['\n']);
    assert cr + ['\n'] == cr + ['\n'] + "";
    Lines.CompleteOne(cr, "");
    NoLines();
    assert [line] + ([cr] + []) == [line, cr];
  }

  lemma NoLines()
    ensures Lines.Complete("") == [] && Lines.Tail("") == ""
  {
  }

  lemma FramedChunks(before: string, pad: string, text: string, cr: string, parse: string -> Option<Fields>)
    requires OneLine(text) && Framing(pad, cr) && Lines.Tail(before) == ""
    ensures ChunksOn(Lines.Complete(before + Framed(pad, text, cr)), parse)
         == ChunksOn(Lines.Complete(before), parse)
            + if text == DONE then [] else match parse(text) case None => [] case Some(o) => [o]
  {
    hide OneLine, Framing, Lines.Complete, Lines.Tail, ChunksOn, PayloadOf, Framed;
    PayloadReads(pad, text, cr);
    FramedLines(before, pad, text, cr);
    var line, lines := "data:" + pad + text + cr, Lines.Complete(before);
    assert lines + [line, cr] == lines + [line] + [cr];
    ChunksOnAppend(lines + [line], [cr], parse);
    ChunksOnAppend(lines, [line], parse);
    OneLineChunks(line, parse);
    OneLineChunks(cr, parse);
  }

  /** The texts of the parts, as some encoder writes them. */
  ghost predicate Encodes(texts: seq<string>, junk: seq<Json>, parts: seq<Part>, parse: string -> Option<Fields>) {
    |texts| == |parts| && forall i :: 0 <= i < |texts| ==>
      OneLine(texts[i]) && texts[i] != DONE && parse(texts[i]) == Some(ChunkFields(junk, parts[i]))
  }

  lemma {:induction false} WireReads(texts: seq<string>, junk: seq<Json>, parts: seq<Part>, pad: string, cr: string,
                                     parse: string -> Option<Fields>)
    requires Framing(pad, cr) && Encodes(texts, junk, parts, parse)
    ensures ChunksOn(Lines.Complete(Wire(texts, pad, cr)), parse) == Chunks(junk, parts)
    ensures Lines.Tail(Wire(texts, pad, cr)) == ""
  {
    NoLines();
    if texts != [] {
      hide OneLine, Framing, Lines.Complete, Lines.Tail, ChunksOn, Framed, ChunkFields;
      var n := |texts| - 1;
      WireReads(texts[..n], junk, parts[..n], pad, cr, parse);
      FramedChunks(Wire(texts[..n], pad, cr), pad, texts[n], cr, parse);
      FramedLines(Wire(texts[..n], pad, cr), pad, texts[n], cr);
    }
  }

  /** A stream of parts that ends with [DONE]. */
  function Sent(texts: seq<string>, pad: string, cr: string): string {
    Wire(texts, pad, cr) + Framed(pad, DONE, cr)
  }

  lemma SentReads(texts: seq<string>, junk: seq<Json>, parts: seq<Part>, pad: string, cr: string,
                  parse: string -> Option<Fields>)
    requires Framing(pad, cr) && Encodes(texts, junk, parts, parse)
    ensures ChunksOf(Sent(texts, pad, cr), parse) == Chunks(junk, parts)
    ensures Stream.HasDone(Sent(texts, pad, cr))
  {
    hide OneLine, Framing, Encodes, Lines.Complete, Lines.Tail, ChunksOn, ChunksOf, Wire, Framed, ChunkFields, Chunks;
    hide PayloadOf;
    WireReads(texts, junk, parts, pad, cr, parse);
    DoneIsOneLine();
    FramedChunks(Wire(texts, pad, cr), pad, DONE, cr, parse);
    FramedLines(Wire(texts, pad, cr), pad, DONE, cr);
    PayloadReads(pad, DONE, cr);
    var data, n := Sent(texts, pad, cr), |Lines.Complete(Wire(texts, pad, cr))|;
    Stream.ChunksOfIs(data, parse);
    ChunksOnAppend(Lines.Complete(data), [""], parse);
    OneLineChunks("", parse);
    Stream.EmptyLineCarriesNoChunk(parse);
    assert Stream.LinesOf(data)[n] == "data:" + pad + DONE + cr;
  }

  lemma DoneIsOneLine()
    ensures OneLine(DONE)
  {
  }

  /** Parts encoded by any encoder that the decoder undoes, and sent line by line with or without spaces after "data:"
      and with either line ending, are received as what they amount to, and forwarded unchanged. */
  lemma WireIsReceived(texts: seq<string>, junk: seq<Json>, parts: seq<Part>, pad: string, cr: string,
                       parse: string -> Option<Fields>, freshId: string, now: int, r: Response)
    requires NoObjects(junk) && Framing(pad, cr) && Encodes(texts, junk, parts, parse)
    requires IsResponse(ChunksOf(Sent(texts, pad, cr), parse), freshId, now, r)
    ensures IsWhole(parts, freshId, now, r)
    ensures Stream.Streamed(Sent(texts, pad, cr)) == Sent(texts, pad, cr)
  {
    hide *;
    SentReads(texts, junk, parts, pad, cr, parse);
    SentIsReceived(junk, parts, freshId, now, r);
    Stream.StreamedIs(Sent(texts, pad, cr));
  }
}
