/** Streamed tool calls: deltas merged by index. */
module ToolCalls {
  import opened Options
  import opened Json
  import opened Folds

  /** An accumulated call. Absent keys are empty strings; the function object may be absent. */
  datatype Function = Function(name: string, arguments: string)
  datatype ToolCall = ToolCall(index: int, id: string, kind: string, fn: Option<Function>)

  datatype Delta = Delta(index: int, fields: Fields)

  function DeltaOf(call: Fields): Delta {
    var n := NumAt(call, "index");
    Delta(if n.Some? then Truncate(n.value) else 0, call)
  }

  // ---- what the deltas of one index amount to ------------------------------

  /** The deltas of one index, in order. */
  function ForIndex(ds: seq<Delta>, k: int): seq<Fields>
  {
    if ds == [] then []
    else ForIndex(ds[..|ds| - 1], k) + if ds[|ds| - 1].index == k then [ds[|ds| - 1].fields] else []
  }

  /** Id, type and name are the last non-empty ones; the arguments are concatenated. */
  function Merged(k: int, ds: seq<Fields>): ToolCall {
    var fns := Sub(ds, "function");
    ToolCall(k, LastStr(ds, "id"), LastStr(ds, "type"),
             if fns == [] then None else Some(Function(LastStr(fns, "name"), ConcatStr(fns, "arguments"))))
  }

  ghost predicate IndexSeen(ds: seq<Delta>, k: int) {
    exists i :: 0 <= i < |ds| && ds[i].index == k
  }

  /** The calls a list of deltas amounts to: one per index seen, in ascending order. */
  ghost predicate IsToolCalls(ds: seq<Delta>, calls: seq<ToolCall>) {
    && Ascending(seq(|calls|, i requires 0 <= i < |calls| => calls[i].index))
    && (forall k :: IndexSeen(ds, k) <==> exists i :: 0 <= i < |calls| && calls[i].index == k)
    && (forall i :: 0 <= i < |calls| ==> calls[i] == Merged(calls[i].index, ForIndex(ds, calls[i].index)))
  }

  // ---- one accumulated call -----------------------------------------------------

  /** mergeToolCallDelta: the accumulated call, updated with one more delta. */
  method MergeToolCallDelta(call: ToolCall, delta: Fields, ghost before: seq<Fields>) returns (merged: ToolCall)
    requires call == Merged(call.index, before)
    ensures merged == Merged(call.index, before + [delta])
  {
    MergedMore(call.index, before, delta);
    hide Merged;
    merged := call;
    if HasStr(delta, "id") && StrAt(delta, "id") != "" {
      merged := merged.(id := StrAt(delta, "id"));
    }
    if HasStr(delta, "type") && StrAt(delta, "type") != "" {
      merged := merged.(kind := StrAt(delta, "type"));
    }
    var df := ObjAt(delta, "function");
    if df.None? {
      return;
    }
    var mf := if merged.fn.Some? then merged.fn.value else Function("", "");
    if HasStr(df.value, "name") && StrAt(df.value, "name") != "" {
      mf := mf.(name := StrAt(df.value, "name"));
    }
    assert mf.arguments + "" == mf.arguments;
    if HasStr(df.value, "arguments") && StrAt(df.value, "arguments") != "" {
      mf := mf.(arguments := mf.arguments + StrAt(df.value, "arguments"));
    }
    merged := merged.(fn := Some(mf));
  }

  function Extended(g: Function, f: Fields): Function {
    Function(Later(g.name, StrAt(f, "name")), g.arguments + StrAt(f, "arguments"))
  }

  /** One more delta overwrites what it carries and extends the arguments. */
  lemma MergedMore(k: int, ds: seq<Fields>, d: Fields)
    ensures var m := Merged(k, ds);
            Merged(k, ds + [d]) ==
              ToolCall(k, Later(m.id, StrAt(d, "id")), Later(m.kind, StrAt(d, "type")),
                       match ObjAt(d, "function")
                       case None => m.fn
                       case Some(f) => Some(Extended(if m.fn.Some? then m.fn.value else Function("", ""), f)))
  {
    assert (ds + [d])[..|ds|] == ds;
    match ObjAt(d, "function") {
      case None =>
        assert Sub(ds, "function") + [] == Sub(ds, "function");
      case Some(f) =>
        assert (Sub(ds, "function") + [f])[..|Sub(ds, "function")|] == Sub(ds, "function");
    }
  }

  // ---- independence of the indices --------------------------------------------

  lemma {:induction false} SeenIsNonEmpty(ds: seq<Delta>, k: int)
    ensures IndexSeen(ds, k) <==> ForIndex(ds, k) != []
  {
    if ds != [] {
      var n := |ds| - 1;
      SeenIsNonEmpty(ds[..n], k);
      if IndexSeen(ds[..n], k) {
        var i :| 0 <= i < n && ds[..n][i].index == k;
        assert ds[i].index == k;
      }
      assert forall i :: 0 <= i < n ==> ds[..n][i] == ds[i];
    }
  }

  lemma {:induction false} ForIndexAppend(a: seq<Delta>, b: seq<Delta>, k: int)
    ensures ForIndex(a + b, k) == ForIndex(a, k) + ForIndex(b, k)
  {
    if b == [] {
      assert a + b == a;
    } else {
      assert (a + b)[..|a + b| - 1] == a + b[..|b| - 1];
      ForIndexAppend(a, b[..|b| - 1], k);
    }
  }

  /** Each call depends only on the deltas of its own index, so the list is determined by them. */
  lemma CallsDependOnOwnDeltas(ds: seq<Delta>, calls: seq<ToolCall>, ds': seq<Delta>, calls': seq<ToolCall>)
    requires IsToolCalls(ds, calls) && IsToolCalls(ds', calls')
    requires forall k :: ForIndex(ds, k) == ForIndex(ds', k)
    ensures calls == calls'
  {
    var s := seq(|calls|, i requires 0 <= i < |calls| => calls[i].index);
    var s' := seq(|calls'|, i requires 0 <= i < |calls'| => calls'[i].index);
    forall k
      ensures k in s <==> k in s'
    {
      SeenIsNonEmpty(ds, k);
      SeenIsNonEmpty(ds', k);
      IndexListed(calls, k);
      IndexListed(calls', k);
    }
    AscendingIsUnique(s, s');
    assert forall i :: 0 <= i < |calls| ==> calls[i].index == s[i] == s'[i] == calls'[i].index;
  }

  lemma IndexListed(calls: seq<ToolCall>, k: int)
    ensures k in seq(|calls|, i requires 0 <= i < |calls| => calls[i].index)
            <==> exists i :: 0 <= i < |calls| && calls[i].index == k
  {
    var s := seq(|calls|, i requires 0 <= i < |calls| => calls[i].index);
    assert forall i :: 0 <= i < |calls| ==> s[i] == calls[i].index;
  }

  /** Neighbouring deltas of different indices may change places. */
  lemma DifferentIndicesCommute(a: seq<Delta>, x: Delta, y: Delta, b: seq<Delta>,
                                calls: seq<ToolCall>, calls': seq<ToolCall>)
    requires x.index != y.index
    requires IsToolCalls(a + [x, y] + b, calls) && IsToolCalls(a + [y, x] + b, calls')
    ensures calls == calls'
  {
    forall k
      ensures ForIndex(a + [x, y] + b, k) == ForIndex(a + [y, x] + b, k)
    {
      SwapKeepsForIndex(a, x, y, b, k);
    }
    hide *;
    CallsDependOnOwnDeltas(a + [x, y] + b, calls, a + [y, x] + b, calls');
  }

  lemma SwapKeepsForIndex(a: seq<Delta>, x: Delta, y: Delta, b: seq<Delta>, k: int)
    requires x.index != y.index
    ensures ForIndex(a + [x, y] + b, k) == ForIndex(a + [y, x] + b, k)
  {
    ForIndexOfTwo(x, y, k);
    ForIndexOfTwo(y, x, k);
    hide ForIndex;
    ForIndexAppend(a + [x, y], b, k);
    ForIndexAppend(a + [y, x], b, k);
    ForIndexAppend(a, [x, y], k);
    ForIndexAppend(a, [y, x], k);
    assert ForIndex([x, y], k) == ForIndex([y, x], k);
  }

  lemma ForIndexOfTwo(x: Delta, y: Delta, k: int)
    ensures ForIndex([x, y], k) == (if x.index == k then [x.fields] else []) + if y.index == k then [y.fields] else []
  {
    assert [x, y][..1] == [x] && [x][..0] == [];
    assert ForIndex([], k) == [];
    assert ForIndex([x], k) == if x.index == k then [x.fields] else [];
  }
}
