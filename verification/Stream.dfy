/** internal/upstream/sse.go, Stream: forwarding a stream with a terminator, and what that does to it. */
module Stream {
  import opened Options
  import opened Text
  import opened Lines
  import opened Json
  import opened Folds
  import opened ToolCalls
  import opened Sse

  const MARK := "data: [DONE]"

  function LinesOf(data: string): seq<string> {
    Complete(data) + [Tail(data)]
  }

  predicate AnyDone(lines: seq<string>) {
    exists i :: 0 <= i < |lines| && IsDone(lines[i])
  }

  predicate HasDone(data: string) {
    AnyDone(LinesOf(data))
  }

  /** What the client receives. */
  function Streamed(data: string): string {
    if HasDone(data) then data else data + MARK + "\n\n"
  }

  /** The receiving end: which writes succeed, and how much of a failing one still arrives. */
  datatype Client = Client(accepts: nat -> bool, partial: nat -> nat)

  function Arrives(c: Client, k: nat, text: string): (r: string)
    ensures r <= text
    ensures c.accepts(k) ==> r == text
    ensures !c.accepts(k) ==> |r| == if c.partial(k) < |text| then c.partial(k) else |text|
  {
    if c.accepts(k) || c.partial(k) >= |text| then text else text[..c.partial(k)]
  }

  ghost predicate AcceptsAll(c: Client) {
    forall k :: c.accepts(k)
  }

  /** What a client that accepts everything receives of a stream that is read to its end or breaks off. */
  function Wanted(data: string, failed: bool): string {
    if failed then data else Streamed(data)
  }

  // ---- the writes, in order --------------------------------------------------

  /** The lines of a stream, each with its newline, and what follows the last of them. */
  function Pieces(data: string): seq<string>
    decreases |data|
  {
    var i := IndexByte(data, '\n');
    if data == "" then [] else if i < 0 then [data] else [data[..i + 1]] + Pieces(data[i + 1..])
  }

  /** The writes of a stream that is read to its end or breaks off. */
  function Writes(data: string, failed: bool): seq<string> {
    Pieces(data) + if failed || HasDone(data) then [] else [MARK + "\n\n"]
  }

  /** The first of n writes that the client refuses; n if it accepts them all. */
  function FirstRefused(c: Client, n: nat): (k: nat)
    ensures k <= n && (k < n ==> !c.accepts(k)) && forall j: nat :: j < k ==> c.accepts(j)
  {
    if n == 0 then 0
    else
      var k := FirstRefused(c, n - 1);
      if k < n - 1 || !c.accepts(n - 1) then k else n
  }

  /** What the client receives of these writes: those before the first refused one, and what arrives of that. */
  function Received(c: Client, ws: seq<string>): string {
    var k := FirstRefused(c, |ws|);
    Concat(ws[..k]) + if k < |ws| then Arrives(c, k, ws[k]) else ""
  }

  /** The pieces are the stream. */
  lemma {:induction false} PiecesJoin(data: string)
    ensures Concat(Pieces(data)) == data
    decreases |data|
  {
    hide Pieces, IndexByte, Concat;
    FirstPiece(data);
    NothingJoined();
    if data != "" {
      var n := FirstLength(data);
      ConcatMore([], data[..n]);
      assert [] + [data[..n]] == [data[..n]];
      PiecesJoin(data[n..]);
      ConcatAppend([data[..n]], Pieces(data[n..]));
      assert "" + data[..n] == data[..n] && data[..n] + data[n..] == data;
    }
  }

  /** The length of the first piece. */
  function FirstLength(data: string): (n: nat)
    ensures n <= |data| && (data != "" ==> n > 0)
  {
    var i := IndexByte(data, '\n');
    if i < 0 then |data| else i + 1
  }

  lemma FirstPiece(data: string)
    ensures Pieces("") == []
    ensures var n := FirstLength(data);
            data != "" ==> Pieces(data) == [data[..n]] + Pieces(data[n..]) && Pieces(data)[1..] == Pieces(data[n..])
  {
    hide IndexByte;
    var i := IndexByte(data, '\n');
    if i < 0 {
      assert data[..|data|] == data && data[|data|..] == "";
    }
  }

  lemma WritesJoin(data: string, failed: bool)
    ensures Concat(Writes(data, failed)) == Wanted(data, failed)
  {
    PiecesJoin(data);
    StreamedIs(data);
    hide HasDone, Pieces, Concat, Streamed;
    if failed || HasDone(data) {
      assert Pieces(data) + [] == Pieces(data);
    } else {
      ConcatMore(Pieces(data), MARK + "\n\n");
      assert data + MARK + "\n\n" == data + (MARK + "\n\n");
    }
  }

  /** A client receives a beginning of what it should, and all of it if it accepts every write. */
  lemma ReceivedWithin(c: Client, data: string, failed: bool)
    ensures Received(c, Writes(data, failed)) <= Wanted(data, failed)
    ensures FirstRefused(c, |Writes(data, failed)|) == |Writes(data, failed)| ==>
              Received(c, Writes(data, failed)) == Wanted(data, failed)
  {
    hide FirstRefused, Arrives, Writes, Concat, Wanted;
    var ws := Writes(data, failed);
    var k := FirstRefused(c, |ws|);
    WritesJoin(data, failed);
    if k < |ws| {
      ConcatAppend(ws[..k + 1], ws[k + 1..]);
      ConcatMore(ws[..k], ws[k]);
      assert ws[..k + 1] == ws[..k] + [ws[k]] && ws == ws[..k + 1] + ws[k + 1..];
      PrefixAppended(Concat(ws[..k]), Arrives(c, k, ws[k]), ws[k]);
      PrefixGrows(Concat(ws[..k]) + Arrives(c, k, ws[k]), Concat(ws[..k]) + ws[k], Concat(ws[k + 1..]));
    } else {
      assert ws[..k] == ws;
      assert Concat(ws) + "" == Concat(ws);
    }
  }

  /** Every line is written as it was read; the terminator follows only at the end of a stream without [DONE]. A write
      the client refuses ends it all. */
  method Forward(data: string, failed: bool, client: Client) returns (written: string, ok: bool)
    ensures written == Received(client, Writes(data, failed)) <= Wanted(data, failed)
    ensures ok <==> !failed && FirstRefused(client, |Writes(data, failed)|) == |Writes(data, failed)|
    ensures ok ==> written == Streamed(data)
    ensures AcceptsAll(client) ==> ok == !failed && written == Wanted(data, failed)
  {
    hide HasDone, Arrives, Received, Pieces, FirstRefused, Concat;
    ReceivedWithin(client, data, failed);
    var sawDone, k, broken;
    written, sawDone, k, broken := ForwardLines(data, client);
    if broken {
      assert Writes(data, failed)[..k] == Pieces(data)[..k] && Writes(data, failed)[k] == Pieces(data)[k];
      RefusedAt(client, Writes(data, failed), k);
      return written, false;
    }
    if failed || sawDone {
      assert Writes(data, failed) == Pieces(data);
      NoneRefused(client, Pieces(data));
      return written, !failed;
    }
    var mark := MARK + "\n\n";
    ok := client.accepts(k);
    written := written + Arrives(client, k, mark);
    MarkWritten(client, data, k);
  }

  lemma PrefixGrows(w: string, data: string, more: string)
    requires w <= data
    ensures w <= data + more
  {
  }

  lemma PrefixAppended(w: string, part: string, text: string)
    requires part <= text
    ensures w + part <= w + text
  {
  }

  lemma FirstRefusedIs(c: Client, n: nat, k: nat)
    requires k <= n && (k < n ==> !c.accepts(k)) && forall j: nat :: j < k ==> c.accepts(j)
    ensures FirstRefused(c, n) == k
  {
    hide FirstRefused;
  }

  lemma RefusedAt(c: Client, ws: seq<string>, k: nat)
    requires k < |ws| && !c.accepts(k) && forall j: nat :: j < k ==> c.accepts(j)
    ensures Received(c, ws) == Concat(ws[..k]) + Arrives(c, k, ws[k]) && FirstRefused(c, |ws|) == k
  {
    hide Arrives, Concat;
    FirstRefusedIs(c, |ws|, k);
  }

  lemma NoneRefused(c: Client, ws: seq<string>)
    requires forall j: nat :: j < |ws| ==> c.accepts(j)
    ensures Received(c, ws) == Concat(ws) && FirstRefused(c, |ws|) == |ws|
  {
    hide Concat, Arrives;
    FirstRefusedIs(c, |ws|, |ws|);
    assert ws[..|ws|] == ws && Concat(ws) + "" == Concat(ws);
  }

  lemma MarkWritten(c: Client, data: string, k: nat)
    requires !HasDone(data) && k == |Pieces(data)| && forall j: nat :: j < k ==> c.accepts(j)
    ensures Received(c, Writes(data, false)) == data + Arrives(c, k, MARK + "\n\n")
    ensures FirstRefused(c, |Writes(data, false)|) == if c.accepts(k) then k + 1 else k
    ensures |Writes(data, false)| == k + 1
  {
    hide HasDone, Pieces, Concat, Arrives, FirstRefused, Received;
    var ws, mark := Writes(data, false), MARK + "\n\n";
    assert ws == Pieces(data) + [mark] && ws[..k] == Pieces(data) && ws[k] == mark;
    PiecesJoin(data);
    if c.accepts(k) {
      NoneRefused(c, ws);
      ConcatMore(Pieces(data), mark);
    } else {
      RefusedAt(c, ws, k);
    }
  }

  /** The loop of Stream; k counts the writes the client accepted. */
  method ForwardLines(data: string, client: Client) returns (written: string, sawDone: bool, k: nat, broken: bool)
    ensures forall j: nat :: j < k ==> client.accepts(j)
    ensures !broken ==> written == data && sawDone == HasDone(data) && k == |Pieces(data)|
    ensures broken ==> k < |Pieces(data)| && !client.accepts(k)
    ensures broken ==> written == Concat(Pieces(data)[..k]) + Arrives(client, k, Pieces(data)[k])
  {
    hide HasDone, IsDone, IndexByte, Arrives, Concat, Pieces, FirstLength;
    written, sawDone, k, broken := "", false, 0, false;
    var rest, eof := data, false;
    NothingJoined();
    PiecesJoin(data);
    while !eof
      invariant forall j: nat :: j < k ==> client.accepts(j)
      invariant k <= |Pieces(data)| && Pieces(data)[k..] == Pieces(rest) && written == Concat(Pieces(data)[..k])
      invariant eof ==> rest == ""
      invariant HasDone(data) == (sawDone || (!eof && HasDone(rest)))
      decreases !eof, |rest|
    {
      FirstLineDone(rest);
      FirstPiece(rest);
      var i := IndexByte(rest, '\n');
      eof := i < 0;
      var n := if eof then |rest| else i + 1;
      FirstLengthIs(rest);
      var line := rest[..n];
      assert eof ==> line == rest;
      if line != "" {
        assert Pieces(data)[k] == Pieces(data)[k..][0] == line;
        sawDone := sawDone || IsDone(line);
        if !client.accepts(k) {
          written := written + Arrives(client, k, line);
          return written, sawDone, k, true;
        }
        NextPiece(Pieces(data), k);
        written := written + line;
        k := k + 1;
      }
      rest := rest[n..];
    }
    FirstPiece(rest);
    NothingLeft(Pieces(data), k);
  }

  lemma FirstLengthIs(data: string)
    ensures FirstLength(data) == if IndexByte(data, '\n') < 0 then |data| else IndexByte(data, '\n') + 1
  {
  }

  lemma NothingJoined()
    ensures Concat([]) == ""
  {
  }

  lemma NextPiece(ws: seq<string>, k: nat)
    requires k < |ws|
    ensures Concat(ws[..k + 1]) == Concat(ws[..k]) + ws[k]
    ensures ws[k + 1..] == ws[k..][1..]
  {
    assert ws[..k + 1] == ws[..k] + [ws[k]];
    ConcatMore(ws[..k], ws[k]);
    hide Concat;
  }

  lemma NothingLeft(ws: seq<string>, k: nat)
    requires k <= |ws| && ws[k..] == []
    ensures k == |ws| && ws[..k] == ws
  {
  }

  lemma StreamedIs(data: string)
    ensures Streamed(data) == if HasDone(data) then data else data + MARK + "\n\n"
  {
  }

  lemma AnyDoneAppend(a: seq<string>, b: seq<string>)
    ensures AnyDone(a + b) <==> AnyDone(a) || AnyDone(b)
  {
    hide IsDone;
    if AnyDone(a) {
      var i :| 0 <= i < |a| && IsDone(a[i]);
      assert (a + b)[i] == a[i];
    }
    if AnyDone(b) {
      var i :| 0 <= i < |b| && IsDone(b[i]);
      assert (a + b)[|a| + i] == b[i];
    }
  }

  lemma AnyDoneOne(l: string)
    ensures AnyDone([l]) <==> IsDone(l)
  {
    hide IsDone;
    assert [l][0] == l;
  }

  lemma NewlineIsTrimmed(l: string)
    ensures IsDone(l + ['\n']) == IsDone(l)
    ensures !IsDone("")
  {
    assert (l + ['\n'])[..|l|] == l;
    assert TrimCrLf(l + ['\n']) == TrimCrLf(l);
  }

  lemma FirstLineDone(rest: string)
    ensures var i := IndexByte(rest, '\n');
            HasDone(rest) <==> if i < 0 then rest != "" && IsDone(rest)
                               else IsDone(rest[..i + 1]) || HasDone(rest[i + 1..])
  {
    hide *;
    SplitAtIndex(rest);
    HasDoneIs(rest);
    var i := IndexByte(rest, '\n');
    if i < 0 {
      AnyDoneOne(rest);
      NewlineIsTrimmed("");
      assert [] + [rest] == [rest];
    } else {
      FirstOfLines(rest, i);
    }
  }

  lemma HasDoneIs(data: string)
    ensures HasDone(data) <==> AnyDone(Complete(data) + [Tail(data)])
  {
    hide AnyDone;
  }

  lemma FirstOfLines(rest: string, i: nat)
    requires i < |rest| && rest[i] == '\n'
    requires Complete(rest) == [rest[..i]] + Complete(rest[i + 1..]) && Tail(rest) == Tail(rest[i + 1..])
    ensures HasDone(rest) <==> IsDone(rest[..i + 1]) || HasDone(rest[i + 1..])
  {
    hide *;
    var l, more := rest[..i], rest[i + 1..];
    HasDoneIs(rest);
    HasDoneIs(more);
    assert rest[..i + 1] == l + ['\n'];
    NewlineIsTrimmed(l);
    AnyDoneOne(l);
    AnyDoneAppend([l], Complete(more) + [Tail(more)]);
    assert Complete(rest) + [Tail(rest)] == [l] + (Complete(more) + [Tail(more)]);
  }

  // ---- the terminator on its line -----------------------------------------------

  /** A stream without [DONE] gains two lines: its unfinished line with the mark glued on, and an empty one. */
  lemma StreamedLines(data: string)
    requires !HasDone(data)
    ensures Complete(Streamed(data)) == Complete(data) + [Tail(data) + MARK, ""]
    ensures Tail(Streamed(data)) == ""
  {
    hide *;
    var x := Tail(data) + MARK;
    StreamedIs(data);
    assert Streamed(data) == data + (MARK + "\n\n");
    CompleteAppend(data, MARK + "\n\n");
    assert Tail(data) + (MARK + "\n\n") == x + ['\n'] + ['\n'];
    MarkedIsOneLine(data);
    TwoLines(x);
  }

  lemma MarkedIsOneLine(data: string)
    ensures Free(Tail(data) + MARK, '\n')
  {
    LinesHoldNoNewline(data);
    hide Tail;
  }

  lemma TwoLines(x: string)
    requires Free(x, '\n')
    ensures Complete(x + ['\n'] + ['\n']) == [x, ""]
    ensures Tail(x + ['\n'] + ['\n']) == ""
  {
    CompleteOne(x, ['\n']);
    assert ['\n'] == "" + ['\n'] + "";
    CompleteOne("", "");
  }

  lemma MarkIsDone()
    ensures IsDone(MARK)
  {
    assert TrimCrLf(MARK) == MARK;
    assert MARK[5..] == " [DONE]";
    assert " [DONE]"[1..] == DONE;
    NoSpaceAtEnds(DONE);
    assert LeadingSpace(" [DONE]") == 1;
    assert TrimLeft(" [DONE]") == TrimLeft(DONE);
  }

  /** Glued to the end of another line, the mark is lost: the line does not read as [DONE]. */
  lemma GluedMarkIsNotDone(x: string)
    requires x != ""
    ensures !IsDone(x + MARK)
  {
    var t := x + MARK;
    assert t[|t| - 1] == ']';
    assert TrimCrLf(t) == t;
    if "data:" <= t {
      LongEnough(x);
      assert t[5..] == x[5..] + MARK;
      assert t[5..][|x| - 5] == 'd';
      TrimKeepsVisible(t[5..], 'd');
    }
  }

  lemma LongEnough(x: string)
    requires x != "" && "data:" <= x + MARK
    ensures |x| >= 5
  {
    var t := x + MARK;
    assert t[|x|] == 'd';
    assert forall i :: 0 <= i < 5 ==> t[i] == "data:"[i];
  }

  // ---- what forwarding promises, and exactly when -----------------------------------

  lemma StreamedDone(data: string)
    requires !HasDone(data)
    ensures HasDone(Streamed(data)) <==> IsDone(Tail(data) + MARK)
  {
    StreamedLines(data);
    hide Streamed, IsDone, Complete, Tail, AnyDone;
    var x := Tail(data) + MARK;
    AnyDoneAppend(Complete(data), [Tail(data)]);
    AnyDoneAppend(Complete(data) + [x, ""], [""]);
    AnyDoneAppend(Complete(data), [x, ""]);
    AnyDoneAppend([x], [""]);
    AnyDoneOne(x);
    AnyDoneOne("");
    NewlineIsTrimmed("");
    assert [x] + [""] == [x, ""];
  }

  /** The client sees a [DONE] line exactly when the upstream sent one or ended its last line. */
  lemma DoneGuaranteedWhenTerminated(data: string)
    ensures HasDone(Streamed(data)) <==> HasDone(data) || Terminated(data)
  {
    if !HasDone(data) {
      StreamedDone(data);
      TerminatedIsNoTail(data);
      hide HasDone;
      if Terminated(data) {
        assert Tail(data) + MARK == MARK;
        MarkIsDone();
      } else {
        GluedMarkIsNotDone(Tail(data));
      }
    } else {
      StreamedIs(data);
    }
  }

  /** Forwarding twice is forwarding once, exactly in the same cases. */
  lemma ForwardingIsIdempotent(data: string)
    ensures Streamed(Streamed(data)) == Streamed(data) <==> HasDone(data) || Terminated(data)
  {
    DoneGuaranteedWhenTerminated(data);
    StreamedIs(data);
    StreamedIs(Streamed(data));
    hide *;
    assert |Streamed(data) + MARK + "\n\n"| > |Streamed(data)|;
  }

  /** JSON texts that end in ']' are arrays, which do not decode into an object. */
  ghost predicate RejectsArrays(parse: string -> Option<Fields>) {
    forall p: string :: p != "" && p[|p| - 1] == ']' ==> parse(p) == None
  }

  lemma {:induction false} TrimLeftKeepsEnd(s: string)
    requires s != "" && Visible(s[|s| - 1])
    ensures TrimLeft(s) != "" && TrimLeft(s)[|TrimLeft(s)| - 1] == s[|s| - 1]
    decreases |s|
  {
    var w := LeadingSpace(s);
    if w > 0 {
      TrimLeftKeepsEnd(s[w..]);
    }
  }

  lemma MarkCarriesNoChunk(x: string, parse: string -> Option<Fields>)
    requires RejectsArrays(parse)
    ensures ChunkOn(x + MARK, parse) == []
  {
    var t := x + MARK;
    assert t[|t| - 1] == ']';
    assert TrimCrLf(t) == t;
    if "data:" <= t {
      if x == "" {
        assert t == MARK;
        MarkIsDone();
      } else {
        LongEnough(x);
        assert t[5..][|t| - 6] == ']';
        TrimLeftKeepsEnd(t[5..]);
        NoSpaceAtEnds(TrimLeft(t[5..]));
        hide TrimLeft, ChunkOn;
        assert TrimSpace(t[5..]) == TrimLeft(t[5..]);
        PayloadRejected(t, parse);
      }
    }
  }

  lemma PayloadRejected(line: string, parse: string -> Option<Fields>)
    requires PayloadOf(line).Some? && parse(PayloadOf(line).value) == None
    ensures ChunkOn(line, parse) == []
  {
  }

  lemma StreamedChunks(data: string, parse: string -> Option<Fields>)
    requires !HasDone(data) && RejectsArrays(parse)
    ensures ChunksOf(Streamed(data), parse) == ChunksOn(Complete(data), parse)
    ensures ChunksOf(data, parse) == ChunksOn(Complete(data), parse) + ChunkOn(Tail(data), parse)
  {
    hide *;
    ChunksOfIs(data, parse);
    ChunksOfIs(Streamed(data), parse);
    StreamedLines(data);
    var c, x := Complete(data), Tail(data) + MARK;
    ChunksOnAppend(c, [Tail(data)], parse);
    OneLineChunks(Tail(data), parse);
    assert c + [x, ""] + [""] == c + [x] + ["", ""];
    EmptyLinesAdded(c + [x], parse);
    ChunksOnAppend(c, [x], parse);
    OneLineChunks(x, parse);
    MarkCarriesNoChunk(Tail(data), parse);
  }

  lemma ChunksOfIs(data: string, parse: string -> Option<Fields>)
    ensures ChunksOf(data, parse) == ChunksOn(Complete(data) + [Tail(data)], parse)
  {
  }

  lemma EmptyLinesAdded(lines: seq<string>, parse: string -> Option<Fields>)
    ensures ChunksOn(lines + ["", ""], parse) == ChunksOn(lines, parse)
  {
    hide *;
    assert lines + ["", ""] == lines + [""] + [""];
    ChunksOnAppend(lines + [""], [""], parse);
    ChunksOnAppend(lines, [""], parse);
    OneLineChunks("", parse);
    EmptyLineCarriesNoChunk(parse);
  }

  lemma EmptyLineCarriesNoChunk(parse: string -> Option<Fields>)
    ensures ChunkOn("", parse) == []
  {
  }

  /** Forwarding keeps the chunks, and so everything Aggregate reads, exactly when there was a [DONE] line or the
      unfinished last line carries no chunk; in particular for every stream that ends its last line. */
  lemma ForwardingKeepsChunks(data: string, parse: string -> Option<Fields>)
    requires RejectsArrays(parse)
    ensures ChunksOf(Streamed(data), parse) == ChunksOf(data, parse)
            <==> HasDone(data) || ChunkOn(Tail(data), parse) == []
    ensures Terminated(data) ==> ChunksOf(Streamed(data), parse) == ChunksOf(data, parse)
  {
    if HasDone(data) {
      StreamedIs(data);
    } else {
      StreamedChunks(data, parse);
      TerminatedIsNoTail(data);
      EmptyLineCarriesNoChunk(parse);
      hide *;
      var c, last := ChunksOn(Complete(data), parse), ChunkOn(Tail(data), parse);
      assert |c + last| == |c| + |last|;
      assert last == [] ==> c + last == c;
    }
  }

  /** Aggregating what was forwarded gives the response of the original stream. */
  lemma AggregateAfterForward(data: string, parse: string -> Option<Fields>, freshId: string, now: int, r: Response,
                              r': Response)
    requires RejectsArrays(parse) && (HasDone(data) || Terminated(data))
    requires IsResponse(ChunksOf(data, parse), freshId, now, r)
    requires IsResponse(ChunksOf(Streamed(data), parse), freshId, now, r')
    ensures r == r'
  {
    ForwardingKeepsChunks(data, parse);
    hide ChunksOf, Streamed, HasDone;
    ResponseIsDetermined(ChunksOf(data, parse), freshId, now, r, r');
  }

  /** The description of a response leaves no freedom. */
  lemma ResponseIsDetermined(chunks: seq<Fields>, freshId: string, now: int, r: Response, r': Response)
    requires IsResponse(chunks, freshId, now, r) && IsResponse(chunks, freshId, now, r')
    ensures r == r'
  {
    hide Truncate, FirstStr, LastStr, ConcatStr, Content, Created, Sub, Calls, Choices, IsToolCalls, Deltas;
    if r.toolCalls.Some? && r'.toolCalls.Some? {
      var ds := Deltas(Calls(Choices(chunks)));
      CallsDependOnOwnDeltas(ds, r.toolCalls.value, ds, r'.toolCalls.value);
    }
  }

  lemma SubConcatMore(cs: seq<Fields>, c: Fields, key: string)
    ensures ConcatStr(Sub(cs + [c], key), "content") == ConcatStr(Sub(cs, key), "content") + TextUnder(c, key)
  {
    assert (cs + [c])[..|cs|] == cs;
    var before := Sub(cs, key);
    match ObjAt(c, key) {
      case None =>
        assert before + [] == before;
      case Some(o) =>
        assert (before + [o])[..|before|] == before;
    }
  }

  /** The position of the first choice with streamed text. */
  function FirstStreamed(choices: seq<Fields>): (k: nat)
    ensures k <= |choices|
  {
    if choices == [] then 0
    else
      var k := FirstStreamed(choices[..|choices| - 1]);
      if k < |choices| - 1 || HasDeltaText(choices[|choices| - 1]) then k else |choices|
  }

  lemma {:induction false} FirstStreamedIsFirst(choices: seq<Fields>)
    ensures var k := FirstStreamed(choices);
            && (forall i :: 0 <= i < k ==> !HasDeltaText(choices[i]))
            && (k < |choices| ==> HasDeltaText(choices[k]))
            && (k < |choices| <==> AnyDeltaText(choices))
  {
    if choices != [] {
      FirstStreamedIsFirst(choices[..|choices| - 1]);
      hide HasDeltaText;
    }
  }

  lemma ContentMore(cs: seq<Fields>, c: Fields)
    ensures Content(cs + [c]) == Content(cs) + TextUnder(c, "delta")
                                 + if AnyDeltaText(cs + [c]) then "" else TextUnder(c, "message")
    ensures AnyDeltaText(cs + [c]) <==> AnyDeltaText(cs) || HasDeltaText(c)
  {
    ChoiceMore(cs, c);
    hide *;
  }

  lemma FirstStreamedMore(cs: seq<Fields>, c: Fields)
    ensures FirstStreamed(cs + [c]) ==
              if AnyDeltaText(cs) then FirstStreamed(cs) else if HasDeltaText(c) then |cs| else |cs| + 1
    ensures !AnyDeltaText(cs) ==> FirstStreamed(cs) == |cs|
  {
    assert (cs + [c])[..|cs|] == cs;
    FirstStreamedIsFirst(cs);
    hide HasDeltaText, AnyDeltaText;
  }

  /** The content is the message texts of the choices before the first streamed text, then the streamed texts. */
  lemma {:induction false} ContentIs(choices: seq<Fields>)
    ensures var k := FirstStreamed(choices);
            Content(choices) == Texts(choices[..k], "message") + Texts(choices[k..], "delta")
  {
    if choices == [] {
      TextsMore([], map[], "message");
      assert Content(choices) == "" && choices[..0] == [];
    } else {
      hide *;
      var init, c := choices[..|choices| - 1], choices[|choices| - 1];
      assert init + [c] == choices;
      ContentIs(init);
      ContentMore(init, c);
      FirstStreamedMore(init, c);
      NoDeltaNoText(c);
      NoneAdded(Content(init));
      NoneAdded(Content(init) + TextUnder(c, "delta"));
      if AnyDeltaText(choices) {
        StreamedChoice(init, c, FirstStreamed(choices));
      } else {
        MessageChoice(init, c);
      }
    }
  }

  /** The texts under a key, joined. */
  function Texts(choices: seq<Fields>, key: string): string {
    ConcatStr(Sub(choices, key), "content")
  }

  lemma TextsMore(cs: seq<Fields>, c: Fields, key: string)
    ensures Texts(cs + [c], key) == Texts(cs, key) + TextUnder(c, key)
    ensures Texts([], key) == ""
  {
    SubConcatMore(cs, c, key);
    hide TextUnder;
  }

  /** One more choice, from the first streamed text on. */
  lemma StreamedChoice(init: seq<Fields>, c: Fields, k: nat)
    requires k <= |init| && Content(init + [c]) == Content(init) + TextUnder(c, "delta")
    requires Content(init) == Texts(init[..k], "message") + Texts(init[k..], "delta")
    ensures Content(init + [c]) == Texts((init + [c])[..k], "message") + Texts((init + [c])[k..], "delta")
  {
    hide *;
    var front, back := init[..k], init[k..];
    assert (init + [c])[..k] == front;
    assert (init + [c])[k..] == back + [c];
    TextsMore(back, c, "delta");
    Regroup(Texts(front, "message"), Texts(back, "delta"), TextUnder(c, "delta"));
  }

  lemma Regroup(a: string, b: string, c: string)
    ensures (a + b) + c == a + (b + c)
  {
  }

  /** One more choice, before any streamed text. */
  lemma MessageChoice(init: seq<Fields>, c: Fields)
    requires Content(init + [c]) == Content(init) + TextUnder(c, "message")
    requires Content(init) == Texts(init[..|init|], "message") + Texts(init[|init|..], "delta")
    ensures Content(init + [c])
         == Texts((init + [c])[..|init| + 1], "message") + Texts((init + [c])[|init| + 1..], "delta")
  {
    hide *;
    var all, n := init + [c], |init| + 1;
    assert init[..|init|] == init && init[|init|..] == [];
    assert all[..n] == all && all[n..] == [];
    TextsMore(init, c, "message");
    TextsMore(init, c, "delta");
    NoneAdded(Texts(init, "message"));
    NoneAdded(Texts(all, "message"));
  }

  lemma NoneAdded(a: string)
    ensures a + "" == a && "" + a == a
  {
  }

  /** When the first choice already streams text, whole messages are ignored altogether. */
  lemma StreamedTextWins(choices: seq<Fields>)
    requires choices != [] && HasDeltaText(choices[0])
    ensures Content(choices) == Texts(choices, "delta")
  {
    hide *;
    ContentIs(choices);
    FirstStreamedIsFirst(choices);
    TextsMore([], map[], "message");
    NoneAdded(Texts(choices, "delta"));
    assert choices[..0] == [] && choices[0..] == choices;
  }

  /** When no choice streams text, the message contents are the content. */
  lemma MessagesWithoutStreamedText(choices: seq<Fields>)
    requires !AnyDeltaText(choices)
    ensures Content(choices) == Texts(choices, "message")
  {
    hide *;
    ContentIs(choices);
    FirstStreamedIsFirst(choices);
    TextsMore([], map[], "delta");
    NoneAdded(Texts(choices, "message"));
    assert choices[..|choices|] == choices && choices[|choices|..] == [];
  }

  lemma NoDeltaNoText(c: Fields)
    ensures !HasDeltaText(c) ==> TextUnder(c, "delta") == ""
  {
  }

  // ---- reading on past [DONE] --------------------------------------------------------

  /** The lines before the first [DONE]. */
  function BeforeDone(lines: seq<string>): (r: seq<string>)
    ensures r <= lines
  {
    if lines == [] || IsDone(lines[0]) then []
    else
      var r := BeforeDone(lines[1..]);
      assert [lines[0]] + r <= lines;
      [lines[0]] + r
  }

  lemma {:induction false} BeforeDoneIsUpToFirst(lines: seq<string>)
    ensures var n := |BeforeDone(lines)|;
            && !AnyDone(lines[..n])
            && (n < |lines| ==> IsDone(lines[n]))
  {
    hide IsDone;
    if lines != [] && !IsDone(lines[0]) {
      BeforeDoneIsUpToFirst(lines[1..]);
      var n := |BeforeDone(lines)|;
      assert forall i :: 0 < i < n ==> lines[..n][i] == lines[1..][..n - 1][i - 1];
    }
  }

  /** The lines after the first [DONE]. */
  function AfterDone(lines: seq<string>): seq<string> {
    var n := |BeforeDone(lines)|;
    if n < |lines| then lines[n + 1..] else []
  }

  ghost predicate CarriesNothing(lines: seq<string>, parse: string -> Option<Fields>) {
    forall i :: 0 <= i < |lines| ==> ChunkOn(lines[i], parse) == []
  }

  lemma CarriesNothingMore(lines: seq<string>, l: string, parse: string -> Option<Fields>)
    ensures CarriesNothing(lines + [l], parse) <==> CarriesNothing(lines, parse) && ChunkOn(l, parse) == []
  {
    hide ChunkOn;
    var all := lines + [l];
    assert all[|lines|] == l && forall i :: 0 <= i < |lines| ==> all[i] == lines[i];
  }

  lemma {:induction false} NoChunksExactly(lines: seq<string>, parse: string -> Option<Fields>)
    ensures ChunksOn(lines, parse) == [] <==> CarriesNothing(lines, parse)
  {
    if lines != [] {
      hide ChunkOn, CarriesNothing;
      var init, l := lines[..|lines| - 1], lines[|lines| - 1];
      assert init + [l] == lines;
      NoChunksExactly(init, parse);
      CarriesNothingMore(init, l, parse);
      assert |ChunksOn(lines, parse)| == |ChunksOn(init, parse)| + |ChunkOn(l, parse)|;
    }
  }

  lemma DoneCarriesNothing(line: string, parse: string -> Option<Fields>)
    requires IsDone(line)
    ensures ChunkOn(line, parse) == []
  {
  }

  lemma DoneSplits(lines: seq<string>, parse: string -> Option<Fields>)
    ensures ChunksOn(lines, parse) == ChunksOn(BeforeDone(lines), parse) + ChunksOn(AfterDone(lines), parse)
  {
    BeforeDoneIsUpToFirst(lines);
    hide BeforeDone, IsDone, AnyDone, ChunkOn, ChunksOn;
    var before, after := BeforeDone(lines), AfterDone(lines);
    var n := |before|;
    ChunksOnAppend(before, after, parse);
    if n < |lines| {
      assert lines == before + [lines[n]] + after;
      ChunksOnAppend(before + [lines[n]], after, parse);
      ChunksOnAppend(before, [lines[n]], parse);
      OneLineChunks(lines[n], parse);
      DoneCarriesNothing(lines[n], parse);
    } else {
      assert lines == before + after;
    }
  }

  /** Reading on past [DONE] gives what stopping there would exactly when no later line carries a chunk. */
  lemma StoppingAtDoneExactly(data: string, parse: string -> Option<Fields>)
    ensures ChunksOf(data, parse) == ChunksOn(BeforeDone(LinesOf(data)), parse)
            <==> CarriesNothing(AfterDone(LinesOf(data)), parse)
  {
    ChunksOfIs(data, parse);
    hide *;
    var lines := LinesOf(data);
    LinesOfIs(data);
    DoneSplits(lines, parse);
    NoChunksExactly(AfterDone(lines), parse);
    var a, b := ChunksOn(BeforeDone(lines), parse), ChunksOn(AfterDone(lines), parse);
    assert |a + b| == |a| + |b|;
    assert b == [] ==> a + b == a;
  }

  /** Then the response is the same, too. */
  lemma SameWithoutLaterChunks(data: string, parse: string -> Option<Fields>, freshId: string, now: int, r: Response)
    requires CarriesNothing(AfterDone(LinesOf(data)), parse)
    ensures IsResponse(ChunksOf(data, parse), freshId, now, r)
       <==> IsResponse(ChunksOn(BeforeDone(LinesOf(data)), parse), freshId, now, r)
  {
    hide *;
    StoppingAtDoneExactly(data, parse);
  }

  lemma LinesOfIs(data: string)
    ensures LinesOf(data) == Complete(data) + [Tail(data)]
  {
  }

  // ---- streams on which the promises fail ---------------------------------------------

  const PAYLOAD := "{\"id\":\"late\"}"
  const LINE := "data: " + PAYLOAD

  function Chunk(): Fields {
    map["id" := Str("late")]
  }

  lemma LineIs()
    ensures PayloadOf(LINE) == Some(PAYLOAD) && PAYLOAD != DONE && !IsDone(LINE) && Free(LINE, '\n') && LINE != ""
  {
    var p := PAYLOAD;
    assert p[0] == '{' && p[|p| - 1] == '}';
    assert LINE[|LINE| - 1] == '}';
    assert TrimCrLf(LINE) == LINE;
    assert "data:" <= LINE && LINE[5..] == [' '] + p;
    SpaceIsTrimmed(p);
    assert p[0] != DONE[0];
  }

  lemma SpaceIsTrimmed(p: string)
    requires p != "" && Visible(p[0]) && Visible(p[|p| - 1])
    ensures TrimSpace([' '] + p) == p
  {
    var s := [' '] + p;
    NoSpaceAtEnds(p);
    assert LeadingSpace(s) == 1 && s[1..] == p;
    assert TrimLeft(s) == TrimLeft(p) == p;
  }

  /** An unterminated stream without [DONE]: no [DONE] line reaches the client, its chunk is lost, and forwarding it
      again adds a second mark. */
  lemma UnterminatedStreamFails(parse: string -> Option<Fields>)
    requires RejectsArrays(parse) && parse(PAYLOAD) == Some(Chunk())
    ensures !HasDone(Streamed(LINE)) && Streamed(Streamed(LINE)) != Streamed(LINE)
    ensures ChunksOf(LINE, parse) == [Chunk()] && ChunksOf(Streamed(LINE), parse) == []
  {
    hide IsDone, AnyDone, Complete, Tail, Streamed, ChunkOn, PayloadOf;
    LineIs();
    NoNewline(LINE);
    assert LinesOf(LINE) == [LINE];
    AnyDoneOne(LINE);
    DoneGuaranteedWhenTerminated(LINE);
    ForwardingIsIdempotent(LINE);
    StreamedChunks(LINE, parse);
    ChunkIs(LINE, PAYLOAD, Chunk(), parse);
    assert ChunksOn([], parse) == [];
  }

  /** A response that stopping at [DONE] would have left without id takes its id from a chunk after [DONE]. */
  lemma ReadsPastDone(parse: string -> Option<Fields>, freshId: string, now: int, r: Response, r': Response)
    requires parse(PAYLOAD) == Some(Chunk())
    requires IsResponse(ChunksOf(MARK + ['\n'] + LINE, parse), freshId, now, r)
    requires IsResponse(ChunksOn(BeforeDone(LinesOf(MARK + ['\n'] + LINE)), parse), freshId, now, r')
    ensures r.id == "late" && r'.id == freshId
  {
    hide *;
    LineIs();
    MarkIsDone();
    var data := MARK + ['\n'] + LINE;
    MarkThenLine();
    DoneSplits([MARK, LINE], parse);
    DoneFirst([MARK, LINE]);
    ChunksOfIs(data, parse);
    LinesOfIs(data);
    OneLineChunks(LINE, parse);
    ChunkIs(LINE, PAYLOAD, Chunk(), parse);
    assert BeforeDone(LinesOf(data)) == [];
    NoChunksExactly([], parse);
    assert CarriesNothing([], parse) by { NothingCarriesNothing(parse); }
    assert [] + [Chunk()] == [Chunk()];
    IdOfResponse([Chunk()], freshId, now, r);
    IdOfResponse([], freshId, now, r');
    IdOfChunk();
  }

  lemma IdOfResponse(chunks: seq<Fields>, freshId: string, now: int, r: Response)
    requires IsResponse(chunks, freshId, now, r)
    ensures r.id == if FirstStr(chunks, "id") != "" then FirstStr(chunks, "id") else freshId
  {
    hide Truncate, Content, Created, ConcatStr, LastStr;
  }

  lemma IdOfChunk()
    ensures FirstStr([Chunk()], "id") == "late" && FirstStr([], "id") == ""
  {
    assert [Chunk()][..0] == [];
  }

  lemma NothingCarriesNothing(parse: string -> Option<Fields>)
    ensures CarriesNothing([], parse)
  {
  }

  lemma ChunkIs(line: string, payload: string, o: Fields, parse: string -> Option<Fields>)
    requires PayloadOf(line) == Some(payload) && payload != DONE && parse(payload) == Some(o)
    ensures ChunkOn(line, parse) == [o]
  {
  }

  lemma DoneFirst(lines: seq<string>)
    requires lines != [] && IsDone(lines[0])
    ensures BeforeDone(lines) == [] && AfterDone(lines) == lines[1..]
  {
    hide IsDone;
  }

  lemma MarkThenLine()
    ensures LinesOf(MARK + ['\n'] + LINE) == [MARK, LINE]
  {
    LineIs();
    hide Complete, Tail, IsDone, PayloadOf;
    CompleteOne(MARK, LINE);
    NoNewline(LINE);
    assert [MARK] + [LINE] == [MARK, LINE];
  }
}
