/** internal/stats/tap.go: watching a byte stream for token-usage lines while it passes through. */
module Tap {
  import opened Text
  import opened Lines
  import opened Decimal
  import opened Options
  import opened Arith
  import Int64

  const LIMIT: nat := 65536

  datatype Usage = Usage(prompt: int, completion: int)

  // ---- one line ---------------------------------------------------------

  predicate Blank(c: char) { c == ' ' || c == '\t' }

  function SkipBlanks(s: string): string
  {
    if s != "" && Blank(s[0]) then SkipBlanks(s[1..]) else s
  }

  predicate Signed(s: string) { s != "" && (s[0] == '-' || s[0] == '+') }

  /** The 64-bit integer a string starts with, or -1 when it starts with none. */
  function LeadingInt(s: string): int
  {
    var digits := if Signed(s) then s[1..] else s;
    var n := DigitRun(digits);
    if n == 0 then -1
    else
      var v: int := Value(digits[..n]);
      Int64.Wrap(if s[0] == '-' then -v else v)
  }

  /** The 64-bit integer written after the first `key`, or -1 when there is none. */
  function IntAfter(line: string, key: string): int
  {
    var at := Index(line, key);
    if at < 0 then -1 else LeadingInt(SkipBlanks(line[at + |key|..]))
  }

  /** findIntValue. */
  method FindIntValue(line: string, key: string) returns (n: int)
    ensures n == IntAfter(line, key)
  {
    var at := Index(line, key);
    if at < 0 {
      return -1;
    }
    var rest := line[at + |key|..];
    ghost var text := rest;
    while rest != "" && Blank(rest[0])
      invariant SkipBlanks(rest) == SkipBlanks(text)
      decreases |rest|
    {
      rest := rest[1..];
    }
    assert rest == SkipBlanks(text);
    n := ReadInt(rest);
  }

  /** The second half of findIntValue: the digits are accumulated in 64-bit arithmetic, one at a time. */
  method ReadInt(text: string) returns (n: int)
    ensures n == LeadingInt(text)
  {
    hide Int64.Wrap, Value, Accumulated, DigitRun;
    NothingAccumulated();
    var rest := text;
    if rest == "" {
      return -1;
    }
    var neg := false;
    if rest[0] == '-' {
      neg := true;
      rest := rest[1..];
    } else if rest[0] == '+' {
      rest := rest[1..];
    }
    ghost var digits, k := rest, 0;
    n := 0;
    var any := false;
    while rest != "" && IsDigit(rest[0])
      invariant k <= |digits| && rest == digits[k..]
      invariant AllDigits(digits[..k])
      invariant n == Accumulated(digits[..k])
      invariant any <==> k > 0
      decreases |rest|
    {
      OneMoreDigit(digits, k);
      n := Int64.Wrap(n * 10 + DigitValue(rest[0]));
      rest := rest[1..];
      any := true;
      k := k + 1;
    }
    RunIs(digits, k);
    AccumulatedIsWrapped(digits[..k]);
    if !any {
      return -1;
    }
    if neg {
      WrapNeg(Value(digits[..k]));
      n := Int64.Wrap(-n);
    }
  }

  lemma NothingAccumulated()
    ensures Accumulated("") == 0
  {
  }

  lemma OneMoreDigit(digits: string, k: nat)
    requires k < |digits| && AllDigits(digits[..k]) && IsDigit(digits[k])
    ensures AllDigits(digits[..k + 1])
    ensures Accumulated(digits[..k + 1]) == Int64.Wrap(Accumulated(digits[..k]) * 10 + DigitValue(digits[k]))
  {
    assert digits[..k + 1] == digits[..k] + [digits[k]];
    assert digits[..k + 1][..k] == digits[..k];
  }

  /** The 64-bit accumulator after reading the digits one by one. */
  function Accumulated(ds: string): int
    requires AllDigits(ds)
  {
    if ds == "" then 0
    else Int64.Wrap(Accumulated(ds[..|ds| - 1]) * 10 + DigitValue(ds[|ds| - 1]))
  }

  lemma {:induction false} AccumulatedIsWrapped(ds: string)
    requires AllDigits(ds)
    ensures Accumulated(ds) == Int64.Wrap(Value(ds))
  {
    if ds != "" {
      var init := ds[..|ds| - 1];
      AccumulatedIsWrapped(init);
      WrapTimes10(Value(init), DigitValue(ds[|ds| - 1]));
    }
  }

  lemma WrapTimes10(v: int, d: int)
    ensures Int64.Wrap(Int64.Wrap(v) * 10 + d) == Int64.Wrap(v * 10 + d)
  {
    hide Int64.Wrap;
    Int64.WrapMoves(v);
    Int64.WrapUnique(v * 10 + d, Int64.Wrap(v) * 10 + d, (v - Int64.Wrap(v)) / Int64.SPAN * 10);
  }

  lemma RunIs(digits: string, k: nat)
    requires k <= |digits| && AllDigits(digits[..k]) && (k < |digits| ==> !IsDigit(digits[k]))
    ensures DigitRun(digits) == k
  {
    assert digits == digits[..k] + digits[k..];
    DigitRunIs(digits[..k], digits[k..]);
  }

  lemma WrapNeg(v: int)
    ensures Int64.Wrap(-Int64.Wrap(v)) == Int64.Wrap(-v)
  {
    hide Int64.Wrap;
    Int64.WrapMoves(v);
    Int64.WrapUnique(-v, -Int64.Wrap(v), -((v - Int64.Wrap(v)) / Int64.SPAN));
  }

  const PROMPT := "\"prompt_tokens\""
  const COMPLETION := "\"completion_tokens\""
  const USAGE_KEY := "\"usage\":"

  lemma {:induction false} SkipAllBlanks(blanks: string, rest: string)
    requires forall i :: 0 <= i < |blanks| ==> Blank(blanks[i])
    requires rest != "" && !Blank(rest[0])
    ensures SkipBlanks(blanks + rest) == rest
  {
    if blanks == "" {
      assert blanks + rest == rest;
    } else {
      assert (blanks + rest)[1..] == blanks[1..] + rest;
      SkipAllBlanks(blanks[1..], rest);
    }
  }

  predicate FirstAt(line: string, key: string, at: int) {
    OccursAt(line, key, at) && forall i :: 0 <= i < at ==> !OccursAt(line, key, i)
  }

  /** A number printed after the first occurrence of the key is read back, whatever surrounds it. */
  lemma IntAfterInvertsPrint(line: string, at: nat, key: string, blanks: string, n: nat, rest: string)
    requires FirstAt(line, key, at)
    requires line[at + |key|..] == blanks + Print(n) + rest
    requires forall i :: 0 <= i < |blanks| ==> Blank(blanks[i])
    requires rest != "" ==> !IsDigit(rest[0])
    requires n <= Int64.MAX
    ensures IntAfter(line, key) == n
  {
    IndexIsFirst(line, key);
    var text := Print(n) + rest;
    assert text[0] == Print(n)[0];
    assert line[at + |key|..] == blanks + text;
    SkipAllBlanks(blanks, text);
    DigitRunIs(Print(n), rest);
    assert text[..|Print(n)|] == Print(n);
  }

  /** The same for a number with a sign. */
  lemma IntAfterInvertsSigned(line: string, at: nat, key: string, blanks: string, sign: char, n: nat, rest: string)
    requires FirstAt(line, key, at)
    requires line[at + |key|..] == blanks + [sign] + Print(n) + rest
    requires forall i :: 0 <= i < |blanks| ==> Blank(blanks[i])
    requires rest != "" ==> !IsDigit(rest[0])
    requires n <= Int64.MAX && (sign == '-' || sign == '+')
    ensures IntAfter(line, key) == if sign == '-' then 0 - n else n
  {
    hide LeadingInt, Print;
    IndexIsFirst(line, key);
    var text := [sign] + Print(n) + rest;
    assert line[at + |key|..] == blanks + text;
    SkipAllBlanks(blanks, text);
    SignedLead(sign, n, rest);
  }

  lemma SignedLead(sign: char, n: nat, rest: string)
    requires (sign == '-' || sign == '+') && (rest != "" ==> !IsDigit(rest[0])) && n <= Int64.MAX
    ensures LeadingInt([sign] + Print(n) + rest) == if sign == '-' then 0 - n else n
  {
    hide Print, Int64.Wrap;
    var text := [sign] + Print(n) + rest;
    DigitRunIs(Print(n), rest);
    assert text[1..] == Print(n) + rest;
    assert text[1..][..|Print(n)|] == Print(n);
  }

  /** Without the key, or without a number after it, the result is -1. */
  lemma NoIntIsMinusOne(line: string, key: string, at: nat, blanks: string, rest: string)
    requires (forall i :: !OccursAt(line, key, i)) ||
             (FirstAt(line, key, at) && line[at + |key|..] == blanks + rest &&
              (forall i :: 0 <= i < |blanks| ==> Blank(blanks[i])) &&
              rest != "" && !Blank(rest[0]) && !Signed(rest) && !IsDigit(rest[0]))
    ensures IntAfter(line, key) == -1
  {
    IndexIsFirst(line, key);
    if FirstAt(line, key, at) {
      SkipAllBlanks(blanks, rest);
    }
  }

  /** While such a number is read, the 64-bit accumulator never overflows. */
  lemma NoOverflowOnTheWay(n: nat, k: nat)
    requires n <= Int64.MAX && k <= |Print(n)|
    ensures Accumulated(Print(n)[..k]) == Value(Print(n)[..k]) <= n
  {
    ValuePrefix(Print(n), k);
    AccumulatedIsWrapped(Print(n)[..k]);
  }

  function ParseUsageLine(line: string): Option<Usage>
  {
    if !Contains(line, PROMPT) || !Contains(line, COMPLETION) then None
    else Some(Usage(NonNegative(IntAfter(line, PROMPT + ":")), NonNegative(IntAfter(line, COMPLETION + ":"))))
  }

  /** Both counts are read back from a line that holds both keys, in either order. */
  lemma UsageInvertsPrint(line: string, at1: nat, b1: string, p: nat, rest1: string,
                          at2: nat, b2: string, c: nat, rest2: string)
    requires FirstAt(line, PROMPT + ":", at1) && FirstAt(line, COMPLETION + ":", at2)
    requires line[at1 + |PROMPT| + 1..] == b1 + Print(p) + rest1
    requires line[at2 + |COMPLETION| + 1..] == b2 + Print(c) + rest2
    requires forall i :: 0 <= i < |b1| ==> Blank(b1[i])
    requires forall i :: 0 <= i < |b2| ==> Blank(b2[i])
    requires (rest1 != "" ==> !IsDigit(rest1[0])) && (rest2 != "" ==> !IsDigit(rest2[0]))
    requires p <= Int64.MAX && c <= Int64.MAX
    ensures ParseUsageLine(line) == Some(Usage(p, c))
  {
    IntAfterInvertsPrint(line, at1, PROMPT + ":", b1, p, rest1);
    IntAfterInvertsPrint(line, at2, COMPLETION + ":", b2, c, rest2);
    PrefixOccurs(line, PROMPT, at1);
    PrefixOccurs(line, COMPLETION, at2);
  }

  lemma PrefixOccurs(line: string, key: string, at: int)
    requires OccursAt(line, key + ":", at)
    ensures Contains(line, key)
  {
    assert line[at..at + |key|] == line[at..at + |key| + 1][..|key|];
    assert OccursAt(line, key, at);
    IndexIsFirst(line, key);
  }

  /** The usage report a complete line triggers, if any. */
  function LineUsage(line: string): Option<Usage>
  {
    var t := TrimSpace(line);
    if "data:" <= t && Contains(t, USAGE_KEY) then ParseUsageLine(t) else None
  }

  /** All reports of a list of lines, in order. */
  function Reports(lines: seq<string>): seq<Usage>
  {
    if lines == [] then []
    else ReportOf(lines[0]) + Reports(lines[1..])
  }

  lemma {:induction false} ReportsAppend(a: seq<string>, b: seq<string>)
    ensures Reports(a + b) == Reports(a) + Reports(b)
  {
    if a == [] {
      assert a + b == b;
    } else {
      assert (a + b)[1..] == a[1..] + b;
      ReportsAppend(a[1..], b);
    }
  }

  function ReportOf(line: string): seq<Usage> {
    match LineUsage(line) case None => [] case Some(u) => [u]
  }

  lemma ReportsOfSplit(s: string)
    requires IndexByte(s, '\n') >= 0
    ensures var i := IndexByte(s, '\n');
            && Reports(Complete(s)) == ReportOf(s[..i]) + Reports(Complete(s[i + 1..]))
            && Tail(s) == Tail(s[i + 1..])
  {
    SplitAtIndex(s);
    assert Complete(s)[1..] == Complete(s[IndexByte(s, '\n') + 1..]);
  }

  lemma NoReports(s: string)
    requires Free(s, '\n')
    ensures Reports(Complete(s)) == [] && Tail(s) == s
  {
    NoNewline(s);
  }

  // ---- the reader -------------------------------------------------------

  /** The last LIMIT bytes of s. */
  function Clip(s: string): (r: string)
    ensures |r| <= LIMIT
  {
    if |s| > LIMIT then s[|s| - LIMIT..] else s
  }

  class TapReader {
    const observed: bool     // whether OnUsage is set
    var pending: string
    var calls: seq<Usage>    // the OnUsage calls made so far

    constructor (observed: bool)
      ensures this.observed == observed && pending == "" && calls == []
    {
      this.observed := observed;
      pending, calls := "", [];
    }

    method Feed(chunk: string)
      modifies this
      ensures |pending| <= 65536
      ensures observed ==> calls == old(calls) + Reports(Complete(old(pending) + chunk))
      ensures observed ==> pending == Clip(Tail(old(pending) + chunk))
      ensures !observed ==> calls == old(calls) && pending == Clip(old(pending) + chunk)
    {
      pending := pending + chunk;
      if observed {
        TakeLines();
      }
      if |pending| > LIMIT {
        pending := pending[|pending| - LIMIT..];
      }
    }

    /** The loop of feed: cuts complete lines off `pending`, reporting usage as it goes. */
    method TakeLines()
      modifies this
      ensures calls == old(calls) + Reports(Complete(old(pending)))
      ensures pending == Tail(old(pending))
    {
      hide LineUsage, Complete, Reports, Tail, IndexByte;
      ghost var text := pending;
      var i := IndexByte(pending, '\n');
      while i >= 0
        invariant i == IndexByte(pending, '\n')
        invariant calls + Reports(Complete(pending)) == old(calls) + Reports(Complete(text))
        invariant Tail(pending) == Tail(text)
        decreases |pending|
      {
        ReportsOfSplit(pending);
        var line := pending[..i];
        pending := pending[i + 1..];
        var u := LineUsage(line);
        if u.Some? {
          calls := calls + [u.value];
        }
        i := IndexByte(pending, '\n');
      }
      NoReports(pending);
    }

    /** A whole response body, read in the given pieces. */
    method ReadAll(chunks: seq<string>) returns (forwarded: string)
      requires observed && pending == "" && calls == []
      modifies this
      ensures forwarded == Concat(chunks)
      ensures |pending| <= 65536
      ensures calls == FeedAll(chunks).1
      ensures ClipsHarmless(Concat(chunks)) ==> calls == Reports(Complete(Concat(chunks)))
    {
      forwarded := "";
      for k := 0 to |chunks|
        invariant forwarded == Concat(chunks[..k])
        invariant (pending, calls) == FeedAll(chunks[..k])
        invariant |pending| <= LIMIT
      {
        assert chunks[..k + 1][..k] == chunks[..k];
        Feed(chunks[k]);
        forwarded := forwarded + chunks[k];
      }
      assert chunks[..|chunks|] == chunks;
      ChunkIndependenceExactly(Concat(chunks));
    }
  }

  // ---- independence of the cuts -----------------------------------------

  /** Pending bytes and calls of an observed reader after it was fed the chunks. */
  function FeedAll(chunks: seq<string>): (string, seq<Usage>)
  {
    if chunks == [] then ("", [])
    else
      var (pending, calls) := FeedAll(chunks[..|chunks| - 1]);
      var text := pending + chunks[|chunks| - 1];
      (Clip(Tail(text)), calls + Reports(Complete(text)))
  }

  predicate LinesFit(s: string) {
    forall l :: l in Complete(s) ==> |l| <= 65536
  }

  /** No complete line reports differently after losing a first part, as long as LIMIT bytes remain. */
  ghost predicate ClipsHarmless(s: string) {
    forall l, j: nat :: l in Complete(s) && j + LIMIT <= |l| ==> ReportOf(l[j..]) == ReportOf(l)
  }

  /** Whether the calls are those of the complete lines, however the stream is cut into reads. */
  ghost predicate CutsDoNotMatter(s: string) {
    forall chunks :: Concat(chunks) == s ==> FeedAll(chunks).1 == Reports(Complete(s))
  }

  /** The reads do not matter exactly when no complete line is changed by losing a first part. */
  lemma ChunkIndependenceExactly(s: string)
    ensures CutsDoNotMatter(s) <==> ClipsHarmless(s)
  {
    if ClipsHarmless(s) {
      forall chunks | Concat(chunks) == s
        ensures FeedAll(chunks).1 == Reports(Complete(s))
      {
        HarmlessProgress(chunks);
      }
    } else {
      var l, j: nat :| l in Complete(s) && j + LIMIT <= |l| && ReportOf(l[j..]) != ReportOf(l);
      var chunks := HarmfulCut(s, l, j);
    }
  }

  /** In particular, lines of at most LIMIT bytes may be cut anywhere. */
  lemma ChunkIndependence(chunks: seq<string>)
    requires LinesFit(Concat(chunks))
    ensures FeedAll(chunks).1 == Reports(Complete(Concat(chunks)))
  {
    FittingIsHarmless(Concat(chunks));
    ChunkIndependenceExactly(Concat(chunks));
  }

  lemma FittingIsHarmless(s: string)
    requires LinesFit(s)
    ensures ClipsHarmless(s)
  {
    forall l, j: nat | l in Complete(s) && j + LIMIT <= |l|
      ensures ReportOf(l[j..]) == ReportOf(l)
    {
      assert l[j..] == l;
    }
  }

  /** Whatever the cuts, the pending bytes are the clipped tail of everything read. */
  lemma {:induction false} HarmlessProgress(chunks: seq<string>)
    requires ClipsHarmless(Concat(chunks))
    ensures FeedAll(chunks).0 == Clip(Tail(Concat(chunks)))
    ensures FeedAll(chunks).1 == Reports(Complete(Concat(chunks)))
  {
    if chunks != [] {
      var before, c := Concat(chunks[..|chunks| - 1]), chunks[|chunks| - 1];
      CompleteAppend(before, c);
      LinesHoldNoNewline(before);
      assert Concat(chunks) == before + c;
      hide Complete, Tail, ReportOf, Reports, Clip;
      HarmlessProgress(chunks[..|chunks| - 1]);
      ReportsAppend(Complete(before), Complete(Tail(before) + c));
      ClippedStep(Tail(before), c);
    }
  }

  /** A clipped tail and what follows it have the tail and the reports of the whole. */
  lemma ClippedStep(t: string, c: string)
    requires Free(t, '\n') && ClipsHarmless(t + c)
    ensures Reports(Complete(Clip(t) + c)) == Reports(Complete(t + c))
    ensures Clip(Tail(Clip(t) + c)) == Clip(Tail(t + c))
  {
    hide ReportOf, Reports, Complete, Tail, Clip, ClipsHarmless;
    var i := IndexByte(c, '\n');
    if i < 0 {
      ClippedFree(t, c);
    } else {
      assert c == c[..i] + ['\n'] + c[i + 1..];
      assert t + c == t + c[..i] + ['\n'] + c[i + 1..];
      assert Clip(t) + c == Clip(t) + c[..i] + ['\n'] + c[i + 1..];
      ClippedLine(t, c[..i], c[i + 1..]);
    }
  }

  lemma ClippedFree(t: string, c: string)
    requires Free(t, '\n') && Free(c, '\n')
    ensures Reports(Complete(Clip(t) + c)) == Reports(Complete(t + c))
    ensures Clip(Tail(Clip(t) + c)) == Clip(Tail(t + c))
  {
    hide Reports, Complete, Tail;
    ClipTwice(t, c);
    ClipKeepsFree(t);
    NoNewline(t + c);
    NoNewline(Clip(t) + c);
  }

  lemma ClipTwice(t: string, c: string)
    ensures Clip(Clip(t) + c) == Clip(t + c)
  {
    if |t| > LIMIT {
      var j, all := |t| - LIMIT, t + c;
      assert Clip(t) + c == all[j..];
      assert all[j..][|c|..] == all[j + |c|..];
    }
  }

  lemma ClipKeepsFree(t: string)
    requires Free(t, '\n')
    ensures Free(Clip(t), '\n')
  {
  }

  lemma ClippedLine(t: string, a: string, rest: string)
    requires Free(t, '\n') && Free(a, '\n') && ClipsHarmless(t + a + ['\n'] + rest)
    ensures Reports(Complete(Clip(t) + a + ['\n'] + rest)) == Reports(Complete(t + a + ['\n'] + rest))
    ensures Tail(Clip(t) + a + ['\n'] + rest) == Tail(t + a + ['\n'] + rest)
  {
    hide ReportOf, Reports, Complete, Tail;
    var j: nat := if |t| > LIMIT then |t| - LIMIT else 0;
    var l := t + a;
    assert Clip(t) + a == l[j..];
    LineThenRest(l, rest);
    LineThenRest(l[j..], rest);
    assert l in Complete(l + ['\n'] + rest);
    if j == 0 {
      assert l[j..] == l;
    }
  }

  lemma LineThenRest(l: string, rest: string)
    requires Free(l, '\n')
    ensures Complete(l + ['\n'] + rest) == [l] + Complete(rest)
    ensures Reports(Complete(l + ['\n'] + rest)) == ReportOf(l) + Reports(Complete(rest))
    ensures Tail(l + ['\n'] + rest) == Tail(rest)
  {
    hide Complete, Tail, ReportOf;
    CompleteOne(l, rest);
    assert ([l] + Complete(rest))[1..] == Complete(rest);
  }

  lemma {:induction false} LineWithin(s: string, l: string) returns (pre: string, rest: string)
    requires l in Complete(s)
    ensures s == pre + (l + ['\n'] + rest) && Terminated(pre) && Tail(pre) == "" && Free(l, '\n')
    decreases |s|
  {
    hide Complete, IndexByte, Tail, Free;
    SplitAtIndex(s);
    LinesHoldNoNewline(s);
    var i := IndexByte(s, '\n');
    if l == s[..i] {
      pre, rest := "", s[i + 1..];
    } else {
      pre, rest := LineWithin(s[i + 1..], l);
      var head := s[..i + 1];
      assert s == head + s[i + 1..] && head[|head| - 1] == '\n';
      pre := head + pre;
    }
    TerminatedIsNoTail(pre);
  }

  /** Cut so that exactly j bytes of the line are lost. */
  lemma HarmfulCut(s: string, l: string, j: nat) returns (chunks: seq<string>)
    requires l in Complete(s) && j + LIMIT <= |l| && ReportOf(l[j..]) != ReportOf(l)
    ensures Concat(chunks) == s && FeedAll(chunks).1 != Reports(Complete(s))
  {
    hide *;
    var pre, rest := LineWithin(s, l);
    var head, tail := l[..j + LIMIT], l[j + LIMIT..];
    assert l == head + tail && head[j..] + tail == l[j..];
    chunks := [pre + head, tail + ['\n'] + rest];
    FeedTwo(pre + head, tail + ['\n'] + rest);
    assert pre + head + (tail + ['\n'] + rest) == s;
    FreePart(l, j);
    FreePart(l, 0);
    HeadOfLine(pre, head, j);
    assert head[j..] + (tail + ['\n'] + rest) == l[j..] + ['\n'] + rest;
    LineThenRest(l[j..], rest);
    LineThenRest(l, rest);
    CompleteAppend(pre, l + ['\n'] + rest);
    assert "" + (l + ['\n'] + rest) == l + ['\n'] + rest;
    ReportsAppend(Complete(pre), Complete(l + ['\n'] + rest));
    DifferInside(Reports(Complete(pre)), ReportOf(l[j..]), ReportOf(l), Reports(Complete(rest)));
  }

  lemma FreePart(l: string, j: nat)
    requires Free(l, '\n') && j + LIMIT <= |l|
    ensures Free(l[j..], '\n') && Free(l[..j + LIMIT], '\n')
  {
  }

  lemma HeadOfLine(pre: string, head: string, j: nat)
    requires Tail(pre) == "" && Free(head, '\n') && |head| == j + LIMIT
    ensures Complete(pre + head) == Complete(pre) && Clip(Tail(pre + head)) == head[j..]
  {
    hide Complete, Tail, Free;
    CompleteAppend(pre, head);
    NoNewline(head);
    assert "" + head == head;
    ClipIs(head, j);
  }

  lemma ClipIs(s: string, j: nat)
    requires |s| == j + LIMIT
    ensures Clip(s) == s[j..]
  {
  }

  lemma FeedTwo(a: string, b: string)
    ensures Concat([a, b]) == a + b
    ensures FeedAll([a, b]).1 == Reports(Complete(a)) + Reports(Complete(Clip(Tail(a)) + b))
  {
    hide Complete, Tail, Clip, Reports;
    FeedMore([], a);
    FeedMore([a], b);
    assert [] + [a] == [a] && [a] + [b] == [a, b] && "" + a == a;
    assert [] + Reports(Complete(a)) == Reports(Complete(a));
  }

  lemma DifferInside(a: seq<Usage>, x: seq<Usage>, y: seq<Usage>, b: seq<Usage>)
    requires x != y
    ensures a + (x + b) != a + (y + b)
  {
    if a + (x + b) == a + (y + b) {
      assert |x| == |y|;
      forall i | 0 <= i < |x|
        ensures x[i] == y[i]
      {
        assert (a + (x + b))[|a| + i] == x[i] && (a + (y + b))[|a| + i] == y[i];
      }
    }
  }

  // ---- a line that depends on the cut --------------------------------------

  function Xs(n: nat): (s: string)
    ensures |s| == n && forall i :: 0 <= i < n ==> s[i] == 'x'
  {
    seq(n, _ => 'x')
  }

  /** A usage line longer than LIMIT. */
  function LongLine(): string {
    "data:" + Xs(LIMIT) + USAGE_KEY + PROMPT + COMPLETION
  }

  lemma KeyOccurs(a: string, key: string, b: string)
    ensures Contains(a + key + b, key)
  {
    var s := a + key + b;
    assert s[|a|..|a| + |key|] == key;
    assert OccursAt(s, key, |a|);
    IndexIsFirst(s, key);
  }

  lemma LongLineReports()
    ensures ReportOf(LongLine()) != []
  {
    var l, x := LongLine(), "data:" + Xs(LIMIT);
    assert l[0] == 'd' && l[|l| - 1] == '\"';
    TrimIdentity(l);
    assert l == x + USAGE_KEY + (PROMPT + COMPLETION);
    KeyOccurs(x, USAGE_KEY, PROMPT + COMPLETION);
    assert l == (x + USAGE_KEY) + PROMPT + COMPLETION;
    KeyOccurs(x + USAGE_KEY, PROMPT, COMPLETION);
    assert l == (x + USAGE_KEY + PROMPT) + COMPLETION + "";
    KeyOccurs(x + USAGE_KEY + PROMPT, COMPLETION, "");
  }

  lemma ClippedLongLineReportsNothing()
    ensures ReportOf(Clip(LongLine())) == []
  {
    var l := Clip(LongLine());
    assert l[0] == 'x' && l[|l| - 1] == '\"';
    TrimIdentity(l);
  }

  lemma ReportsOfOne(l: string)
    requires Free(l, '\n')
    ensures Reports(Complete(l + ['\n'])) == ReportOf(l)
  {
    CompleteOne(l, "");
    assert l + ['\n'] + "" == l + ['\n'];
    assert Complete(l + ['\n'])[1..] == [];
  }

  lemma FeedMore(chunks: seq<string>, c: string)
    ensures Concat(chunks + [c]) == Concat(chunks) + c
    ensures var text := FeedAll(chunks).0 + c;
            FeedAll(chunks + [c]) == (Clip(Tail(text)), FeedAll(chunks).1 + Reports(Complete(text)))
  {
    assert (chunks + [c])[..|chunks|] == chunks;
  }

  lemma FeedWhole(l: string)
    requires Free(l, '\n')
    ensures FeedAll([l + ['\n']]).1 == ReportOf(l)
  {
    FeedMore([], l + ['\n']);
    assert [] + [l + ['\n']] == [l + ['\n']] && "" + (l + ['\n']) == l + ['\n'];
    ReportsOfOne(l);
  }

  lemma FeedCut(l: string)
    requires Free(l, '\n')
    ensures FeedAll([l, ['\n']]).1 == ReportOf(Clip(l))
  {
    assert FeedAll([l]) == (Clip(l), []) by {
      hide ReportOf;
      FeedMore([], l);
      assert [] + [l] == [l] && "" + l == l;
      NoNewline(l);
    }
    hide *;
    FeedMore([l], ['\n']);
    assert [l] + [['\n']] == [l, ['\n']];
    ReportsOfOne(Clip(l));
  }

  lemma LongLineIsOneLine()
    ensures Free(LongLine(), '\n') && |LongLine()| > LIMIT
  {
  }

  /** A usage line longer than LIMIT is reported when read at once; cut just before its newline it is clipped, and the
      report is lost. */
  lemma LongLineDependsOnCut()
    ensures |LongLine()| > LIMIT && Free(LongLine(), '\n')
    ensures |FeedAll([LongLine() + ['\n']]).1| == 1 && FeedAll([LongLine(), ['\n']]).1 == []
    ensures !ClipsHarmless(LongLine() + ['\n'])
  {
    hide LongLine, FeedAll, ClipsHarmless, LineUsage;
    LongLineIsOneLine();
    LongLineReports();
    ClippedLongLineReportsNothing();
    FeedWhole(LongLine());
    FeedCut(LongLine());
    CutMatters(LongLine());
  }

  lemma CutMatters(l: string)
    requires Free(l, '\n') && ReportOf(Clip(l)) != ReportOf(l)
    ensures !ClipsHarmless(l + ['\n'])
  {
    hide *;
    ReportsOfOne(l);
    FeedCut(l);
    FeedTwo(l, ['\n']);
    ChunkIndependenceExactly(l + ['\n']);
    ByCuts(l + ['\n'], [l, ['\n']]);
  }

  lemma ByCuts(s: string, chunks: seq<string>)
    ensures CutsDoNotMatter(s) && Concat(chunks) == s ==> FeedAll(chunks).1 == Reports(Complete(s))
  {
  }
}
