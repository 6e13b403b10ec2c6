/** Which lines of a stream name token counts, read off the lines alone, and that the tap reports exactly those. */
module UsageLines {
  import opened Options
  import opened Text
  import opened Decimal
  import opened Tap
  import Int64

  /** Where a number stands: the position of its key, the blanks before it, and what follows it. */
  datatype Place = Place(at: nat, blanks: string, rest: string)

  /** The number printed after the first occurrence of the key. */
  predicate Names(line: string, key: string, n: nat, w: Place) {
    && OccursAt(line, key, w.at) && (forall i :: 0 <= i < w.at ==> !OccursAt(line, key, i))
    && line[w.at + |key|..] == w.blanks + Print(n) + w.rest
    && (forall i :: 0 <= i < |w.blanks| ==> w.blanks[i] == ' ' || w.blanks[i] == '\t')
    && (w.rest == "" || !('0' <= w.rest[0] <= '9'))
    && n < 0x8000_0000_0000_0000
  }

  /** A data line, perhaps with a carriage return at its end, and where its counts stand. */
  datatype Shape = Shape(text: string, cr: string, prompt: Place, completion: Place)

  ghost predicate HasShape(line: string, s: Shape, p: nat, c: nat) {
    && line == s.text + s.cr && (s.cr == "" || s.cr == "\r")
    && "data:" <= s.text && Visible(s.text[|s.text| - 1])
    && (exists i :: OccursAt(s.text, "\"usage\":", i))
    && Names(s.text, "\"prompt_tokens\":", p, s.prompt) && Names(s.text, "\"completion_tokens\":", c, s.completion)
  }

  /** The line names p prompt tokens and c completion tokens in its usage. */
  ghost predicate ShowsUsage(line: string, p: nat, c: nat) {
    exists s :: HasShape(line, s, p, c)
  }

  ghost predicate Lacks(line: string, key: string) {
    forall i :: !OccursAt(line, key, i)
  }

  /** The line is not a data line, or lacks one of the three keys. */
  ghost predicate ShowsNone(line: string) {
    || (line != "" && Visible(line[0]) && !("data:" <= line))
    || Lacks(line, "\"usage\":") || Lacks(line, "\"prompt_tokens\"") || Lacks(line, "\"completion_tokens\"")
  }

  lemma CrIsTrimmed(text: string, cr: string)
    requires text != "" && Visible(text[0]) && Visible(text[|text| - 1]) && (cr == "" || cr == "\r")
    ensures TrimSpace(text + cr) == text
  {
    NoSpaceAtEnds(text);
    NoSpaceAtEnds(text + cr);
    if cr == "" {
      assert text + cr == text;
    } else {
      var s := text + cr;
      assert TrimLeft(s) == s;
      assert TrailingSpace(s) == 1 && s[..|s| - 1] == text;
      assert TrimRight(s) == TrimRight(text) == text;
    }
  }

  lemma NamedIsRead(line: string, key: string, n: nat, w: Place)
    requires Names(line, key, n, w)
    ensures IntAfter(line, key) == n
  {
    IntAfterInvertsPrint(line, w.at, key, w.blanks, n, w.rest);
  }

  /** A line that names its usage is reported with just these counts. */
  lemma ShownIsReported(line: string, p: nat, c: nat)
    requires ShowsUsage(line, p, c)
    ensures ReportOf(line) == [Usage(p, c)]
  {
    hide TrimSpace, IntAfter, Names, HasShape;
    var s :| HasShape(line, s, p, c);
    ShapeIsRead(line, s, p, c);
    IndexIsFirst(s.text, USAGE_KEY);
    assert LineUsage(line) == ParseUsageLine(s.text);
  }

  lemma ShapeIsRead(line: string, s: Shape, p: nat, c: nat)
    requires HasShape(line, s, p, c)
    ensures TrimSpace(line) == s.text && "data:" <= s.text && exists i :: OccursAt(s.text, USAGE_KEY, i)
    ensures IntAfter(s.text, PROMPT + ":") == p && IntAfter(s.text, COMPLETION + ":") == c
    ensures Contains(s.text, PROMPT) && Contains(s.text, COMPLETION)
  {
    hide TrimSpace, IntAfter, Contains, Names, OccursAt;
    assert s.text[0] == 'd';
    CrIsTrimmed(s.text, s.cr);
    assert PROMPT + ":" == "\"prompt_tokens\":" && COMPLETION + ":" == "\"completion_tokens\":";
    NamedIsRead(s.text, "\"prompt_tokens\":", p, s.prompt);
    NamedIsRead(s.text, "\"completion_tokens\":", c, s.completion);
    NamedIsContained(s.text, PROMPT, p, s.prompt);
    NamedIsContained(s.text, COMPLETION, c, s.completion);
  }

  lemma NamedIsContained(line: string, key: string, n: nat, w: Place)
    requires Names(line, key + ":", n, w)
    ensures Contains(line, key)
  {
    PrefixOccurs(line, key, w.at);
  }

  lemma {:induction false} LeftIsSuffix(s: string) returns (k: nat)
    ensures k <= |s| && TrimLeft(s) == s[k..]
    decreases |s|
  {
    hide LeadingSpace;
    var w := LeadingSpace(s);
    if w == 0 {
      k := 0;
    } else {
      k := LeftIsSuffix(s[w..]);
      k := w + k;
    }
  }

  lemma {:induction false} RightIsPrefix(s: string) returns (k: nat)
    ensures k <= |s| && TrimRight(s) == s[..k]
    decreases |s|
  {
    hide TrailingSpace;
    var w := TrailingSpace(s);
    if w == 0 {
      k := |s|;
    } else {
      k := RightIsPrefix(s[..|s| - w]);
    }
  }

  lemma OccursInPart(s: string, a: nat, b: nat, key: string, i: int)
    requires a <= |s| && b <= |s[a..]| && OccursAt(s[a..][..b], key, i)
    ensures OccursAt(s, key, a + i)
  {
    assert s[a + i..a + i + |key|] == s[a..][..b][i..i + |key|];
  }

  lemma LackingIsKept(line: string, key: string)
    requires Lacks(line, key)
    ensures !Contains(TrimSpace(line), key)
  {
    hide TrimSpace, TrimLeft, TrimRight, OccursAt, Contains;
    var a := LeftIsSuffix(line);
    var b := RightIsPrefix(TrimLeft(line));
    TrimIsBoth(line);
    var t := TrimSpace(line);
    forall i
      ensures !OccursAt(t, key, i)
    {
      if OccursAt(t, key, i) {
        OccursInPart(line, a, b, key, i);
      }
    }
    IndexIsFirst(t, key);
  }

  lemma NoDataLine(line: string)
    requires line != "" && Visible(line[0]) && !("data:" <= line)
    ensures !("data:" <= TrimSpace(line))
  {
    hide TrimRight;
    NoSpaceAtEnds(line);
    var k := RightIsPrefix(line);
    assert TrimLeft(line) == line;
  }

  /** A line that shows no counts is not reported. */
  lemma NothingShownIsNotReported(line: string)
    requires ShowsNone(line)
    ensures ReportOf(line) == []
  {
    hide TrimSpace, Contains, Lacks;
    if line != "" && Visible(line[0]) && !("data:" <= line) {
      NoDataLine(line);
    } else if Lacks(line, "\"usage\":") {
      LackingIsKept(line, USAGE_KEY);
    } else if Lacks(line, "\"prompt_tokens\"") {
      LackingIsKept(line, PROMPT);
    } else {
      LackingIsKept(line, COMPLETION);
    }
  }

  lemma TrimIsBoth(s: string)
    ensures TrimSpace(s) == TrimRight(TrimLeft(s))
  {
  }

  // ---- all lines ---------------------------------------------------------------------

  datatype Counts = Counts(prompt: nat, completion: nat)

  /** The lines show just these counts, None for a line without any. */
  ghost predicate Show(lines: seq<string>, shown: seq<Option<Counts>>) {
    |lines| == |shown| && forall i :: 0 <= i < |lines| ==>
      match shown[i] case None => ShowsNone(lines[i]) case Some(n) => ShowsUsage(lines[i], n.prompt, n.completion)
  }

  function HowMany(shown: seq<Option<Counts>>): nat
  {
    if shown == [] then 0 else (if shown[0].Some? then 1 else 0) + HowMany(shown[1..])
  }

  function PromptTotal(shown: seq<Option<Counts>>): nat
  {
    if shown == [] then 0 else (if shown[0].Some? then shown[0].value.prompt else 0) + PromptTotal(shown[1..])
  }

  function CompletionTotal(shown: seq<Option<Counts>>): nat
  {
    if shown == [] then 0 else (if shown[0].Some? then shown[0].value.completion else 0) + CompletionTotal(shown[1..])
  }

  /** What a list of reports adds to the prompt and completion counters. */
  function PromptSum(us: seq<Usage>): int
  {
    if us == [] then 0 else us[0].prompt + PromptSum(us[1..])
  }

  function CompletionSum(us: seq<Usage>): int
  {
    if us == [] then 0 else us[0].completion + CompletionSum(us[1..])
  }

  lemma {:induction false} SumsMore(us: seq<Usage>, u: Usage)
    ensures PromptSum(us + [u]) == PromptSum(us) + u.prompt
    ensures CompletionSum(us + [u]) == CompletionSum(us) + u.completion
  {
    if us == [] {
      assert [u][1..] == [];
    } else {
      assert (us + [u])[1..] == us[1..] + [u];
      SumsMore(us[1..], u);
    }
  }

  predicate Natural(us: seq<Usage>) {
    forall u :: u in us ==> u.prompt >= 0 && u.completion >= 0
  }

  lemma {:induction false} ShownAreReported(lines: seq<string>, shown: seq<Option<Counts>>)
    requires Show(lines, shown)
    ensures var us := Reports(lines);
            && |us| == HowMany(shown) && Natural(us)
            && PromptSum(us) == PromptTotal(shown) && CompletionSum(us) == CompletionTotal(shown)
  {
    if lines != [] {
      hide ReportOf, ShowsUsage, ShowsNone;
      ShownAreReported(lines[1..], shown[1..]);
      match shown[0] {
        case None =>
          NothingShownIsNotReported(lines[0]);
          assert [] + Reports(lines[1..]) == Reports(lines[1..]);
        case Some(n) =>
          ShownIsReported(lines[0], n.prompt, n.completion);
          assert ([Usage(n.prompt, n.completion)] + Reports(lines[1..]))[1..] == Reports(lines[1..]);
      }
    }
  }
}
