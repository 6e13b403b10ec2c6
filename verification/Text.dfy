/** Go strings as the program uses them: sequences of bytes, one char per byte. */
module Text {

  predicate Free(s: string, c: char) {
    forall i :: 0 <= i < |s| ==> s[i] != c
  }

  /** Position of the first `c`, or -1. */
  function IndexByte(s: string, c: char): (r: int)
    ensures -1 <= r < |s|
    ensures r == -1 <==> Free(s, c)
    ensures r >= 0 ==> s[r] == c
    ensures forall i :: 0 <= i < r ==> s[i] != c
  {
    if s == "" then -1
    else if s[0] == c then 0
    else
      var r := IndexByte(s[1..], c);
      if r == -1 then -1 else r + 1
  }

  predicate OccursAt(s: string, key: string, i: int) {
    0 <= i <= |s| - |key| && s[i..i + |key|] == key
  }

  /** Position of the first occurrence of `key`, or -1. */
  function Index(s: string, key: string): (r: int)
    ensures r == -1 || 0 <= r <= |s| - |key|
  {
    IndexFrom(s, key, 0)
  }

  function IndexFrom(s: string, key: string, from: nat): (r: int)
    ensures r == -1 || 0 <= r <= |s| - |key|
    decreases |s| - from
  {
    if OccursAt(s, key, from) then from
    else if from >= |s| then -1
    else IndexFrom(s, key, from + 1)
  }

  predicate Contains(s: string, key: string) {
    Index(s, key) >= 0
  }

  lemma {:induction false} IndexFromIsFirst(s: string, key: string, from: nat)
    ensures var r := IndexFrom(s, key, from);
            && (r == -1 || (from <= r && OccursAt(s, key, r)))
            && (forall i :: from <= i && (r == -1 || i < r) ==> !OccursAt(s, key, i))
    decreases |s| - from
  {
    if !OccursAt(s, key, from) && from < |s| {
      IndexFromIsFirst(s, key, from + 1);
    }
  }

  /** Index finds the first occurrence, and only fails when there is none. */
  lemma IndexIsFirst(s: string, key: string)
    ensures var r := Index(s, key);
            && (r == -1 || (0 <= r && OccursAt(s, key, r)))
            && (forall i :: 0 <= i && (r == -1 || i < r) ==> !OccursAt(s, key, i))
    ensures Contains(s, key) <==> exists i :: OccursAt(s, key, i)
  {
    IndexFromIsFirst(s, key, 0);
  }

  // ---- joining ----------------------------------------------------------

  function Concat(parts: seq<string>): string
  {
    if parts == [] then "" else Concat(parts[..|parts| - 1]) + parts[|parts| - 1]
  }

  lemma ConcatMore(parts: seq<string>, w: string)
    ensures Concat(parts + [w]) == Concat(parts) + w
  {
    assert (parts + [w])[..|parts|] == parts;
  }

  lemma {:induction false} ConcatAppend(a: seq<string>, b: seq<string>)
    ensures Concat(a + b) == Concat(a) + Concat(b)
  {
    if b == [] {
      assert a + b == a;
    } else {
      assert (a + b)[..|a + b| - 1] == a + b[..|b| - 1];
      ConcatAppend(a, b[..|b| - 1]);
    }
  }

  // ---- trimming ---------------------------------------------------------

  /** The string without its trailing carriage returns and newlines. */
  function TrimCrLf(s: string): (r: string)
    ensures r <= s
    ensures r == "" || (r[|r| - 1] != '\n' && r[|r| - 1] != '\r')
    ensures forall i :: |r| <= i < |s| ==> s[i] == '\n' || s[i] == '\r'
  {
    if s != "" && (s[|s| - 1] == '\n' || s[|s| - 1] == '\r') then TrimCrLf(s[..|s| - 1]) else s
  }

  predicate AsciiSpace(c: char) {
    c == ' ' || ('\t' <= c <= '\r')
  }

  predicate Visible(c: char) {
    c < '\U{80}' && !AsciiSpace(c)
  }

  /** UTF-8 encodings, two bytes long, of non-ASCII white space. */
  predicate Wide2(a: char, b: char) {
    a == '\U{C2}' && (b == '\U{85}' || b == '\U{A0}')
  }

  /** UTF-8 encodings, three bytes long, of non-ASCII white space. */
  predicate Wide3(a: char, b: char, c: char) {
    || (a == '\U{E1}' && b == '\U{9A}' && c == '\U{80}')
    || (a == '\U{E2}' && b == '\U{80}' &&
        ('\U{80}' <= c <= '\U{8A}' || c == '\U{A8}' || c == '\U{A9}' || c == '\U{AF}'))
    || (a == '\U{E2}' && b == '\U{81}' && c == '\U{9F}')
    || (a == '\U{E3}' && b == '\U{80}' && c == '\U{80}')
  }

  /** Length of the white-space character the string starts with; 0 if it starts with none. */
  function LeadingSpace(s: string): (w: nat)
    ensures w <= |s|
    ensures forall i :: 0 <= i < w ==> !Visible(s[i])
  {
    if |s| >= 1 && AsciiSpace(s[0]) then 1
    else if |s| >= 2 && Wide2(s[0], s[1]) then 2
    else if |s| >= 3 && Wide3(s[0], s[1], s[2]) then 3
    else 0
  }

  /** Length of the white-space character the string ends with; 0 if it ends with none. */
  function TrailingSpace(s: string): (w: nat)
    ensures w <= |s|
    ensures forall i :: |s| - w <= i < |s| ==> !Visible(s[i])
  {
    var n := |s|;
    if n >= 1 && AsciiSpace(s[n - 1]) then 1
    else if n >= 2 && Wide2(s[n - 2], s[n - 1]) then 2
    else if n >= 3 && Wide3(s[n - 3], s[n - 2], s[n - 1]) then 3
    else 0
  }

  function TrimLeft(s: string): string
    decreases |s|
  {
    var w := LeadingSpace(s);
    if w == 0 then s else TrimLeft(s[w..])
  }

  function TrimRight(s: string): string
    decreases |s|
  {
    var w := TrailingSpace(s);
    if w == 0 then s else TrimRight(s[..|s| - w])
  }

  function TrimSpace(s: string): string {
    TrimRight(TrimLeft(s))
  }

  /** Trimming removes no visible ASCII character. */
  lemma TrimKeepsVisible(s: string, c: char)
    requires c in s && Visible(c)
    ensures c in TrimSpace(s)
  {
    LeftKeepsVisible(s, c);
    RightKeepsVisible(TrimLeft(s), c);
  }

  lemma {:induction false} LeftKeepsVisible(s: string, c: char)
    requires c in s && Visible(c)
    ensures c in TrimLeft(s)
    decreases |s|
  {
    var w := LeadingSpace(s);
    if w > 0 {
      var i :| 0 <= i < |s| && s[i] == c;
      assert s[w..][i - w] == c;
      LeftKeepsVisible(s[w..], c);
    }
  }

  lemma {:induction false} RightKeepsVisible(s: string, c: char)
    requires c in s && Visible(c)
    ensures c in TrimRight(s)
    decreases |s|
  {
    var w := TrailingSpace(s);
    if w > 0 {
      var i :| 0 <= i < |s| && s[i] == c;
      assert s[..|s| - w][i] == c;
      RightKeepsVisible(s[..|s| - w], c);
    }
  }

  /** A string that starts and ends with visible ASCII characters is not changed by trimming. */
  lemma TrimIdentity(s: string)
    requires s != "" ==> Visible(s[0]) && Visible(s[|s| - 1])
    ensures TrimSpace(s) == s
  {
    NoSpaceAtEnds(s);
  }

  lemma NoSpaceAtEnds(s: string)
    ensures s != "" && Visible(s[0]) ==> LeadingSpace(s) == 0
    ensures s != "" && Visible(s[|s| - 1]) ==> TrailingSpace(s) == 0
    ensures s == "" ==> LeadingSpace(s) == TrailingSpace(s) == 0
  {
  }
}
