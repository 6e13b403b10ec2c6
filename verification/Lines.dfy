/** Splitting a byte stream at its newlines. */
module Lines {
  import opened Text

  /** The newline-terminated lines of s, without their newlines. */
  function Complete(s: string): seq<string>
  {
    if s == "" then []
    else
      var init := s[..|s| - 1];
      if s[|s| - 1] == '\n' then Complete(init) + [Tail(init)] else Complete(init)
  }

  /** What follows the last newline of s. */
  function Tail(s: string): string
  {
    if s == "" || s[|s| - 1] == '\n' then "" else Tail(s[..|s| - 1]) + [s[|s| - 1]]
  }

  /** Lines put back together, each with its newline. */
  function Join(lines: seq<string>): string
  {
    if lines == [] then "" else Join(lines[..|lines| - 1]) + lines[|lines| - 1] + ['\n']
  }

  predicate Terminated(s: string) {
    s == "" || s[|s| - 1] == '\n'
  }

  /** Splitting loses nothing: the lines and the tail rebuild the stream. */
  lemma {:induction false} Rebuild(s: string)
    ensures s == Join(Complete(s)) + Tail(s)
  {
    if s != "" {
      Rebuild(s[..|s| - 1]);
    }
  }

  /** No line holds a newline. */
  lemma {:induction false} LinesHoldNoNewline(s: string)
    ensures forall l :: l in Complete(s) ==> Free(l, '\n')
    ensures Free(Tail(s), '\n')
  {
    if s != "" {
      LinesHoldNoNewline(s[..|s| - 1]);
    }
  }

  lemma {:induction false} NoNewline(s: string)
    requires Free(s, '\n')
    ensures Complete(s) == [] && Tail(s) == s
  {
    if s != "" {
      NoNewline(s[..|s| - 1]);
    }
  }

  /** A stream may be split wherever it is cut: the cut's tail joins what follows. */
  lemma {:induction false} CompleteAppend(a: string, b: string)
    ensures Complete(a + b) == Complete(a) + Complete(Tail(a) + b)
    ensures Tail(a + b) == Tail(Tail(a) + b)
  {
    if b == "" {
      LinesHoldNoNewline(a);
      NoNewline(Tail(a));
      assert a + b == a && Tail(a) + b == Tail(a);
    } else {
      var b' := b[..|b| - 1];
      CompleteAppend(a, b');
      assert (a + b)[..|a + b| - 1] == a + b';
      assert (Tail(a) + b)[..|Tail(a) + b| - 1] == Tail(a) + b';
    }
  }

  /** The first newline ends the first line. */
  lemma CompleteOne(l: string, rest: string)
    requires Free(l, '\n')
    ensures Complete(l + ['\n'] + rest) == [l] + Complete(rest)
    ensures Tail(l + ['\n'] + rest) == Tail(rest)
  {
    NoNewline(l);
    var a := l + ['\n'];
    assert a[..|a| - 1] == l;
    assert Complete(a) == [l] && Tail(a) == "";
    CompleteAppend(a, rest);
    assert Tail(a) + rest == rest;
  }

  lemma SplitAtIndex(s: string)
    ensures IndexByte(s, '\n') < 0 ==> Complete(s) == [] && Tail(s) == s
    ensures var i := IndexByte(s, '\n');
            i >= 0 ==> Complete(s) == [s[..i]] + Complete(s[i + 1..]) && Tail(s) == Tail(s[i + 1..])
  {
    var i := IndexByte(s, '\n');
    if i < 0 {
      NoNewline(s);
    } else {
      assert s == s[..i] + ['\n'] + s[i + 1..];
      CompleteOne(s[..i], s[i + 1..]);
    }
  }

  lemma TerminatedIsNoTail(s: string)
    ensures Terminated(s) <==> Tail(s) == ""
  {
  }
}
