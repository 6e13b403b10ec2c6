/** cmd/login/main.go: percent-encoding of a query value (section 2.1 of RFC 3986). */
module Escape {
  import opened Options

  predicate IsBytes(s: string) {
    forall i :: 0 <= i < |s| ==> s[i] as int < 256
  }

  predicate Unreserved(c: char) {
    || 'a' <= c <= 'z' || 'A' <= c <= 'Z' || '0' <= c <= '9'
    || c == '-' || c == '_' || c == '.' || c == '~'
  }

  /** The characters copied as they are. */
  predicate Kept(c: char) {
    Unreserved(c) || c == '/' || c == ':'
  }

  const HEX := "0123456789ABCDEF"

  function EscapeByte(c: char): string
    requires c as int < 256
  {
    if Kept(c) then [c] else ['%', HEX[c as int / 16], HEX[c as int % 16]]
  }

  function Escaped(s: string): string
    requires IsBytes(s)
  {
    if s == "" then "" else Escaped(s[..|s| - 1]) + EscapeByte(s[|s| - 1])
  }

  method UrlQueryEscape(s: string) returns (out: string)
    requires IsBytes(s)
    ensures out == Escaped(s)
  {
    out := "";
    var i := 0;
    while i < |s|
      invariant i <= |s|
      invariant out == Escaped(s[..i])
    {
      var c := s[i];
      assert s[..i + 1][..i] == s[..i];
      if Kept(c) {
        out := out + [c];
      } else {
        out := out + ['%', HEX[c as int / 16], HEX[c as int % 16]];
      }
      i := i + 1;
    }
    assert s[..i] == s;
  }

  // ---- decoding, as section 2.1 of RFC 3986 defines it --------------------

  function HexValue(c: char): Option<int> {
    if '0' <= c <= '9' then Some(c as int - '0' as int)
    else if 'A' <= c <= 'F' then Some(c as int - 'A' as int + 10)
    else if 'a' <= c <= 'f' then Some(c as int - 'a' as int + 10)
    else None
  }

  /** The bytes a percent-encoded string stands for; None when a '%' starts no %HH triple. */
  function Decode(s: string): Option<string>
  {
    if s == "" then Some("")
    else if s[0] != '%' then
      match Decode(s[1..]) case None => None case Some(r) => Some([s[0]] + r)
    else if |s| < 3 then None
    else
      match (HexValue(s[1]), HexValue(s[2]), Decode(s[3..]))
      case (Some(h), Some(l), Some(r)) => Some([(h * 16 + l) as char] + r)
      case _ => None
  }

  lemma HexRoundTrip(d: nat)
    requires d < 16
    ensures HexValue(HEX[d]) == Some(d)
  {
  }

  lemma DecodeOneByte(c: char, rest: string)
    requires c as int < 256 && Decode(rest).Some?
    ensures Decode(EscapeByte(c) + rest) == Some([c] + Decode(rest).value)
  {
    var e := EscapeByte(c);
    HexRoundTrip(c as int / 16);
    HexRoundTrip(c as int % 16);
    assert (e + rest)[|e|..] == rest;
    assert (c as int / 16) * 16 + c as int % 16 == c as int;
  }

  lemma {:induction false} DecodeAppended(s: string, rest: string)
    requires IsBytes(s) && Decode(rest).Some?
    ensures Decode(Escaped(s) + rest) == Some(s + Decode(rest).value)
  {
    hide Decode, EscapeByte;
    if s == "" {
      assert Escaped(s) + rest == rest && s + Decode(rest).value == Decode(rest).value;
    } else {
      var init, c := s[..|s| - 1], s[|s| - 1];
      DecodeOneByte(c, rest);
      DecodeAppended(init, EscapeByte(c) + rest);
      assert Escaped(s) + rest == Escaped(init) + (EscapeByte(c) + rest);
      assert init + ([c] + Decode(rest).value) == s + Decode(rest).value;
    }
  }

  /** Decoding undoes escaping, for every byte string. */
  lemma DecodeUndoesEscape(s: string)
    requires IsBytes(s)
    ensures Decode(Escaped(s)) == Some(s)
  {
    DecodeAppended(s, "");
    assert Escaped(s) + "" == Escaped(s) && s + "" == s;
  }

  lemma EscapeIsInjective(s: string, t: string)
    requires IsBytes(s) && IsBytes(t) && Escaped(s) == Escaped(t)
    ensures s == t
  {
    DecodeUndoesEscape(s);
    DecodeUndoesEscape(t);
  }

  /** The unreserved characters by their codes, as section 2.3 of RFC 3986 gives them, and slash and colon. */
  predicate Plain(c: char) {
    var n := c as int;
    || 0x41 <= n <= 0x5A || 0x61 <= n <= 0x7A || 0x30 <= n <= 0x39
    || n == 0x2D || n == 0x2E || n == 0x5F || n == 0x7E
    || n == 0x2F || n == 0x3A
  }

  predicate UpperHex(c: char) {
    0x30 <= c as int <= 0x39 || 0x41 <= c as int <= 0x46
  }

  /** Only plain characters and upper-case %HH triples (sections 2.1 and 2.3 of RFC 3986). */
  predicate WellFormed(s: string)
  {
    s == "" ||
    (if s[0] == '%' then |s| >= 3 && UpperHex(s[1]) && UpperHex(s[2]) && WellFormed(s[3..])
     else Plain(s[0]) && WellFormed(s[1..]))
  }

  /** Just the plain characters are copied; every other byte becomes a triple. */
  lemma PlainExactly(c: char)
    requires c as int < 256
    ensures EscapeByte(c) == [c] <==> Plain(c)
    ensures !Plain(c) ==> |EscapeByte(c)| == 3 && EscapeByte(c)[0] == '%'
  {
  }

  lemma HexIsUpper(d: nat)
    requires d < 16
    ensures UpperHex(HEX[d])
  {
  }

  lemma EscapedByteIsWellFormed(c: char, rest: string)
    requires c as int < 256 && WellFormed(rest)
    ensures WellFormed(EscapeByte(c) + rest)
  {
    var e := EscapeByte(c);
    HexIsUpper(c as int / 16);
    HexIsUpper(c as int % 16);
    assert (e + rest)[|e|..] == rest;
  }

  lemma {:induction false} WellFormedAppended(s: string, rest: string)
    requires IsBytes(s) && WellFormed(rest)
    ensures WellFormed(Escaped(s) + rest)
  {
    hide EscapeByte, WellFormed;
    if s == "" {
      assert Escaped(s) + rest == rest;
    } else {
      var init, c := s[..|s| - 1], s[|s| - 1];
      var e := EscapeByte(c);
      EscapedByteIsWellFormed(c, rest);
      WellFormedAppended(init, e + rest);
      assert Escaped(s) + rest == Escaped(init) + (e + rest);
    }
  }

  lemma EscapedIsWellFormed(s: string)
    requires IsBytes(s)
    ensures WellFormed(Escaped(s))
  {
    WellFormedAppended(s, "");
    assert Escaped(s) + "" == Escaped(s);
  }
}
