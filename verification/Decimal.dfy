/** Decimal digits: printing, reading, and the run of digits a string starts with. */
module Decimal {

  predicate IsDigit(c: char) {
    '0' <= c <= '9'
  }

  predicate AllDigits(s: string) {
    forall i :: 0 <= i < |s| ==> IsDigit(s[i])
  }

  function DigitValue(c: char): (d: nat)
    requires IsDigit(c)
    ensures d < 10
  {
    c as int - '0' as int
  }

  /** Length of the longest all-digit prefix. */
  function DigitRun(s: string): (n: nat)
    ensures n <= |s| && AllDigits(s[..n])
    ensures n < |s| ==> !IsDigit(s[n])
  {
    if s == "" || !IsDigit(s[0]) then 0
    else
      var n := DigitRun(s[1..]);
      assert forall i :: 0 < i <= n ==> s[i] == s[1..][..n][i - 1];
      n + 1
  }

  lemma DigitRunIs(digits: string, rest: string)
    requires AllDigits(digits)
    requires rest == "" || !IsDigit(rest[0])
    ensures DigitRun(digits + rest) == |digits|
  {
    var s := digits + rest;
    assert forall i :: 0 <= i < |digits| ==> s[i] == digits[i];
    assert forall i :: 0 <= i < DigitRun(s) ==> s[..DigitRun(s)][i] == s[i];
    assert rest != "" ==> s[|digits|] == rest[0];
  }

  /** The number a digit string denotes. */
  function Value(ds: string): (n: nat)
    requires AllDigits(ds)
  {
    if ds == "" then 0 else Value(ds[..|ds| - 1]) * 10 + DigitValue(ds[|ds| - 1])
  }

  function Pow10(n: nat): (p: nat)
    ensures p >= 1
  {
    if n == 0 then 1 else 10 * Pow10(n - 1)
  }

  lemma {:induction false} Pow10Sum(a: nat, b: nat)
    ensures Pow10(a + b) == Pow10(a) * Pow10(b)
  {
    if a > 0 {
      Pow10Sum(a - 1, b);
      assert Pow10(a + b) == 10 * Pow10(a - 1 + b);
      assert 10 * (Pow10(a - 1) * Pow10(b)) == Pow10(a) * Pow10(b);
    }
  }

  /** Every digit read so far denotes no more than the whole. */
  lemma {:induction false} ValuePrefix(ds: string, k: nat)
    requires AllDigits(ds) && k <= |ds|
    ensures Value(ds[..k]) <= Value(ds)
  {
    if k == |ds| {
      assert ds[..k] == ds;
    } else {
      assert ds[..|ds| - 1][..k] == ds[..k];
      ValuePrefix(ds[..|ds| - 1], k);
    }
  }

  function DigitChar(d: nat): (c: char)
    requires d < 10
    ensures IsDigit(c) && DigitValue(c) == d
  {
    ('0' as int + d) as char
  }

  /** The decimal numeral of n, as fmt prints it. */
  function Print(n: nat): (s: string)
    ensures s != "" && AllDigits(s)
    ensures Value(s) == n
    ensures n > 0 ==> s[0] != '0'
  {
    if n < 10 then [DigitChar(n)]
    else
      var s := Print(n / 10);
      assert (s + [DigitChar(n % 10)])[..|s|] == s;
      s + [DigitChar(n % 10)]
  }

  /** n in exactly `width` digits, zero-padded on the left. */
  function Padded(n: nat, width: nat): (s: string)
    requires n < Pow10(width)
    ensures |s| == width && AllDigits(s) && Value(s) == n
  {
    if width == 0 then ""
    else
      var s := Padded(n / 10, width - 1);
      assert (s + [DigitChar(n % 10)])[..|s|] == s;
      s + [DigitChar(n % 10)]
  }

  /** A digit string without its trailing zeros. */
  function StripZeros(ds: string): (s: string)
    requires AllDigits(ds)
    ensures s <= ds && AllDigits(s)
  {
    if ds != "" && ds[|ds| - 1] == '0' then
      StripZeros(ds[..|ds| - 1])
    else ds
  }

  lemma {:induction false} StripKeepsValue(ds: string)
    requires AllDigits(ds)
    ensures Value(ds) == Value(StripZeros(ds)) * Pow10(|ds| - |StripZeros(ds)|)
  {
    var s := StripZeros(ds);
    if ds != "" && ds[|ds| - 1] == '0' {
      var ds' := ds[..|ds| - 1];
      StripKeepsValue(ds');
      ShiftOne(Value(s), |ds'| - |s|);
      assert Value(ds) == Value(ds') * 10;
      hide Value, Pow10, StripZeros;
    } else {
      assert Value(s) * 1 == Value(s);
    }
  }

  lemma ShiftOne(v: nat, k: nat)
    ensures v * Pow10(k + 1) == v * Pow10(k) * 10
  {
    var p := Pow10(k);
    assert Pow10(k + 1) == 10 * p;
  }
}
