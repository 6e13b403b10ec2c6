/** internal/schedule/schedule.go: the text form of an interval, with the duration syntax of Go's time package. */
module Interval {
  import opened Options
  import opened Text
  import opened Decimal
  import opened Arith
  import opened Durations
  import Int64

  const LIMIT: nat := 0x8000_0000_0000_0000   // 1 << 63

  // ---- printing ---------------------------------------------------------

  /** The fractional part of v / 10^prec, without trailing zeros; nothing when it is zero. */
  function Fraction(v: nat, prec: nat): string {
    var f := v % Pow10(prec);
    if f == 0 then "" else "." + StripZeros(Padded(f, prec))
  }

  function Seconds(d: nat): string {
    Print(d / SECOND % 60) + Fraction(d, 9) + "s"
  }

  /** Duration.String for a positive duration. */
  function GoString(d: nat): string {
    if d < MICRO then Print(d) + "ns"
    else if d < MILLI then Print(d / MICRO) + Fraction(d, 3) + "\U{C2}\U{B5}s"
    else if d < SECOND then Print(d / MILLI) + Fraction(d, 6) + "ms"
    else if d < MINUTE then Seconds(d)
    else if d < HOUR then Print(d / MINUTE) + "m" + Seconds(d)
    else Print(d / HOUR) + "h" + Print(d / MINUTE % 60) + "m" + Seconds(d)
  }

  function FormatInterval(d: int): string {
    if d <= 0 then ""
    else if d % MINUTE == 0 then
      var hours, minutes := d / HOUR, d % HOUR / MINUTE;
      if hours > 0 && minutes > 0 then Print(hours) + "h" + Print(minutes) + "m"
      else if hours > 0 then Print(hours) + "h"
      else Print(minutes) + "m"
    else GoString(d)
  }

  // ---- parsing ----------------------------------------------------------

  /** Length of the unit a string starts with: everything up to a digit or a point. */
  function UnitRun(s: string): (n: nat)
    ensures n <= |s|
  {
    if s == "" || s[0] == '.' || IsDigit(s[0]) then 0 else 1 + UnitRun(s[1..])
  }

  function UnitValue(u: string): Option<nat> {
    if u == "ns" then Some(NANO)
    else if u == "us" || u == "\U{C2}\U{B5}s" || u == "\U{CE}\U{BC}s" then Some(MICRO)
    else if u == "ms" then Some(MILLI)
    else if u == "s" then Some(SECOND)
    else if u == "m" then Some(MINUTE)
    else if u == "h" then Some(HOUR)
    else None
  }

  /** A decimal number: digits, and the digits after a point if there is one. */
  datatype Number = Number(whole: string, fraction: string, rest: string)

  function ParseNumber(s: string): (r: Number)
    ensures AllDigits(r.whole) && AllDigits(r.fraction)
    ensures |r.whole| + |r.fraction| + |r.rest| <= |s|
  {
    var n := DigitRun(s);
    if n < |s| && s[n] == '.' then
      var after := s[n + 1..];
      var k := DigitRun(after);
      Number(s[..n], after[..k], after[k..])
    else Number(s[..n], "", s[n..])
  }

  function Scaled(n: Number, unit: nat): nat
    requires AllDigits(n.whole) && AllDigits(n.fraction)
  {
    Times(Value(n.whole), unit) + Quotient(Times(Value(n.fraction), unit), Pow10(|n.fraction|))
  }

  datatype Term = Term(value: nat, rest: string)

  /** One number with its unit, such as 1.5h, and what follows it. */
  function ParseTerm(s: string): (r: Option<Term>)
    ensures r.Some? ==> |r.value.rest| < |s|
  {
    var n := ParseNumber(s);
    var m := UnitRun(n.rest);
    if (n.whole == "" && n.fraction == "") || m == 0 then None
    else
      match UnitValue(n.rest[..m])
      case None => None
      case Some(unit) =>
        if Scaled(n, unit) > LIMIT then None else Some(Term(Scaled(n, unit), n.rest[m..]))
  }

  function ParseTerms(s: string, sum: nat): Option<nat>
    decreases |s|
  {
    if s == "" then Some(sum)
    else
      match ParseTerm(s)
      case None => None
      case Some(t) => if sum + t.value > LIMIT then None else ParseTerms(t.rest, sum + t.value)
  }

  /** time.ParseDuration. */
  function ParseDuration(s: string): Option<int> {
    var signed := s != "" && (s[0] == '-' || s[0] == '+');
    var body := if signed then s[1..] else s;
    if body == "0" then Some(0)
    else if body == "" then None
    else
      match ParseTerms(body, 0)
      case None => None
      case Some(n) =>
        var d: int := n;
        if s[0] == '-' then Some(-d)
        else if d > LIMIT - 1 then None
        else Some(d)
  }

  /** The interval a text stands for; None is an error. */
  function ParseInterval(v: string): Option<int> {
    var t := TrimSpace(v);
    if t == "" || t == "-" || t == "0" then Some(0)
    else
      match ParseDuration(t)
      case None => None
      case Some(d) => if d < MINUTE then None else Some(d)
  }

  predicate Accepted(d: int) {
    d == 0 || MINUTE <= d <= Int64.MAX
  }

  lemma ParsedIsAccepted(v: string)
    ensures ParseInterval(v).Some? ==> Accepted(ParseInterval(v).value)
  {
    hide TrimSpace, ParseTerms;
  }

  // ---- the round trip ------------------------------------------------------

  predicate StartsNewTerm(s: string) {
    s == "" || IsDigit(s[0])
  }

  lemma UnitIs(u: char, rest: string)
    requires u != '.' && !IsDigit(u) && StartsNewTerm(rest)
    ensures UnitRun([u] + rest) == 1
  {
    assert ([u] + rest)[1..] == rest;
  }

  /** A printed number with a one-letter unit is read back. */
  lemma TermOfInt(n: nat, u: char, unit: nat, rest: string)
    requires UnitValue([u]) == Some(unit) && u != '.' && !IsDigit(u) && StartsNewTerm(rest)
    requires n * unit <= LIMIT
    ensures ParseTerm(Print(n) + [u] + rest) == Some(Term(n * unit, rest))
  {
    hide ParseNumber, Scaled, UnitValue, UnitRun, Print;
    var s, tail := Print(n) + [u] + rest, [u] + rest;
    assert s == Print(n) + tail;
    NumberOfInt(n, tail);
    UnitIs(u, rest);
    assert tail[..1] == [u] && tail[1..] == rest;
    ScaledWhole(Print(n), tail, unit);
  }

  lemma NumberOfInt(n: nat, tail: string)
    requires tail != "" && tail[0] != '.' && !IsDigit(tail[0])
    ensures ParseNumber(Print(n) + tail) == Number(Print(n), "", tail)
  {
    hide Print;
    var s := Print(n) + tail;
    DigitRunIs(Print(n), tail);
    assert s[..|Print(n)|] == Print(n) && s[|Print(n)|..] == tail;
  }

  lemma ScaledWhole(whole: string, rest: string, unit: nat)
    requires AllDigits(whole)
    ensures Scaled(Number(whole, "", rest), unit) == Value(whole) * unit
  {
  }

  /** Seconds with a printed fraction are read back to the nanosecond. */
  lemma TermOfSeconds(n: nat, ns: nat)
    requires 0 < ns < SECOND && n * SECOND + ns <= LIMIT
    requires Pow10(9) == SECOND
    ensures ParseTerm(Print(n) + ("." + StripZeros(Padded(ns, 9))) + "s") == Some(Term(n * SECOND + ns, ""))
  {
    hide Print, StripZeros, Padded, ParseNumber, UnitRun;
    var f := StripZeros(Padded(ns, 9));
    var s := Print(n) + ("." + f) + "s";
    FractionReadsBack(ns);
    NumberWithPoint(Print(n), f, s);
    assert "s" == ['s'] + "";
    UnitIs('s', "");
    assert "s"[..1] == "s" && "s"[1..] == "";
    assert Scaled(ParseNumber(s), SECOND) == n * SECOND + ns;
  }

  lemma NumberWithPoint(whole: string, f: string, s: string)
    requires AllDigits(whole) && AllDigits(f) && s == whole + ("." + f) + "s"
    ensures ParseNumber(s) == Number(whole, f, "s")
  {
    var point := "." + f + "s";
    assert s == whole + point;
    DigitRunIs(whole, point);
    assert s[..|whole|] == whole && s[|whole| + 1..] == f + "s";
    DigitRunIs(f, "s");
    assert (f + "s")[..|f|] == f && (f + "s")[|f|..] == "s";
  }

  lemma FractionReadsBack(ns: nat)
    requires 0 < ns < SECOND && Pow10(9) == SECOND
    ensures var f := StripZeros(Padded(ns, 9)); f != "" && Value(f) * SECOND / Pow10(|f|) == ns
  {
    var p := Padded(ns, 9);
    var f := StripZeros(p);
    StripKeepsValue(p);
    Pow10Sum(|f|, 9 - |f|);
    assert Value("") == 0;
    hide *;
    var v, a, b := Value(f), Pow10(|f|), Pow10(9 - |f|);
    ScaleUp(v, a, b, ns);
    ModIs(v * SECOND, a, ns, 0);
  }

  lemma ScaleUp(v: nat, a: nat, b: nat, ns: nat)
    requires a * b == SECOND && v * b == ns
    ensures v * SECOND == ns * a
  {
    assert v * (a * b) == (v * b) * a;
  }

  lemma SplitMinute(d: nat)
    ensures (d / SECOND % 60) * SECOND + d % SECOND == d % MINUTE
  {
  }

  function SecondsText(n: nat, ns: nat): string
    requires ns < Pow10(9)
  {
    if ns == 0 then Print(n) + ['s'] + "" else Print(n) + ("." + StripZeros(Padded(ns, 9))) + "s"
  }

  lemma SecondsTextReadsBack(n: nat, ns: nat, sum: nat)
    requires Pow10(9) == SECOND && ns < SECOND && 0 < n * SECOND + ns && sum + n * SECOND + ns <= LIMIT
    ensures var s := SecondsText(n, ns);
            && ParseTerms(s, sum) == Some(sum + n * SECOND + ns)
            && s != "" && IsDigit(s[0]) && s[|s| - 1] == 's'
  {
    hide Print, ParseTerm, ParseTerms, StripZeros, Padded, Pow10;
    var s := SecondsText(n, ns);
    if ns == 0 {
      TermOfInt(n, 's', SECOND, "");
    } else {
      TermOfSeconds(n, ns);
    }
    DigitFirst(n);
    assert s[0] == Print(n)[0];
    TermsStep(s, sum, Term(n * SECOND + ns, ""));
    NothingLeft(sum + n * SECOND + ns);
  }

  lemma SecondsIs(d: nat)
    requires Pow10(9) == SECOND
    ensures Seconds(d) == SecondsText(d / SECOND % 60, d % SECOND)
  {
    hide Pow10, Print;
  }

  /** The seconds part of a printed duration stands for what is left over from whole minutes. */
  lemma SecondsReadBack(d: nat, sum: nat)
    requires sum + d % MINUTE <= LIMIT && d % MINUTE > 0
    ensures ParseTerms(Seconds(d), sum) == Some(sum + d % MINUTE)
    ensures Seconds(d) != "" && IsDigit(Seconds(d)[0]) && Seconds(d)[|Seconds(d)| - 1] == 's'
  {
    hide SecondsText, ParseTerms, Seconds, Pow10, IsDigit;
    NanosInSecond();
    SplitMinute(d);
    SecondsIs(d);
    SecondsTextReadsBack(d / SECOND % 60, d % SECOND, sum);
  }

  lemma DigitFirst(n: nat)
    ensures IsDigit(Print(n)[0])
  {
  }

  lemma NanosInSecond()
    ensures Pow10(9) == SECOND
  {
    assert Pow10(3) == 1000;
    Pow10Sum(3, 3);
    Pow10Sum(6, 3);
  }

  lemma TermsStep(s: string, sum: nat, t: Term)
    requires s != "" && ParseTerm(s) == Some(t) && sum + t.value <= LIMIT
    ensures ParseTerms(s, sum) == ParseTerms(t.rest, sum + t.value)
  {
    hide ParseTerm;
  }

  /** A leading whole term is taken off. */
  lemma TermTaken(n: nat, u: char, unit: nat, rest: string, sum: nat)
    requires UnitValue([u]) == Some(unit) && u != '.' && !IsDigit(u) && StartsNewTerm(rest)
    requires sum + n * unit <= LIMIT
    ensures ParseTerms(Print(n) + [u] + rest, sum) == ParseTerms(rest, sum + n * unit)
  {
    hide *;
    TermOfInt(n, u, unit, rest);
    TermsStep(Print(n) + [u] + rest, sum, Term(n * unit, rest));
  }

  /** A text of terms that amount to at least a minute is accepted as it stands. */
  lemma TermsAccepted(s: string, d: nat)
    requires |s| >= 2 && IsDigit(s[0]) && 'a' <= s[|s| - 1] <= 'z'
    requires ParseTerms(s, 0) == Some(d) && MINUTE <= d <= Int64.MAX
    ensures ParseInterval(s) == Some(d)
  {
    hide ParseTerms;
    TrimIdentity(s);
    hide TrimSpace;
  }

  /** What FormatInterval prints for whole minutes. */
  lemma WholeMinutesText(d: nat)
    requires MINUTE <= d && d % MINUTE == 0
    ensures var h, m := d / HOUR, d % HOUR / MINUTE;
            && h * HOUR + m * MINUTE == d
            && (h > 0 ==> FormatInterval(d) == Print(h) + ['h'] + MinutesText(m))
            && (h == 0 ==> FormatInterval(d) == Print(m) + ['m'] + "")
  {
    SplitWholeMinutes(d);
    hide Print;
  }

  lemma SplitWholeMinutes(d: nat)
    requires MINUTE <= d && d % MINUTE == 0
    ensures d / HOUR * HOUR + d % HOUR / MINUTE * MINUTE == d
    ensures d / HOUR == 0 ==> d % HOUR / MINUTE > 0
  {
  }

  function MinutesText(m: nat): string {
    if m > 0 then Print(m) + ['m'] + "" else ""
  }

  lemma MinutesReadBack(m: nat, sum: nat)
    requires sum + m * MINUTE <= LIMIT
    ensures ParseTerms(MinutesText(m), sum) == Some(sum + m * MINUTE)
    ensures StartsNewTerm(MinutesText(m))
    ensures MinutesText(m) != "" ==> MinutesText(m)[|MinutesText(m)| - 1] == 'm'
  {
    hide ParseTerms;
    NothingLeft(sum + m * MINUTE);
    if m > 0 {
      TermTaken(m, 'm', MINUTE, "", sum);
      assert MinutesText(m)[0] == Print(m)[0];
    }
  }

  lemma HoursAccepted(h: nat, rest: string, d: nat)
    requires StartsNewTerm(rest) && (rest != "" ==> rest[|rest| - 1] == 'm')
    requires ParseTerms(rest, h * HOUR) == Some(d) && MINUTE <= d <= Int64.MAX && h * HOUR <= LIMIT
    ensures ParseInterval(Print(h) + ['h'] + rest) == Some(d)
  {
    hide ParseInterval, ParseTerms;
    var s := Print(h) + ['h'] + rest;
    TermTaken(h, 'h', HOUR, rest, 0);
    hide Print;
    assert s[0] == Print(h)[0];
    assert rest != "" ==> s[|s| - 1] == rest[|rest| - 1];
    TermsAccepted(s, d);
  }

  lemma WholeMinutesRoundTrip(d: nat)
    requires MINUTE <= d <= Int64.MAX && d % MINUTE == 0
    ensures ParseInterval(FormatInterval(d)) == Some(d)
  {
    WholeMinutesText(d);
    hide ParseInterval, FormatInterval, MinutesText, Print;
    HoursAndMinutesAccepted(d / HOUR, d % HOUR / MINUTE, d);
  }

  lemma HoursAndMinutesAccepted(h: nat, m: nat, d: nat)
    requires h * HOUR + m * MINUTE == d && MINUTE <= d <= Int64.MAX
    ensures h > 0 ==> ParseInterval(Print(h) + ['h'] + MinutesText(m)) == Some(d)
    ensures h == 0 ==> ParseInterval(Print(m) + ['m'] + "") == Some(d)
  {
    hide ParseInterval, ParseTerms, MinutesText, Print;
    if h > 0 {
      MinutesReadBack(m, h * HOUR);
      HoursAccepted(h, MinutesText(m), d);
    } else {
      MinutesAccepted(m);
    }
  }

  lemma MinutesAccepted(m: nat)
    requires 0 < m && m * MINUTE <= Int64.MAX
    ensures ParseInterval(Print(m) + ['m'] + "") == Some(m * MINUTE)
  {
    hide ParseInterval, ParseTerms;
    var s := Print(m) + ['m'] + "";
    TermTaken(m, 'm', MINUTE, "", 0);
    NothingLeft(m * MINUTE);
    hide Print;
    assert s[0] == Print(m)[0];
    TermsAccepted(s, m * MINUTE);
  }

  lemma NothingLeft(sum: nat)
    ensures ParseTerms("", sum) == Some(sum)
  {
  }

  lemma SplitHour(d: nat)
    ensures d / MINUTE * MINUTE + d % MINUTE == d
    ensures d / HOUR * HOUR + (d / MINUTE % 60) * MINUTE + d % MINUTE == d
  {
  }

  lemma OddRoundTrip(d: nat)
    requires MINUTE <= d <= Int64.MAX && d % MINUTE != 0
    ensures ParseInterval(FormatInterval(d)) == Some(d)
  {
    var s, tail := GoString(d), Seconds(d);
    SplitHour(d);
    hide ParseInterval, ParseTerms, Print, Seconds;
    if d < HOUR {
      var m := d / MINUTE;
      assert s == Print(m) + ['m'] + tail;
      SecondsReadBack(d, m * MINUTE);
      TermTaken(m, 'm', MINUTE, tail, 0);
      assert s[0] == Print(m)[0];
      assert s[|s| - 1] == tail[|tail| - 1];
    } else {
      var h, m := d / HOUR, d / MINUTE % 60;
      var rest := Print(m) + ['m'] + tail;
      assert s == Print(h) + ['h'] + rest;
      SecondsReadBack(d, h * HOUR + m * MINUTE);
      TermTaken(m, 'm', MINUTE, tail, h * HOUR);
      assert rest[0] == Print(m)[0];
      TermTaken(h, 'h', HOUR, rest, 0);
      assert s[0] == Print(h)[0];
      assert s[|s| - 1] == tail[|tail| - 1];
    }
    TermsAccepted(s, d);
  }

  /** Formatting and parsing give an interval back exactly when it is off or at least a minute long. */
  lemma RoundTripExactly(d: int)
    requires Int64.Fits(d)
    ensures ParseInterval(FormatInterval(d)) == Some(d) <==> d == 0 || d >= MINUTE
  {
    hide ParseInterval;
    ParsedIsAccepted(FormatInterval(d));
    if d <= 0 {
      EmptyIsOff();
    } else if d >= MINUTE {
      if d % MINUTE == 0 {
        WholeMinutesRoundTrip(d);
      } else {
        OddRoundTrip(d);
      }
    }
  }

  /** The intervals that some text stands for are 0 and those of at least a minute. */
  lemma AcceptedIntervals(d: int)
    ensures (exists v :: ParseInterval(v) == Some(d)) <==> Accepted(d)
  {
    hide ParseInterval;
    if Accepted(d) {
      RoundTripExactly(d);
    }
    if v :| ParseInterval(v) == Some(d) {
      ParsedIsAccepted(v);
    }
  }

  lemma EmptyIsOff()
    ensures ParseInterval("") == Some(0)
  {
  }
}
