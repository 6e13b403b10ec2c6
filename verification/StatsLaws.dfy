/** Laws of the request statistics: totals against rows, and the order of the report. */
module StatsLaws {
  import opened MapSums
  import opened Arith
  import opened Stats
  import Int64

  // ---- totals and rows -------------------------------------------------------

  datatype Counter = Total | Succeeded | Failed | Prompt | Completion

  function Read(c: Counter): Row -> int {
    (r: Row) => match c
      case Total => r.total
      case Succeeded => r.success
      case Failed => r.failed
      case Prompt => r.prompt
      case Completion => r.completion
  }

  function ReadTotals(t: Totals, c: Counter): int {
    match c
    case Total => t.total
    case Succeeded => t.success
    case Failed => t.failed
    case Prompt => t.prompt
    case Completion => t.completion
  }

  /** How much an event adds to a counter. */
  function Adds(e: Event, c: Counter): int {
    match (e, c)
    case (_, Total) => 1
    case (Tokens(_, _, _, _), Succeeded) => 1
    case (Failure(_, _), Failed) => 1
    case (Tokens(_, p, _, _), Prompt) => NonNegative(p)
    case (Tokens(_, _, q, _), Completion) => NonNegative(q)
    case _ => 0
  }

  predicate Word(x: int) { Int64.Fits(x) }

  /** Counters are 64-bit words, rows carry their own name, every total is the sum of its parts. */
  ghost predicate Consistent(s: State) {
    && (forall k, c :: k in s.rows ==> Word(Read(c)(s.rows[k])))
    && (forall c :: Word(ReadTotals(s.totals, c)))
    && (forall k :: k in s.rows ==> s.rows[k].model == k && RowAdds(s.rows[k]))
    && s.totals.total == Int64.Wrap(s.totals.success + s.totals.failed)
    && (forall c :: ReadTotals(s.totals, c) == Int64.Wrap(Sum(s.rows, Read(c))))
  }

  predicate RowAdds(r: Row) {
    r.total == Int64.Wrap(r.success + r.failed)
  }

  lemma RowAfterAdds(r: Row, e: Event, c: Counter)
    requires Word(Read(c)(r))
    ensures Read(c)(RowAfter(r, e)) == Plus(Read(c)(r), Adds(e, c))
  {
  }

  lemma TotalsAfterAdds(t: Totals, e: Event, c: Counter)
    requires Word(ReadTotals(t, c))
    ensures ReadTotals(TotalsAfter(t, e), c) == Plus(ReadTotals(t, c), Adds(e, c))
  {
  }

  lemma WrapOneMore(total: int, a: int, b: int)
    requires total == Int64.Wrap(a + b)
    ensures Plus(total, 1) == Int64.Wrap(Plus(a, 1) + b) == Int64.Wrap(a + Plus(b, 1))
  {
    hide Int64.Wrap;
    Int64.WrapSum(a + b, 1);
    Int64.WrapSum(a + 1, b);
    Int64.WrapSum(a, b + 1);
    assert a + 1 + b == a + b + 1 == a + (b + 1);
  }

  /** Replacing one summand by its reduced successor moves a reduced sum by the same step. */
  lemma WrapReplace(sum: int, x: int, d: int)
    ensures Int64.Wrap(sum + Plus(x, d) - x) == Plus(Int64.Wrap(sum), d)
  {
    hide Int64.Wrap;
    Int64.WrapSum(sum, d);
    Int64.WrapSum(sum - x, x + d);
    assert sum - x + (x + d) == sum + d;
    assert sum - x + Int64.Wrap(x + d) == sum + Plus(x, d) - x;
  }

  lemma RowOfFits(s: State, k: string, c: Counter)
    requires Consistent(s)
    ensures Word(Read(c)(RowOf(s.rows, k))) && (k !in s.rows ==> Read(c)(RowOf(s.rows, k)) == 0)
  {
  }

  lemma SumAfter(s: State, e: Event, c: Counter)
    requires Consistent(s)
    ensures ReadTotals(After(s, e).totals, c) == Int64.Wrap(Sum(After(s, e).rows, Read(c)))
  {
    hide Int64.Wrap, Plus, RowAfter, TotalsAfter, Adds, Read, ReadTotals;
    var k := Name(e.model);
    var before := RowOf(s.rows, k);
    RowOfFits(s, k, c);
    RowAfterAdds(before, e, c);
    TotalsAfterAdds(s.totals, e, c);
    SumUpdate(s.rows, Read(c), k, RowAfter(before, e));
    WrapReplace(Sum(s.rows, Read(c)), Read(c)(before), Adds(e, c));
  }

  lemma RowStaysConsistent(r: Row, e: Event)
    requires RowAdds(r) && forall c :: Word(Read(c)(r))
    ensures RowAdds(RowAfter(r, e)) && RowAfter(r, e).model == r.model
    ensures forall c :: Word(Read(c)(RowAfter(r, e)))
  {
    WrapOneMore(r.total, r.success, r.failed);
    forall c
      ensures Word(Read(c)(RowAfter(r, e)))
    {
      RowAfterAdds(r, e, c);
    }
  }

  lemma AfterIsConsistent(s: State, e: Event)
    requires Consistent(s)
    ensures Consistent(After(s, e))
  {
    var k := Name(e.model);
    forall c
      ensures ReadTotals(After(s, e).totals, c) == Int64.Wrap(Sum(After(s, e).rows, Read(c)))
      ensures Word(ReadTotals(After(s, e).totals, c))
    {
      SumAfter(s, e, c);
    }
    RowStaysConsistent(RowOf(s.rows, k), e);
    WrapOneMore(s.totals.total, s.totals.success, s.totals.failed);
  }

  function Run(s: State, events: seq<Event>): State
  {
    if events == [] then s else After(Run(s, events[..|events| - 1]), events[|events| - 1])
  }

  lemma {:induction false} RunAppend(s: State, a: seq<Event>, b: seq<Event>)
    ensures Run(s, a + b) == Run(Run(s, a), b)
  {
    if b == [] {
      assert a + b == a;
    } else {
      hide After;
      assert (a + b)[..|a + b| - 1] == a + b[..|b| - 1];
      RunAppend(s, a, b[..|b| - 1]);
    }
  }

  /** Over every run, every total is the sum of its parts, globally and per model. */
  lemma {:induction false} AlwaysConsistent(s: State, events: seq<Event>)
    requires Consistent(s)
    ensures Consistent(Run(s, events))
  {
    if events != [] {
      AlwaysConsistent(s, events[..|events| - 1]);
      AfterIsConsistent(Run(s, events[..|events| - 1]), events[|events| - 1]);
    }
  }

  const EMPTY := State(Totals(0, 0, 0, 0, 0, 0), map[])

  /** In particular for a recorder that starts empty; the state it leaves is consistent to start from again. */
  lemma RecorderIsConsistent(events: seq<Event>)
    ensures Consistent(Run(EMPTY, events))
  {
    assert Consistent(EMPTY);
    AlwaysConsistent(EMPTY, events);
  }

  /** What the events of one model add up to. */
  function Added(events: seq<Event>, model: string, c: Counter): int
  {
    if events == [] then 0
    else
      var last := events[|events| - 1];
      Added(events[..|events| - 1], model, c) + if Name(last.model) == model then Adds(last, c) else 0
  }

  /** Counters never go down, whatever counts the upstream names. */
  lemma {:induction false} AddedIsNatural(events: seq<Event>, model: string, c: Counter)
    ensures Added(events, model, c) >= 0
  {
    if events != [] {
      AddedIsNatural(events[..|events| - 1], model, c);
    }
  }

  /** The start of the statistics is the time of the first event, and stays. */
  lemma {:induction false} StartIsFirstEvent(s: State, events: seq<Event>)
    requires events != [] && (s.totals.startedAt == 0 ==> events[0].now != 0)
    ensures Run(s, events).totals.startedAt == if s.totals.startedAt != 0 then s.totals.startedAt else events[0].now
  {
    hide Plus, RowAfter;
    var n := |events| - 1;
    if n == 0 {
      assert events[..0] == [] && Run(s, []) == s;
    } else {
      StartIsFirstEvent(s, events[..n]);
    }
  }

  /** Each row counts exactly the events of its own model, modulo 2^64. */
  lemma {:induction false} RowsCountOwnEvents(events: seq<Event>, model: string, c: Counter)
    ensures Read(c)(RowOf(Run(EMPTY, events).rows, model)) == Int64.Wrap(Added(events, model, c))
  {
    RowsMove(EMPTY, events, model, c);
  }

  /** From any state, a row moves by what the events of its model add up to. */
  lemma {:induction false} RowsMove(s: State, events: seq<Event>, model: string, c: Counter)
    requires Int64.Fits(Read(c)(RowOf(s.rows, model)))
    ensures Read(c)(RowOf(Run(s, events).rows, model))
         == Int64.Wrap(Read(c)(RowOf(s.rows, model)) + Added(events, model, c))
  {
    hide Int64.Wrap, Read, Adds, After;
    if events != [] {
      var init, e := events[..|events| - 1], events[|events| - 1];
      RowsMove(s, init, model, c);
      RowStep(Run(s, init), e, model, c, Read(c)(RowOf(s.rows, model)) + Added(init, model, c));
    }
  }

  lemma RowStep(s: State, e: Event, model: string, c: Counter, sum: int)
    requires Read(c)(RowOf(s.rows, model)) == Int64.Wrap(sum)
    ensures Read(c)(RowOf(After(s, e).rows, model))
         == Int64.Wrap(sum + if Name(e.model) == model then Adds(e, c) else 0)
  {
    if Name(e.model) == model {
      RowAfterAdds(RowOf(s.rows, model), e, c);
      Int64.WrapSum(sum, Adds(e, c));
    }
  }

  // ---- the report ---------------------------------------------------------

  /** Bytewise order of strings. */
  predicate Less(a: string, b: string)
  {
    b != "" && (a == "" || a[0] < b[0] || (a[0] == b[0] && Less(a[1..], b[1..])))
  }

  /** The strings first differ at k, where a ends or has the smaller byte. */
  predicate DecidedAt(a: string, b: string, k: nat) {
    k <= |a| && k < |b| && (forall i: nat :: i < k ==> a[i] == b[i]) && (k == |a| || a[k] < b[k])
  }

  /** The order is decided at the first difference; a shorter string comes before its continuations. */
  lemma {:induction false} LessIsBytewise(a: string, b: string)
    ensures Less(a, b) <==> exists k :: DecidedAt(a, b, k)
  {
    if a != "" && b != "" && a[0] == b[0] {
      LessIsBytewise(a[1..], b[1..]);
      forall k: nat
        ensures DecidedAt(a[1..], b[1..], k) <==> DecidedAt(a, b, k + 1)
      {
        DecidedLater(a, b, k);
      }
      forall k: nat | DecidedAt(a, b, k)
        ensures k > 0 && DecidedAt(a[1..], b[1..], k - 1)
      {
        assert DecidedAt(a, b, k - 1 + 1);
      }
    } else if Less(a, b) {
      assert DecidedAt(a, b, 0);
    }
  }

  lemma DecidedLater(a: string, b: string, k: nat)
    requires a != "" && b != "" && a[0] == b[0]
    ensures DecidedAt(a[1..], b[1..], k) <==> DecidedAt(a, b, k + 1)
  {
    if DecidedAt(a[1..], b[1..], k) {
      forall i: nat | i < k + 1
        ensures a[i] == b[i]
      {
        if i > 0 {
          assert a[1..][i - 1] == b[1..][i - 1];
        }
      }
    }
    if DecidedAt(a, b, k + 1) {
      forall i: nat | i < k
        ensures a[1..][i] == b[1..][i]
      {
        assert a[i + 1] == b[i + 1];
      }
    }
  }

  lemma {:induction false} LessIsTotal(a: string, b: string)
    ensures a == b || Less(a, b) || Less(b, a)
  {
    if a != "" && b != "" && a[0] == b[0] {
      LessIsTotal(a[1..], b[1..]);
      assert a == [a[0]] + a[1..] && b == [b[0]] + b[1..];
    }
  }

  lemma {:induction false} LessIsAsymmetric(a: string, b: string)
    requires Less(a, b)
    ensures !Less(b, a)
  {
    if a != "" && a[0] == b[0] {
      LessIsAsymmetric(a[1..], b[1..]);
    }
  }

  lemma {:induction false} LessIsTransitive(a: string, b: string, c: string)
    requires Less(a, b) && Less(b, c)
    ensures Less(a, c)
  {
    if a != "" && b != "" && a[0] == b[0] == c[0] {
      LessIsTransitive(a[1..], b[1..], c[1..]);
    }
  }

  /** The comparison given to sort.Slice. */
  predicate Before(x: Row, y: Row) {
    x.total > y.total || (x.total == y.total && Less(x.model, y.model))
  }

  lemma BeforeIsTransitive(x: Row, y: Row, z: Row)
    requires Before(x, y) && Before(y, z)
    ensures Before(x, z)
  {
    if Less(x.model, y.model) && Less(y.model, z.model) {
      LessIsTransitive(x.model, y.model, z.model);
    }
  }

  lemma BeforeIsAsymmetric(x: Row, y: Row)
    requires Before(x, y)
    ensures !Before(y, x)
  {
    if Less(x.model, y.model) {
      LessIsAsymmetric(x.model, y.model);
    }
  }

  ghost predicate Ordered(rows: seq<Row>) {
    forall i, j :: 0 <= i < j < |rows| ==> Before(rows[i], rows[j])
  }

  /** The rows of the report: each model's row once, in strict order. */
  ghost predicate IsReport(rows: map<string, Row>, report: seq<Row>) {
    Ordered(report) && forall r :: r in report <==> r in rows.Values
  }

  /** There is only one such list, so the report does not depend on the order in which the map is walked. */
  lemma {:induction false} ReportIsDetermined(a: seq<Row>, b: seq<Row>)
    requires Ordered(a) && Ordered(b) && forall r :: r in a <==> r in b
    ensures a == b
  {
    if a == [] || b == [] {
      SameEmptiness(a, b);
    } else {
      FirstsAgree(a, b);
      forall r
        ensures r in a[1..] <==> r in b[1..]
      {
        TailMember(a, r);
        TailMember(b, r);
      }
      ReportIsDetermined(a[1..], b[1..]);
      assert a == [a[0]] + a[1..] && b == [b[0]] + b[1..];
    }
  }

  lemma SameEmptiness(a: seq<Row>, b: seq<Row>)
    requires forall r :: r in a <==> r in b
    ensures a == [] <==> b == []
  {
    if a != [] {
      assert a[0] in b;
    }
    if b != [] {
      assert b[0] in a;
    }
  }

  lemma FirstsAgree(a: seq<Row>, b: seq<Row>)
    requires Ordered(a) && Ordered(b) && a != [] && b != [] && forall r :: r in a <==> r in b
    ensures a[0] == b[0]
  {
    assert a[0] in b && b[0] in a;
    if a[0] != b[0] {
      BeforeIsAsymmetric(a[0], b[0]);
    }
  }

  lemma TailMember(s: seq<Row>, r: Row)
    requires Ordered(s) && s != []
    ensures r in s[1..] <==> r in s && r != s[0]
  {
    if s[0] in s[1..] {
      var i :| 0 <= i < |s[1..]| && s[1..][i] == s[0];
      BeforeIsAsymmetric(s[0], s[i + 1]);
    }
    assert r in s <==> r == s[0] || r in s[1..] by {
      assert s == [s[0]] + s[1..];
    }
  }

  /** Sorting, as sort.Slice does it up to the choice of algorithm. */
  function Insert(r: Row, sorted: seq<Row>): seq<Row>
  {
    if sorted == [] || Before(r, sorted[0]) then [r] + sorted
    else [sorted[0]] + Insert(r, sorted[1..])
  }

  lemma {:induction false} InsertKeepsOrder(r: Row, sorted: seq<Row>)
    requires Ordered(sorted) && forall i :: 0 <= i < |sorted| ==> sorted[i].model != r.model
    ensures Ordered(Insert(r, sorted))
    ensures forall x :: x in Insert(r, sorted) <==> x == r || x in sorted
  {
    if sorted != [] {
      var h, t := sorted[0], sorted[1..];
      assert sorted == [h] + t;
      if Before(r, h) {
        forall j | 0 <= j < |sorted|
          ensures Before(r, sorted[j])
        {
          if j > 0 {
            BeforeIsTransitive(r, h, sorted[j]);
          }
        }
      } else {
        LessIsTotal(r.model, h.model);
        InsertKeepsOrder(r, t);
        var s := Insert(r, t);
        forall j | 0 <= j < |s|
          ensures Before(h, s[j])
        {
          assert s[j] in s;
        }
        assert Insert(r, sorted) == [h] + s;
      }
    }
  }

  /** The rows of the models already visited. */
  ghost predicate Collected(m: map<string, Row>, rest: set<string>, rows: seq<Row>) {
    Ordered(rows) && forall r :: r in rows <==> r.model in m && r.model !in rest && m[r.model] == r
  }

  lemma CollectOne(m: map<string, Row>, rest: set<string>, rows: seq<Row>, k: string)
    requires Collected(m, rest, rows) && k in rest && k in m && m[k].model == k
    ensures Collected(m, rest - {k}, Insert(m[k], rows))
  {
    hide Insert, Before;
    forall i | 0 <= i < |rows|
      ensures rows[i].model != k
    {
      assert rows[i] in rows;
    }
    InsertKeepsOrder(m[k], rows);
  }

  lemma CollectedAll(m: map<string, Row>, rows: seq<Row>)
    requires Collected(m, {}, rows) && forall k :: k in m ==> m[k].model == k
    ensures IsReport(m, rows)
  {
    forall r
      ensures r in rows <==> r in m.Values
    {
      if r in m.Values {
        var k :| k in m && m[k] == r;
      }
    }
  }

  /** Report: the rows are collected in whatever order the map gives them, then sorted. */
  method ReportRows(rec: Recorder) returns (rows: seq<Row>)
    requires rec.Valid() && forall k :: k in rec.byModel ==> rec.byModel[k].model == k
    ensures IsReport(rec.Rows(), rows)
  {
    hide Insert, Ordered, IsReport, Collected;
    ghost var m := rec.Rows();
    rows := [];
    var rest := rec.byModel.Keys;
    assert rest == m.Keys;
    NothingCollected(m);
    while rest != {}
      invariant rest <= rec.byModel.Keys
      invariant Collected(m, rest, rows)
    {
      var k :| k in rest;
      CollectOne(m, rest, rows, k);
      rest := rest - {k};
      rows := Insert(rec.byModel[k].View(), rows);
    }
    CollectedAll(m, rows);
  }

  lemma NothingCollected(m: map<string, Row>)
    ensures Collected(m, m.Keys, [])
  {
  }

  datatype Rated = Rated(row: Row, rate: real)

  datatype Snapshot = Snapshot(totals: Totals, totalTokens: int, rate: real, byModel: seq<Rated>)

  /** The share of successes; 0 when there were no requests. */
  function Rate(success: int, total: int): real {
    if total > 0 then success as real / total as real else 0.0
  }

  function RatedRow(r: Row): Rated {
    Rated(r, Rate(r.success, r.total))
  }

  function RatedRows(rows: seq<Row>): seq<Rated> {
    seq(|rows|, i requires 0 <= i < |rows| => RatedRow(rows[i]))
  }

  /** The rate times all requests is the successes; 0 when there were no requests. */
  predicate IsShare(rate: real, success: int, total: int) {
    if total > 0 then rate * total as real == success as real else rate == 0.0
  }

  lemma RatesAreShares(success: int, total: int)
    ensures IsShare(Rate(success, total), success, total)
  {
    if total > 0 {
      Quotient(success as real, total as real);
    }
  }

  lemma Quotient(a: real, n: real)
    requires n > 0.0
    ensures a / n * n == a
  {
  }

  lemma ReportIsOrdered(m: map<string, Row>, rows: seq<Row>)
    requires IsReport(m, rows)
    ensures forall i, j :: 0 <= i < j < |rows| ==>
              rows[i].total > rows[j].total || (rows[i].total == rows[j].total && Less(rows[i].model, rows[j].model))
  {
    hide Less;
  }

  /** Report: the totals, and every model's row once, in strict order, with its share of successes. */
  method Report(rec: Recorder) returns (snap: Snapshot)
    requires rec.Valid() && forall k :: k in rec.byModel ==> rec.byModel[k].model == k
    ensures snap.totals == rec.totals && snap.totalTokens == Plus(rec.totals.prompt, rec.totals.completion)
    ensures IsShare(snap.rate, rec.totals.success, rec.totals.total)
    ensures exists rows :: IsReport(rec.Rows(), rows) && snap.byModel == RatedRows(rows)
    ensures forall x :: x in snap.byModel ==> IsShare(x.rate, x.row.success, x.row.total)
    ensures forall i, j :: 0 <= i < j < |snap.byModel| ==>
              var x, y := snap.byModel[i].row, snap.byModel[j].row;
              x.total > y.total || (x.total == y.total && Less(x.model, y.model))
  {
    hide Rate, IsReport, IsShare, Less;
    var rows := ReportRows(rec);
    ReportIsOrdered(rec.Rows(), rows);
    RatesAreShares(rec.totals.success, rec.totals.total);
    forall i | 0 <= i < |rows|
      ensures IsShare(RatedRow(rows[i]).rate, rows[i].success, rows[i].total)
    {
      RatesAreShares(rows[i].success, rows[i].total);
    }
    var rated := [];
    for i := 0 to |rows|
      invariant |rated| == i && forall j :: 0 <= j < i ==> rated[j] == RatedRow(rows[j])
    {
      rated := rated + [RatedRow(rows[i])];
    }
    assert rated == RatedRows(rows);
    snap := Snapshot(rec.totals, Plus(rec.totals.prompt, rec.totals.completion),
                     Rate(rec.totals.success, rec.totals.total), rated);
  }

  /** As long as the counters have not wrapped around, the reported share is the successes' share of all requests. */
  lemma RateIsShare(s: State)
    requires Consistent(s) && s.totals.success >= 0 && s.totals.failed >= 0
    requires Int64.Fits(s.totals.success + s.totals.failed)
    ensures var t := s.totals;
            && 0.0 <= Rate(t.success, t.total) <= 1.0
            && Rate(t.success, t.total) * (t.success + t.failed) as real == t.success as real
  {
    var a, n := s.totals.success, s.totals.total;
    assert n == a + s.totals.failed;
    if n > 0 {
      Share(a as real, n as real);
    }
  }

  lemma Share(a: real, n: real)
    requires 0.0 <= a <= n && n > 0.0
    ensures 0.0 <= a / n <= 1.0 && a / n * n == a
  {
  }
}
