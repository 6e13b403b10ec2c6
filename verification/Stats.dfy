/** internal/stats/stats.go: request counters, kept globally and per model, in 64-bit arithmetic. */
module Stats {
  import opened Arith
  import Int64

  datatype Row = Row(model: string, total: int, success: int, failed: int, prompt: int, completion: int)

  datatype Totals = Totals(startedAt: int, total: int, success: int, failed: int, prompt: int, completion: int)

  datatype State = State(totals: Totals, rows: map<string, Row>)

  datatype Event = Tokens(model: string, prompt: int, completion: int, now: int) | Failure(model: string, now: int)

  function Name(model: string): string { if model == "" then "unknown" else model }

  function RowOf(rows: map<string, Row>, k: string): Row {
    if k in rows then rows[k] else Row(k, 0, 0, 0, 0, 0)
  }

  function Plus(x: int, d: int): int { Int64.Wrap(x + d) }

  function RowAfter(r: Row, e: Event): Row {
    match e
    case Tokens(_, p, c, _) =>
      r.(total := Plus(r.total, 1), success := Plus(r.success, 1),
         prompt := Plus(r.prompt, NonNegative(p)), completion := Plus(r.completion, NonNegative(c)))
    case Failure(_, _) =>
      r.(total := Plus(r.total, 1), failed := Plus(r.failed, 1))
  }

  function TotalsAfter(t: Totals, e: Event): Totals {
    var u := if t.startedAt == 0 then t.(startedAt := e.now) else t;
    match e
    case Tokens(_, p, c, _) =>
      u.(total := Plus(u.total, 1), success := Plus(u.success, 1),
         prompt := Plus(u.prompt, NonNegative(p)), completion := Plus(u.completion, NonNegative(c)))
    case Failure(_, _) =>
      u.(total := Plus(u.total, 1), failed := Plus(u.failed, 1))
  }

  function After(s: State, e: Event): State {
    var k := Name(e.model);
    State(TotalsAfter(s.totals, e), s.rows[k := RowAfter(RowOf(s.rows, k), e)])
  }

  // ---- the recorder ---------------------------------------------------------

  class ModelRow {
    const model: string
    var total: int
    var success: int
    var failed: int
    var prompt: int
    var completion: int

    constructor (model: string)
      ensures View() == Row(model, 0, 0, 0, 0, 0)
    {
      this.model := model;
      total, success, failed, prompt, completion := 0, 0, 0, 0, 0;
    }

    function View(): Row
      reads this
    {
      Row(model, total, success, failed, prompt, completion)
    }

    method CountTokens(p: int, c: int)
      modifies this
      ensures forall m, now :: View() == RowAfter(old(View()), Tokens(m, p, c, now))
    {
      total := Plus(total, 1);
      success := Plus(success, 1);
      prompt := Plus(prompt, NonNegative(p));
      completion := Plus(completion, NonNegative(c));
    }

    method CountFailure()
      modifies this
      ensures forall m, now :: View() == RowAfter(old(View()), Failure(m, now))
    {
      total := Plus(total, 1);
      failed := Plus(failed, 1);
    }
  }

  class Recorder {
    var totals: Totals
    var byModel: map<string, ModelRow>
    var dirty: bool

    ghost predicate Valid()
      reads this`byModel
    {
      forall k, l :: k in byModel && l in byModel && byModel[k] == byModel[l] ==> k == l
    }

    ghost function Rows(): map<string, Row>
      reads this`byModel, byModel.Values
    {
      map k | k in byModel :: byModel[k].View()
    }

    ghost function View(): State
      reads this, byModel.Values
    {
      State(totals, Rows())
    }

    constructor ()
      ensures Valid() && View() == State(Totals(0, 0, 0, 0, 0, 0), map[]) && !dirty
    {
      totals, byModel, dirty := Totals(0, 0, 0, 0, 0, 0), map[], false;
    }

    twostate lemma OneRowChanged(k: string)
      requires old(Valid()) && byModel == old(byModel) && k in byModel
      requires forall l :: l in byModel && l != k ==> unchanged(byModel[l])
      ensures Rows() == old(Rows())[k := byModel[k].View()]
    {
    }

    method GetOrCreateModel(model: string) returns (m: ModelRow)
      requires Valid()
      modifies this`byModel
      ensures Valid() && fresh(byModel.Values - old(byModel.Values))
      ensures Name(model) in byModel && m == byModel[Name(model)]
      ensures m.View() == RowOf(old(Rows()), Name(model))
      ensures Rows() == old(Rows())[Name(model) := RowOf(old(Rows()), Name(model))]
    {
      var k := if model == "" then "unknown" else model;
      if k in byModel {
        m := byModel[k];
      } else {
        m := new ModelRow(k);
        byModel := byModel[k := m];
      }
    }

    method RecordTokens(model: string, prompt: int, completion: int, now: int)
      requires Valid()
      modifies this, byModel.Values
      ensures Valid() && fresh(byModel.Values - old(byModel.Values))
      ensures View() == After(old(View()), Tokens(model, prompt, completion, now)) && dirty
    {
      hide Plus, NonNegative, RowAfter, RowOf;
      RowTokens(model, prompt, completion);
      var t := if totals.startedAt == 0 then totals.(startedAt := now) else totals;
      totals := t.(total := Plus(t.total, 1), success := Plus(t.success, 1),
                   prompt := Plus(t.prompt, NonNegative(prompt)),
                   completion := Plus(t.completion, NonNegative(completion)));
      dirty := true;
    }

    method AddFailure(model: string, now: int)
      requires Valid()
      modifies this, byModel.Values
      ensures Valid() && fresh(byModel.Values - old(byModel.Values))
      ensures View() == After(old(View()), Failure(model, now)) && dirty
    {
      hide Plus, RowAfter, RowOf;
      var name := if model == "" then "unknown" else model;
      RowFailure(name);
      var t := if totals.startedAt == 0 then totals.(startedAt := now) else totals;
      totals := t.(total := Plus(t.total, 1), failed := Plus(t.failed, 1));
      dirty := true;
    }

    method RowTokens(model: string, prompt: int, completion: int)
      requires Valid()
      modifies this`byModel, byModel.Values
      ensures Valid() && fresh(byModel.Values - old(byModel.Values))
      ensures forall m, now :: var k := Name(model);
                Rows() == old(Rows())[k := RowAfter(RowOf(old(Rows()), k), Tokens(m, prompt, completion, now))]
    {
      hide RowAfter, RowOf, Name, Rows, ModelRow.View;
      var m := GetOrCreateModel(model);
      label ready:
      m.CountTokens(prompt, completion);
      OneRowChanged@ready(Name(model));
    }

    method RowFailure(model: string)
      requires Valid()
      modifies this`byModel, byModel.Values
      ensures Valid() && fresh(byModel.Values - old(byModel.Values))
      ensures forall m, now :: var k := Name(model);
                Rows() == old(Rows())[k := RowAfter(RowOf(old(Rows()), k), Failure(m, now))]
    {
      hide RowAfter, RowOf, Name, Rows, ModelRow.View;
      var m := GetOrCreateModel(model);
      label ready:
      m.CountFailure();
      OneRowChanged@ready(Name(model));
    }
  }
}
