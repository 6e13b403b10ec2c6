/** internal/checkin/checkin.go: a bounded log of check-ins, read newest first and by pages. */
module CheckinLog {
  import opened Options
  import Int64

  datatype Record = Record(time: int, uid: string, nickname: string, status: string, message: string,
                           before: int, after: int, gained: int)

  const MAX_RECORDS: nat := 500

  /** The last n elements. */
  function LastN<T>(h: seq<T>, n: nat): (r: seq<T>)
    ensures |r| <= n
  {
    if |h| > n then h[|h| - n..] else h
  }

  function Reversed<T>(s: seq<T>): (r: seq<T>)
    ensures |r| == |s|
  {
    if s == [] then [] else [s[|s| - 1]] + Reversed(s[..|s| - 1])
  }

  lemma {:induction false} ReversedConcat<T>(a: seq<T>, b: seq<T>)
    ensures Reversed(a + b) == Reversed(b) + Reversed(a)
  {
    if b == [] {
      assert a + b == a;
    } else {
      assert (a + b)[..|a + b| - 1] == a + b[..|b| - 1];
      ReversedConcat(a, b[..|b| - 1]);
    }
  }

  lemma {:induction false} ReversedAt<T>(s: seq<T>, i: nat)
    requires i < |s|
    ensures Reversed(s)[i] == s[|s| - 1 - i]
  {
    if i > 0 {
      ReversedAt(s[..|s| - 1], i - 1);
    }
  }

  predicate Skips(exclude: seq<string>, status: string) {
    status != "" && status in exclude
  }

  /** The records whose status is not excluded; empty names exclude nothing. */
  function Kept(rs: seq<Record>, exclude: seq<string>): (k: seq<Record>)
    ensures |k| <= |rs|
  {
    if rs == [] then []
    else Kept(rs[..|rs| - 1], exclude) + if Skips(exclude, rs[|rs| - 1].status) then [] else [rs[|rs| - 1]]
  }

  /** The list holds, in order, the records at these positions, which are those whose status is not among the names. */
  predicate Selects(rs: seq<Record>, exclude: seq<string>, kept: seq<Record>, at: seq<nat>) {
    && |at| == |kept|
    && (forall i, j :: 0 <= i < j < |at| ==> at[i] < at[j])
    && (forall j :: 0 <= j < |at| ==> at[j] < |rs| && kept[j] == rs[at[j]])
    && (forall i: nat :: i < |rs| ==> (i in at <==> rs[i].status == "" || rs[i].status !in exclude))
  }

  lemma SelectsMore(rs: seq<Record>, r: Record, exclude: seq<string>, kept: seq<Record>, at: seq<nat>)
    requires Selects(rs, exclude, kept, at)
    ensures if r.status == "" || r.status !in exclude then Selects(rs + [r], exclude, kept + [r], at + [|rs|])
            else Selects(rs + [r], exclude, kept, at)
  {
    var all := rs + [r];
    assert forall i: nat :: i < |rs| ==> all[i] == rs[i];
    assert |rs| !in at;
    assert forall i: nat :: i in at + [|rs|] <==> i in at || i == |rs|;
  }

  /** The kept records are just those, in order, whose status is not among the non-empty names. */
  lemma {:induction false} KeptExactly(rs: seq<Record>, exclude: seq<string>) returns (at: seq<nat>)
    ensures Selects(rs, exclude, Kept(rs, exclude), at)
  {
    if rs == [] {
      at := [];
    } else {
      hide Selects;
      var init, r := rs[..|rs| - 1], rs[|rs| - 1];
      assert rs == init + [r];
      at := KeptExactly(init, exclude);
      SelectsMore(init, r, exclude, Kept(init, exclude), at);
      if r.status == "" || r.status !in exclude {
        at := at + [|init|];
      }
    }
  }

  lemma {:induction false} NothingExcluded(rs: seq<Record>, exclude: seq<string>)
    requires forall s :: s in exclude ==> s == ""
    ensures Kept(rs, exclude) == rs
  {
    if rs != [] {
      NothingExcluded(rs[..|rs| - 1], exclude);
      assert rs == rs[..|rs| - 1] + [rs[|rs| - 1]];
    }
  }

  /** Page `page` of the records, newest first: what paging is for. */
  function PageOf(rs: seq<Record>, page: int, size: int): seq<Record>
    requires page >= 1 && size >= 1
  {
    var end := |rs| - (page - 1) * size;
    Bounded(page, size);
    if end <= 0 then [] else Reversed(rs[if end < size then 0 else end - size..end])
  }

  lemma Bounded(page: int, size: int)
    requires page >= 1 && size >= 1
    ensures (page - 1) * size >= 0
  {
  }

  /** Page's result; an index out of range panics. */
  datatype Paged = Panic | Rows(records: seq<Record>, total: int)

  class Store {
    const persistent: bool
    const max: nat
    var records: seq<Record>
    var file: Option<seq<Record>>

    constructor Load(persistent: bool, file: Option<seq<Record>>, max: int)
      ensures this.persistent == persistent && this.max == if max <= 0 then 500 else max
      ensures records == if persistent && file.Some? then LastN(file.value, this.max) else []
      ensures this.file == file
    {
      var limit: nat := if max <= 0 then MAX_RECORDS else max;
      this.persistent, this.max, this.file := persistent, limit, file;
      var loaded := if persistent && file.Some? then file.value else [];
      if |loaded| > limit {
        loaded := loaded[|loaded| - limit..];
      }
      records := loaded;
    }

    method Add(r: Record)
      modifies this
      ensures records == LastN(old(records) + [r], max)
      ensures file == if persistent then Some(records) else old(file)
    {
      records := records + [r];
      if |records| > max {
        records := records[|records| - max..];
      }
      if persistent {
        file := Some(records);
      }
    }

    method List(limit: int) returns (out: seq<Record>)
      ensures out == Reversed(LastN(records, if limit <= 0 then |records| else limit))
    {
      var n := limit;
      if n <= 0 || n > |records| {
        n := |records|;
      }
      out := [];
      ghost var wanted := LastN(records, if limit <= 0 then |records| else limit);
      for i := 0 to n
        invariant |out| == i && forall j :: 0 <= j < i ==> out[j] == records[|records| - 1 - j]
      {
        out := out + [records[|records| - 1 - i]];
      }
      NewestFirst(wanted, out);
    }

    /** filterRecordsLocked. */
    method Filter(exclude: seq<string>) returns (out: seq<Record>)
      ensures out == Kept(records, exclude)
    {
      var skip := set s | s in exclude && s != "";
      if skip == {} {
        NothingSkipped(exclude, skip);
        NothingExcluded(records, exclude);
        return records;
      }
      out := [];
      for i := 0 to |records|
        invariant out == Kept(records[..i], exclude)
      {
        assert records[..i + 1][..i] == records[..i];
        if records[i].status !in skip {
          out := out + [records[i]];
        }
      }
      assert records[..|records|] == records;
    }

    /** Page, in 64-bit arithmetic. */
    method Page(page: int, size: int, exclude: seq<string>) returns (r: Paged)
      requires Int64.Fits(page) && Int64.Fits(size) && |records| <= Int64.MAX
      ensures r == PageResult(Kept(records, exclude), if page < 1 then 1 else page, if size <= 0 then 50 else size)
    {
      hide PageResult;
      var p := page;
      if p < 1 {
        p := 1;
      }
      var n := size;
      if n <= 0 {
        n := 50;
      }
      r := PageAt(p, n, exclude);
    }

    /** A page by a positive number and size. */
    method PageAt(p: int, n: int, exclude: seq<string>) returns (r: Paged)
      requires p >= 1 && 1 <= n <= Int64.MAX && |records| <= Int64.MAX
      ensures r == PageResult(Kept(records, exclude), p, n)
    {
      hide Int64.Wrap, Reversed, Kept;
      var filtered := Filter(exclude);
      var total := |filtered|;
      if total == 0 {
        return Rows([], 0);
      }
      var end := Int64.Wrap(total - Int64.Wrap((p - 1) * n));
      if end <= 0 {
        return Rows([], total);
      }
      var start := Int64.Wrap(end - n);
      if start < 0 {
        start := 0;
      }
      if end > total {
        return Panic;
      }
      var out := CopyBackwards(filtered, start, end);
      r := Rows(out, total);
    }
  }

  lemma NothingSkipped(exclude: seq<string>, skip: set<string>)
    requires skip == (set s | s in exclude && s != "") && skip == {}
    ensures forall s :: s in exclude ==> s == ""
  {
    assert forall s :: s in exclude && s != "" ==> s in skip;
  }

  lemma NewestFirst(wanted: seq<Record>, out: seq<Record>)
    requires |out| == |wanted| && forall j :: 0 <= j < |out| ==> out[j] == wanted[|wanted| - 1 - j]
    ensures out == Reversed(wanted)
  {
    hide Reversed;
    forall i | 0 <= i < |out|
      ensures out[i] == Reversed(wanted)[i]
    {
      ReversedAt(wanted, i);
    }
  }

  /** The loop of Page, from the newest wanted record to the oldest. */
  method CopyBackwards(rs: seq<Record>, start: int, end: int) returns (out: seq<Record>)
    requires 0 <= start <= end <= |rs|
    ensures out == Reversed(rs[start..end])
  {
    out := [];
    var i := end - 1;
    while i >= start
      invariant start - 1 <= i < end
      invariant out == Reversed(rs[i + 1..end])
    {
      ReversedConcat([rs[i]], rs[i + 1..end]);
      assert [rs[i]] + rs[i + 1..end] == rs[i..end];
      assert Reversed([rs[i]]) == [rs[i]];
      out := out + [rs[i]];
      i := i - 1;
    }
  }

  /** What the 64-bit computation yields. */
  function PageResult(rs: seq<Record>, page: int, size: int): Paged
    requires page >= 1 && 1 <= size <= Int64.MAX
  {
    var end := Int64.Wrap(|rs| - Int64.Wrap((page - 1) * size));
    if |rs| == 0 || end <= 0 then Rows([], |rs|)
    else if end > |rs| then Panic
    else Rows(Reversed(rs[if end < size then 0 else end - size..end]), |rs|)
  }

  // ---- the log over its whole life ---------------------------------------------

  function AddAll(records: seq<Record>, added: seq<Record>, max: nat): seq<Record>
  {
    if added == [] then records
    else LastN(AddAll(records, added[..|added| - 1], max) + [added[|added| - 1]], max)
  }

  lemma LastNOfLastN<T>(h: seq<T>, r: T, n: nat)
    ensures LastN(LastN(h, n) + [r], n) == LastN(h + [r], n)
  {
  }

  /** After loading and any additions, the log holds exactly the last `max` records of the full history. */
  lemma {:induction false} HoldsLastOfHistory(loaded: seq<Record>, added: seq<Record>, max: nat)
    ensures AddAll(LastN(loaded, max), added, max) == LastN(loaded + added, max)
  {
    if added == [] {
      assert loaded + added == loaded;
    } else {
      var init, r := added[..|added| - 1], added[|added| - 1];
      HoldsLastOfHistory(loaded, init, max);
      LastNOfLastN(loaded + init, r, max);
      assert loaded + init + [r] == loaded + added;
    }
  }

  // ---- paging --------------------------------------------------------------

  /** In 64 bits, Page gives the wanted page exactly when the start position does not overflow, or the overflow still
      lands beyond the oldest record. */
  lemma PageCorrectExactly(rs: seq<Record>, page: int, size: int)
    requires page >= 1 && 1 <= size <= Int64.MAX && |rs| <= Int64.MAX
    ensures var p := (page - 1) * size;
            PageResult(rs, page, size) == Rows(PageOf(rs, page, size), |rs|)
            <==> |rs| == 0 || Int64.Fits(p) || Int64.Wrap(|rs| - Int64.Wrap(p)) <= 0
  {
    Bounded(page, size);
    var p := (page - 1) * size;
    var end := Int64.Wrap(|rs| - Int64.Wrap(p));
    if !Int64.Fits(p) && |rs| > 0 && 0 < end <= |rs| {
      assert |Reversed(rs[if end < size then 0 else end - size..end])| > 0;
    }
  }

  /** A page number for which the start overflows: with 200 records a page, the index panics. */
  lemma PagePanics(rs: seq<Record>)
    requires 0 < |rs| <= MAX_RECORDS
    ensures PageResult(rs, 60_000_000_000_000_001, 200) == Panic
    ensures PageOf(rs, 60_000_000_000_000_001, 200) == []
  {
    hide Int64.Wrap, Reversed;
    FarTurn();
  }

  lemma FarTurn()
    ensures Int64.Wrap(60_000_000_000_000_000 * 200) == 60_000_000_000_000_000 * 200 - Int64.SPAN
    ensures Int64.Wrap(0x1000_0000_0000_0000 * 16) == 0
  {
  }

  /** With 16 records a page, the same overflow shows the newest records instead of none. */
  lemma PageWrapsAround(rs: seq<Record>)
    requires 0 < |rs| <= MAX_RECORDS
    ensures PageResult(rs, 0x1000_0000_0000_0001, 16) == PageResult(rs, 1, 16)
    ensures PageResult(rs, 1, 16) != Rows([], |rs|) == Rows(PageOf(rs, 0x1000_0000_0000_0001, 16), |rs|)
  {
    hide Int64.Wrap, Reversed;
    FarTurn();
    assert |Reversed(rs[if |rs| < 16 then 0 else |rs| - 16..|rs|])| > 0;
  }

  function PageStart(rs: seq<Record>, pages: nat, size: nat): (n: nat)
    ensures n <= |rs|
  {
    if pages * size > |rs| then 0 else |rs| - pages * size
  }

  /** The first pages, one after the other. */
  function FirstPages(rs: seq<Record>, pages: nat, size: nat): seq<Record>
    requires size >= 1
  {
    if pages == 0 then [] else FirstPages(rs, pages - 1, size) + PageOf(rs, pages, size)
  }

  /** Pages put together give the records in reverse, as far back as they reach. */
  lemma {:induction false} PagesJoinUp(rs: seq<Record>, pages: nat, size: nat)
    requires size >= 1
    ensures FirstPages(rs, pages, size) == Reversed(rs[PageStart(rs, pages, size)..])
  {
    hide PageOf, PageStart, Reversed;
    if pages == 0 {
      NoPages(rs, size);
    } else {
      PagesJoinUp(rs, pages - 1, size);
      var end, start := PageStart(rs, pages - 1, size), PageStart(rs, pages, size);
      OnePage(rs, pages, size);
      assert rs[start..] == rs[start..end] + rs[end..];
      ReversedConcat(rs[start..end], rs[end..]);
    }
  }

  lemma NoPages(rs: seq<Record>, size: nat)
    ensures PageStart(rs, 0, size) == |rs| && Reversed(rs[|rs|..]) == []
  {
  }

  lemma OnePage(rs: seq<Record>, pages: nat, size: nat)
    requires size >= 1 && pages >= 1
    ensures PageStart(rs, pages, size) <= PageStart(rs, pages - 1, size)
    ensures PageOf(rs, pages, size) == Reversed(rs[PageStart(rs, pages, size)..PageStart(rs, pages - 1, size)])
  {
    assert pages * size == (pages - 1) * size + size;
  }

  /** Enough pages show every kept record once, newest first; later pages are empty. */
  lemma PagesCoverLog(rs: seq<Record>, exclude: seq<string>, pages: nat, size: nat)
    requires size >= 1 && pages * size >= |Kept(rs, exclude)|
    ensures FirstPages(Kept(rs, exclude), pages, size) == Reversed(Kept(rs, exclude))
    ensures PageOf(Kept(rs, exclude), pages + 1, size) == []
  {
    var k := Kept(rs, exclude);
    hide Kept;
    PagesJoinUp(k, pages, size);
    assert k[0..] == k;
  }

  /** The first page of k records is the list of the k newest. */
  lemma FirstPageIsList(rs: seq<Record>, k: nat)
    requires k >= 1
    ensures PageOf(Kept(rs, []), 1, k) == Reversed(LastN(rs, k))
  {
    hide Kept, Reversed, PageOf;
    NothingExcluded(rs, []);
    FirstPageIs(rs, k);
    if |rs| <= k {
      assert rs[0..|rs|] == rs;
    } else {
      assert rs[|rs| - k..|rs|] == rs[|rs| - k..];
    }
  }

  lemma FirstPageIs(rs: seq<Record>, k: nat)
    requires k >= 1
    ensures PageOf(rs, 1, k) == Reversed(rs[if |rs| < k then 0 else |rs| - k..|rs|])
  {
    assert 0 * k == 0;
    if rs == [] {
      assert rs[0..0] == [];
    }
  }
}
