/** First, last and concatenated strings of a sequence of objects, and lists in ascending order. */
module Folds {
  import opened Options
  import opened Json

  /** The first non-empty string under a key, or "". */
  function FirstStr(os: seq<Fields>, key: string): string
  {
    if os == [] then ""
    else
      var r := FirstStr(os[..|os| - 1], key);
      if r != "" then r else StrAt(os[|os| - 1], key)
  }

  /** The last non-empty string under a key, or "". */
  function LastStr(os: seq<Fields>, key: string): string
  {
    if os == [] then "" else Later(LastStr(os[..|os| - 1], key), StrAt(os[|os| - 1], key))
  }

  function Later(earlier: string, later: string): string {
    if later != "" then later else earlier
  }

  /** All strings under a key, concatenated. */
  function ConcatStr(os: seq<Fields>, key: string): string
  {
    if os == [] then "" else ConcatStr(os[..|os| - 1], key) + StrAt(os[|os| - 1], key)
  }

  /** The objects found under a key, in order. */
  function Sub(os: seq<Fields>, key: string): seq<Fields>
  {
    if os == [] then []
    else
      Sub(os[..|os| - 1], key) + match ObjAt(os[|os| - 1], key) case None => [] case Some(o) => [o]
  }

  lemma {:induction false} FirstIsFirst(os: seq<Fields>, key: string)
    ensures FirstStr(os, key) == "" <==> forall i :: 0 <= i < |os| ==> StrAt(os[i], key) == ""
    ensures FirstStr(os, key) != "" ==>
              exists i :: 0 <= i < |os| && StrAt(os[i], key) == FirstStr(os, key) &&
                          forall j :: 0 <= j < i ==> StrAt(os[j], key) == ""
  {
    if os != [] {
      FirstIsFirst(os[..|os| - 1], key);
    }
  }

  lemma {:induction false} LastIsLast(os: seq<Fields>, key: string)
    ensures LastStr(os, key) == "" <==> forall i :: 0 <= i < |os| ==> StrAt(os[i], key) == ""
    ensures LastStr(os, key) != "" ==>
              exists i :: 0 <= i < |os| && StrAt(os[i], key) == LastStr(os, key) &&
                          forall j :: i < j < |os| ==> StrAt(os[j], key) == ""
  {
    if os != [] {
      LastIsLast(os[..|os| - 1], key);
    }
  }

  ghost predicate Ascending(s: seq<int>) {
    forall i, j :: 0 <= i < j < |s| ==> s[i] < s[j]
  }

  /** A set has only one ascending listing. */
  lemma {:induction false} AscendingIsUnique(s: seq<int>, t: seq<int>)
    requires Ascending(s) && Ascending(t)
    requires forall x :: x in s <==> x in t
    ensures s == t
  {
    LastIsIn(s);
    LastIsIn(t);
    if s != [] {
      var a, b := |s| - 1, |t| - 1;
      assert s[a] == t[b];
      forall x
        ensures x in s[..a] <==> x in t[..b]
      {
        assert x in s[..a] <==> x in s && x != s[a];
        assert x in t[..b] <==> x in t && x != t[b];
      }
      AscendingIsUnique(s[..a], t[..b]);
    }
  }

  lemma LastIsIn(s: seq<int>)
    ensures s != [] ==> s[|s| - 1] in s
  {
  }

  // ---- sortInts ---------------------------------------------------------

  /** The first n places hold their final values. */
  ghost predicate Settled(s: seq<int>, n: int) {
    forall p, q :: 0 <= p < q < |s| && p < n ==> s[p] <= s[q]
  }

  /** Place i holds the least of places i..j. */
  ghost predicate LeastUpTo(s: seq<int>, i: int, j: int) {
    forall q :: 0 <= i < q < j <= |s| ==> s[i] <= s[q]
  }

  lemma ExchangeSettles(s: seq<int>, i: int, j: int)
    requires 0 <= i < j < |s| && s[j] < s[i]
    requires Settled(s, i) && LeastUpTo(s, i, j)
    ensures Settled(s[i := s[j]][j := s[i]], i) && LeastUpTo(s[i := s[j]][j := s[i]], i, j + 1)
    ensures multiset(s[i := s[j]][j := s[i]]) == multiset(s)
  {
  }

  lemma PlaceSettles(s: seq<int>, i: int)
    requires 0 <= i < |s| && Settled(s, i) && LeastUpTo(s, i, |s|)
    ensures Settled(s, i + 1)
  {
  }

  method Exchange(a: array<int>, i: int, j: int)
    requires 0 <= i < j < a.Length
    modifies a
    ensures a[..] == old(a[..][i := a[j]][j := a[i]])
  {
    a[i], a[j] := a[j], a[i];
  }

  /** Exchange sort in place. */
  method SortInts(a: array<int>)
    modifies a
    ensures Settled(a[..], a.Length)
    ensures multiset(a[..]) == old(multiset(a[..]))
  {
    hide *;
    var i := 0;
    assert Settled(a[..], 0) by { SettledZero(a[..]); }
    while i < a.Length - 1
      invariant 0 <= i && (i < a.Length || i == 0)
      invariant Settled(a[..], i)
      invariant multiset(a[..]) == old(multiset(a[..]))
    {
      var j := i + 1;
      LeastOfOne(a[..], i);
      while j < a.Length
        invariant i < j <= a.Length
        invariant Settled(a[..], i) && LeastUpTo(a[..], i, j)
        invariant multiset(a[..]) == old(multiset(a[..]))
      {
        LeastOfOneMore(a[..], i, j);
        if a[j] < a[i] {
          ExchangeSettles(a[..], i, j);
          Exchange(a, i, j);
        }
        j := j + 1;
      }
      PlaceSettles(a[..], i);
      i := i + 1;
    }
    LastPlaceSettles(a[..], i);
  }

  lemma SettledZero(s: seq<int>)
    ensures Settled(s, 0)
  {
  }

  lemma LeastOfOne(s: seq<int>, i: int)
    ensures LeastUpTo(s, i, i + 1)
  {
  }

  lemma LeastOfOneMore(s: seq<int>, i: int, j: int)
    requires 0 <= i < j < |s| && LeastUpTo(s, i, j)
    ensures s[i] <= s[j] ==> LeastUpTo(s, i, j + 1)
  {
  }

  lemma LastPlaceSettles(s: seq<int>, i: int)
    requires Settled(s, i) && i >= |s| - 1
    ensures Settled(s, |s|)
  {
  }
}
