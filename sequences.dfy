/** Order-preserving filtering of sequences, the shape of Rust's
    `iter().filter(..).collect()`, with the facts the landscape diffing
    relies on. */
module Sequences {

  function Elems<T>(s: seq<T>): set<T> {
    set x | x in s
  }

  predicate NoDuplicates<T(==)>(s: seq<T>) {
    forall i, j :: 0 <= i < j < |s| ==> s[i] != s[j]
  }

  /** `r` is obtained from `a` by deleting elements (order kept). The greedy
      match is complete: a subsequence can always take the earliest match. */
  predicate SubsequenceOf<T(==)>(r: seq<T>, a: seq<T>)
    decreases |a|
  {
    if |r| == 0 then true
    else if |a| == 0 then false
    else if r[0] == a[0] then SubsequenceOf(r[1..], a[1..])
    else SubsequenceOf(r, a[1..])
  }

  /** The elements `x` of `a` with `(x in s) == keep`, in their order in
      `a`: `keep` false is a filter by `!contains`, `keep` true by
      `contains`. */
  function Filter<T>(a: seq<T>, s: set<T>, keep: bool): seq<T>
    decreases |a|
  {
    if |a| == 0 then []
    else (if (a[0] in s) == keep then [a[0]] else []) + Filter(a[1..], s, keep)
  }

  /** Every selected element is kept with its full multiplicity, in order,
      and no other element survives; these facts determine the result. */
  lemma {:induction false} FilterContents<T(!new)>(a: seq<T>, s: set<T>, keep: bool)
    ensures forall x :: x in Filter(a, s, keep) <==> x in a && (x in s) == keep
    ensures forall x :: multiset(Filter(a, s, keep))[x] == if (x in s) == keep then multiset(a)[x] else 0
    ensures SubsequenceOf(Filter(a, s, keep), a)
    ensures NoDuplicates(a) ==> NoDuplicates(Filter(a, s, keep))
    decreases |a|
  {
    if |a| > 0 {
      var rest := Filter(a[1..], s, keep);
      FilterContents(a[1..], s, keep);
      assert a == [a[0]] + a[1..];
      assert multiset(a) == multiset{a[0]} + multiset(a[1..]);
      TailNoDuplicates(a);
      var r := Filter(a, s, keep);
      if (a[0] in s) == keep {
        assert r == [a[0]] + rest;
        assert r[1..] == rest;
        if NoDuplicates(a) {
          ConsNoDuplicates(a[0], rest);
        }
      } else {
        assert r == rest;
        if |rest| > 0 {
          assert rest[0] in rest;
        }
      }
    }
  }

  /** Filtering commutes with appending one element. */
  lemma {:induction false} FilterSnoc<T>(a: seq<T>, x: T, s: set<T>, keep: bool)
    ensures Filter(a + [x], s, keep) == Filter(a, s, keep) + (if (x in s) == keep then [x] else [])
    decreases |a|
  {
    if |a| == 0 {
      assert a + [x] == [x];
      assert [x][1..] == [];
    } else {
      var ax := a + [x];
      assert ax[0] == a[0];
      assert ax[1..] == a[1..] + [x];
      FilterSnoc(a[1..], x, s, keep);
    }
  }

  /** The tail of a sequence without duplicates has none, and does not
      contain the head. */
  lemma TailNoDuplicates<T>(a: seq<T>)
    requires |a| > 0
    ensures NoDuplicates(a) ==> NoDuplicates(a[1..]) && a[0] !in a[1..]
  {
    if NoDuplicates(a) {
      var tail := a[1..];
      forall i, j | 0 <= i < j < |tail|
        ensures tail[i] != tail[j]
      {
        assert tail[i] == a[i + 1] && tail[j] == a[j + 1];
      }
      forall k | 0 <= k < |tail|
        ensures tail[k] != a[0]
      {
        assert tail[k] == a[k + 1];
      }
    }
  }

  lemma ConsNoDuplicates<T>(x: T, s: seq<T>)
    requires NoDuplicates(s) && x !in s
    ensures NoDuplicates([x] + s)
  {
    var r := [x] + s;
    forall i, j | 0 <= i < j < |r|
      ensures r[i] != r[j]
    {
      assert r[j] == s[j - 1];
      if i > 0 {
        assert r[i] == s[i - 1];
      }
    }
  }

  lemma SnocNoDuplicates<T>(s: seq<T>, x: T)
    requires NoDuplicates(s) && x !in s
    ensures NoDuplicates(s + [x])
  {
    var r := s + [x];
    forall i, j | 0 <= i < j < |r|
      ensures r[i] != r[j]
    {
      assert r[i] == s[i];
      if j < |s| {
        assert r[j] == s[j];
      }
    }
  }
}
