/**
 * `Array.prototype.sort(cmp)`, which the dashboard always calls with a comparator.
 * JavaScript's sort is stable; it is modelled as an insertion sort that places each
 * element before the first later-sorted element it does not follow, where
 * `le(a, b)` stands for `cmp(a, b) <= 0`.
 */
module Sorting {
  import opened Common

  /** `s` is ordered by `le`: every earlier element is `le` every later one. */
  predicate Sorted<T>(s: seq<T>, le: (T, T) -> bool) {
    forall i, j :: 0 <= i < j < |s| ==> le(s[i], s[j])
  }

  /** Any two values are comparable. */
  ghost predicate Total<T(!new)>(le: (T, T) -> bool) {
    forall a, b :: le(a, b) || le(b, a)
  }

  ghost predicate Transitive<T(!new)>(le: (T, T) -> bool) {
    forall a, b, c :: le(a, b) && le(b, c) ==> le(a, c)
  }

  /** Puts `x` in front of the first element of `s` that `x` is `le`. */
  function Insert<T>(x: T, s: seq<T>, le: (T, T) -> bool): (r: seq<T>)
    ensures |r| == |s| + 1
    ensures multiset(r) == multiset(s) + multiset{x}
    decreases |s|
  {
    if s == [] then [x]
    else if le(x, s[0]) then [x] + s
    else
      assert s == [s[0]] + s[1..];
      [s[0]] + Insert(x, s[1..], le)
  }

  /** A sorted copy of `s`: `[...s].sort(cmp)`. */
  function SortBy<T>(s: seq<T>, le: (T, T) -> bool): (r: seq<T>)
    ensures |r| == |s|
    ensures multiset(r) == multiset(s)
    decreases |s|
  {
    if s == [] then []
    else
      assert s == [s[0]] + s[1..];
      Insert(s[0], SortBy(s[1..], le), le)
  }

  /** Inserting into a sorted sequence keeps it sorted. */
  lemma {:induction false} InsertSorted<T(!new)>(x: T, s: seq<T>, le: (T, T) -> bool)
    requires Total(le) && Transitive(le)
    requires Sorted(s, le)
    ensures Sorted(Insert(x, s, le), le)
    decreases |s|
  {
    if s != [] && !le(x, s[0]) {
      var tail := s[1..];
      SortedTail(s, le);
      InsertSorted(x, tail, le);
      var rt := Insert(x, tail, le);
      forall y | y in rt
        ensures le(s[0], y)
      {
        assert y in multiset(rt);
        if y != x {
          assert y in tail;
          var k :| 0 <= k < |tail| && tail[k] == y;
          assert s[k + 1] == y;
        }
      }
      SortedCons(s[0], rt, le);
    }
  }

  lemma SortedTail<T>(s: seq<T>, le: (T, T) -> bool)
    requires Sorted(s, le) && s != []
    ensures Sorted(s[1..], le)
  {
    forall i, j | 0 <= i < j < |s| - 1
      ensures le(s[1..][i], s[1..][j])
    {
      assert s[1..][i] == s[i + 1] && s[1..][j] == s[j + 1];
    }
  }

  /** A sorted sequence stays sorted behind a head that comes no later than any of its elements. */
  lemma SortedCons<T>(h: T, t: seq<T>, le: (T, T) -> bool)
    requires Sorted(t, le)
    requires forall y :: y in t ==> le(h, y)
    ensures Sorted([h] + t, le)
  {
    var r := [h] + t;
    forall i, j | 0 <= i < j < |r|
      ensures le(r[i], r[j])
    {
      assert r[j] == t[j - 1];
      if i > 0 {
        assert r[i] == t[i - 1];
      }
    }
  }

  /** The result of `SortBy` is sorted. */
  lemma {:induction false} SortBySorted<T(!new)>(s: seq<T>, le: (T, T) -> bool)
    requires Total(le) && Transitive(le)
    ensures Sorted(SortBy(s, le), le)
    decreases |s|
  {
    if s != [] {
      SortBySorted(s[1..], le);
      InsertSorted(s[0], SortBy(s[1..], le), le);
    }
  }

  /** Sorting a sequence that is already in order returns it unchanged. */
  lemma {:induction false} SortBySortedInput<T>(s: seq<T>, le: (T, T) -> bool)
    requires Sorted(s, le)
    ensures SortBy(s, le) == s
    decreases |s|
  {
    if s != [] {
      SortedTail(s, le);
      SortBySortedInput(s[1..], le);
      if |s| > 1 {
        assert le(s[0], s[1]);
      }
      assert s == [s[0]] + s[1..];
    }
  }

  /** Sorting does not change a sum over the sequence. */
  lemma {:induction false} SumSortBy<T>(s: seq<T>, le: (T, T) -> bool, f: T -> int)
    ensures Sum(SortBy(s, le), f) == Sum(s, f)
    decreases |s|
  {
    if s != [] {
      SumSortBy(s[1..], le, f);
      SumInsert(s[0], SortBy(s[1..], le), le, f);
      SumHead(s, f);
    }
  }

  /** A sum is its first term plus the sum of the rest. */
  lemma SumHead<T>(s: seq<T>, f: T -> int)
    requires s != []
    ensures Sum(s, f) == f(s[0]) + Sum(s[1..], f)
  {
    SumConcat([s[0]], s[1..], f);
    assert [s[0]] + s[1..] == s;
    assert Sum([s[0]], f) == f(s[0]) by {
      assert [s[0]][..0] == [];
    }
  }

  lemma {:induction false} SumInsert<T>(x: T, s: seq<T>, le: (T, T) -> bool, f: T -> int)
    ensures Sum(Insert(x, s, le), f) == Sum(s, f) + f(x)
    decreases |s|
  {
    assert Sum([x], f) == f(x) by {
      assert [x][..0] == [];
    }
    if s == [] {
    } else if le(x, s[0]) {
      SumConcat([x], s, f);
    } else {
      SumInsert(x, s[1..], le, f);
      SumConcat([s[0]], Insert(x, s[1..], le), f);
      SumConcat([s[0]], s[1..], f);
      assert [s[0]] + s[1..] == s;
      assert Sum([s[0]], f) == f(s[0]) by {
        assert [s[0]][..0] == [];
      }
    }
  }

  /** No two elements of `s` share a value of `f`. */
  predicate DistinctBy<T, K(==)>(s: seq<T>, f: T -> K) {
    forall i, j :: 0 <= i < j < |s| ==> f(s[i]) != f(s[j])
  }

  lemma {:induction false} InsertDistinctBy<T, K>(x: T, s: seq<T>, le: (T, T) -> bool, f: T -> K)
    requires DistinctBy(s, f)
    requires forall i :: 0 <= i < |s| ==> f(s[i]) != f(x)
    ensures DistinctBy(Insert(x, s, le), f)
    decreases |s|
  {
    if s != [] && !le(x, s[0]) {
      InsertDistinctBy(x, s[1..], le, f);
      var r := Insert(x, s, le);
      var rt := Insert(x, s[1..], le);
      assert r == [s[0]] + rt;
      forall j | 0 < j < |r|
        ensures f(r[0]) != f(r[j])
      {
        assert r[j] in multiset(rt);
        if r[j] != x {
          assert r[j] in s[1..];
          var k :| 0 <= k < |s[1..]| && s[1..][k] == r[j];
          assert s[k + 1] == r[j];
        }
      }
    }
  }

  /** Sorting keeps elements that differ in `f` apart: it only reorders them. */
  lemma {:induction false} SortByDistinctBy<T, K>(s: seq<T>, le: (T, T) -> bool, f: T -> K)
    requires DistinctBy(s, f)
    ensures DistinctBy(SortBy(s, le), f)
    decreases |s|
  {
    if s != [] {
      var tail := s[1..];
      assert DistinctBy(tail, f) by {
        forall i, j | 0 <= i < j < |tail|
          ensures f(tail[i]) != f(tail[j])
        {
          assert tail[i] == s[i + 1] && tail[j] == s[j + 1];
        }
      }
      SortByDistinctBy(tail, le, f);
      var t := SortBy(tail, le);
      forall i | 0 <= i < |t|
        ensures f(t[i]) != f(s[0])
      {
        assert t[i] in multiset(tail);
        var k :| 0 <= k < |tail| && tail[k] == t[i];
        assert s[k + 1] == t[i];
      }
      InsertDistinctBy(s[0], t, le, f);
    }
  }

  /** In a sorted sequence, everything in the first `k` elements comes no later than anything after them. */
  lemma SortedPrefixFirst<T>(s: seq<T>, le: (T, T) -> bool, k: nat)
    requires Sorted(s, le) && k <= |s|
    ensures multiset(s) - multiset(s[..k]) == multiset(s[k..])
    ensures forall x, y :: x in multiset(s) - multiset(s[..k]) && y in s[..k] ==> le(y, x)
  {
    assert s == s[..k] + s[k..];
    assert multiset(s) == multiset(s[..k]) + multiset(s[k..]);
    forall x, y | x in multiset(s[k..]) && y in s[..k]
      ensures le(y, x)
    {
      var p :| 0 <= p < |s[k..]| && s[k..][p] == x;
      var q :| 0 <= q < k && s[..k][q] == y;
      assert s[q] == y && s[k + p] == x;
    }
  }

  /** The first `k` elements of a sorted sequence are sorted and taken from it. */
  lemma SortedPrefix<T>(s: seq<T>, le: (T, T) -> bool, k: nat)
    requires Sorted(s, le) && k <= |s|
    ensures Sorted(s[..k], le)
    ensures multiset(s[..k]) <= multiset(s)
  {
    assert s == s[..k] + s[k..];
    assert multiset(s) == multiset(s[..k]) + multiset(s[k..]);
    assert forall i, j :: 0 <= i < j < k ==> s[..k][i] == s[i] && s[..k][j] == s[j];
  }
}
