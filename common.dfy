/**
 * Small value types and sequence operations shared by every part of the model:
 * the optional value JavaScript writes as `x | null`, `Array.prototype.filter`,
 * summation over a sequence, and duplicate-freedom.
 */
module Common {

  /** A value that may be absent: JavaScript's `null` / `undefined`. */
  datatype Option<T> = None | Some(value: T)

  /** `Array.prototype.filter`: the elements that satisfy `p`, in their original order. */
  function Filter<T(!new)>(s: seq<T>, p: T -> bool): (r: seq<T>)
    ensures |r| <= |s|
    ensures forall x :: x in r <==> x in s && p(x)
    ensures forall x :: multiset(r)[x] == if p(x) then multiset(s)[x] else 0
    decreases |s|
  {
    if s == [] then []
    else
      assert s == [s[0]] + s[1..];
      if p(s[0]) then [s[0]] + Filter(s[1..], p) else Filter(s[1..], p)
  }

  /** `a` can be obtained from `b` by deleting elements: the relative order of what is kept is unchanged. */
  predicate IsSubsequence<T(==)>(a: seq<T>, b: seq<T>)
    decreases |b|
  {
    if a == [] then true
    else if b == [] then false
    else if a[0] == b[0] then IsSubsequence(a[1..], b[1..])
    else IsSubsequence(a, b[1..])
  }

  /** Filtering keeps the survivors in their original order. */
  lemma {:induction false} FilterIsSubsequence<T(!new)>(s: seq<T>, p: T -> bool)
    ensures IsSubsequence(Filter(s, p), s)
    decreases |s|
  {
    if s != [] {
      FilterIsSubsequence(s[1..], p);
      if !p(s[0]) {
        var r := Filter(s[1..], p);
        SubsequenceOfTail(r, s);
      }
    }
  }

  /** A subsequence of the tail of `b` is a subsequence of `b`. */
  lemma {:induction false} SubsequenceOfTail<T>(a: seq<T>, b: seq<T>)
    requires b != [] && IsSubsequence(a, b[1..])
    ensures IsSubsequence(a, b)
    decreases |b|, 0
  {
    if a != [] && a[0] == b[0] {
      SubsequenceDropHead(a, b[1..]);
    }
  }

  /** Dropping the head of a non-empty subsequence keeps it a subsequence. */
  lemma {:induction false} SubsequenceDropHead<T>(a: seq<T>, b: seq<T>)
    requires a != [] && IsSubsequence(a, b)
    ensures IsSubsequence(a[1..], b)
    decreases |b|, 1
  {
    if a[0] != b[0] {
      SubsequenceDropHead(a, b[1..]);
    }
    SubsequenceOfTail(a[1..], b);
  }

  /** When every element passes, filtering changes nothing. */
  lemma {:induction false} FilterAll<T(!new)>(s: seq<T>, p: T -> bool)
    requires forall x :: x in s ==> p(x)
    ensures Filter(s, p) == s
    decreases |s|
  {
    if s != [] {
      FilterAll(s[1..], p);
    }
  }

  /** An element the filter rejects adds nothing to the filtered sequence. */
  lemma {:induction false} FilterAppendRejected<T(!new)>(s: seq<T>, x: T, p: T -> bool)
    requires !p(x)
    ensures Filter(s + [x], p) == Filter(s, p)
    decreases |s|
  {
    if s == [] {
      assert [] + [x] == [x];
      assert [x][1..] == [];
    } else {
      assert (s + [x])[1..] == s[1..] + [x];
      FilterAppendRejected(s[1..], x, p);
    }
  }

  /** The sum of `f` over `s`, accumulated from the left like `reduce((sum, x) => sum + f(x), 0)`. */
  function Sum<T>(s: seq<T>, f: T -> int): int
    decreases |s|
  {
    if s == [] then 0 else Sum(s[..|s| - 1], f) + f(s[|s| - 1])
  }

  /** Summation distributes over concatenation. */
  lemma {:induction false} SumConcat<T>(a: seq<T>, b: seq<T>, f: T -> int)
    ensures Sum(a + b, f) == Sum(a, f) + Sum(b, f)
    decreases |b|
  {
    if b != [] {
      assert (a + b)[..|a + b| - 1] == a + b[..|b| - 1];
      assert (a + b)[|a + b| - 1] == b[|b| - 1];
      SumConcat(a, b[..|b| - 1], f);
    } else {
      assert a + b == a;
    }
  }

  /** Replacing one element changes the sum by the difference of the two values. */
  lemma {:induction false} SumUpdate<T>(s: seq<T>, i: nat, v: T, f: T -> int)
    requires i < |s|
    ensures Sum(s[i := v], f) == Sum(s, f) - f(s[i]) + f(v)
    decreases |s|
  {
    if i < |s| - 1 {
      assert s[i := v][..|s| - 1] == s[..|s| - 1][i := v];
      SumUpdate(s[..|s| - 1], i, v, f);
    } else {
      assert s[i := v][..|s| - 1] == s[..|s| - 1];
    }
  }

  /** `s` holds no value twice. */
  predicate NoDuplicates<T(==)>(s: seq<T>) {
    forall i, j :: 0 <= i < j < |s| ==> s[i] != s[j]
  }

  /** The smaller of two integers, as in `slice(0, n)` bounds. */
  function Min(a: int, b: int): int {
    if a <= b then a else b
  }
}
