/** Order-preserving selection on sequences, the model of `Array.prototype.filter`. */
module Seqs {
  import opened Wrappers

  /** `a` can be obtained from `b` by deleting elements (order is kept). */
  predicate IsSubseq<T(==)>(a: seq<T>, b: seq<T>)
    decreases |b|
  {
    if |a| == 0 then true
    else if |b| == 0 then false
    else if a[0] == b[0] then IsSubseq(a[1..], b[1..])
    else IsSubseq(a, b[1..])
  }

  /** The elements of `s` that satisfy `f`, in their order in `s`. */
  function Filter<T(==,!new)>(s: seq<T>, f: T -> bool): (r: seq<T>)
    ensures |r| <= |s|
    ensures forall x :: x in r <==> x in s && f(x)
    ensures IsSubseq(r, s)
  {
    if |s| == 0 then []
    else
      var rest := Filter(s[1..], f);
      assert s == [s[0]] + s[1..];
      if f(s[0]) then [s[0]] + rest
      else
        assert |rest| > 0 ==> rest[0] in rest && rest[0] != s[0];
        rest
  }

  /** Filtering keeps every selected element as often as it occurs, and no other. */
  lemma {:induction false} FilterCounts<T(!new)>(s: seq<T>, f: T -> bool, x: T)
    ensures multiset(Filter(s, f))[x] == if f(x) then multiset(s)[x] else 0
  {
    if |s| > 0 {
      FilterCounts(s[1..], f, x);
      assert s == [s[0]] + s[1..];
    }
  }

  /** `FilterCounts` for every element at once. */
  lemma FilterCountsAll<T(!new)>(s: seq<T>, f: T -> bool)
    ensures forall x :: multiset(Filter(s, f))[x] == if f(x) then multiset(s)[x] else 0
  {
    forall x
      ensures multiset(Filter(s, f))[x] == if f(x) then multiset(s)[x] else 0
    {
      FilterCounts(s, f, x);
    }
  }

  /** A filter that every element passes returns its input. */
  lemma {:induction false} FilterAllPass<T(!new)>(s: seq<T>, f: T -> bool)
    requires forall x :: x in s ==> f(x)
    ensures Filter(s, f) == s
  {
    if |s| > 0 {
      assert s == [s[0]] + s[1..];
      FilterAllPass(s[1..], f);
    }
  }

  /** A filter that no element passes returns nothing. */
  lemma {:induction false} FilterNonePass<T(!new)>(s: seq<T>, f: T -> bool)
    requires forall x :: x in s ==> !f(x)
    ensures Filter(s, f) == []
  {
    if |s| > 0 {
      assert s == [s[0]] + s[1..];
      FilterNonePass(s[1..], f);
    }
  }

  /** Filtering distributes over concatenation. */
  lemma {:induction false} FilterConcat<T(!new)>(a: seq<T>, b: seq<T>, f: T -> bool)
    ensures Filter(a + b, f) == Filter(a, f) + Filter(b, f)
  {
    if |a| == 0 {
      assert a + b == b;
    } else {
      var ab := a + b;
      assert ab[0] == a[0];
      assert ab[1..] == a[1..] + b;
      FilterConcat(a[1..], b, f);
    }
  }

  /** Two tests that agree on every element of `s` select the same elements. */
  lemma {:induction false} FilterCongruent<T(!new)>(s: seq<T>, f: T -> bool, g: T -> bool)
    requires forall x :: x in s ==> f(x) == g(x)
    ensures Filter(s, f) == Filter(s, g)
  {
    if |s| > 0 {
      assert s == [s[0]] + s[1..];
      FilterCongruent(s[1..], f, g);
    }
  }

  /** The test passed by what passes both `f` and `g`. */
  function Both<T>(f: T -> bool, g: T -> bool): T -> bool
  {
    (x: T) => f(x) && g(x)
  }

  /** Filtering twice is filtering once by both tests. */
  lemma {:induction false} FilterTwice<T(!new)>(s: seq<T>, f: T -> bool, g: T -> bool)
    ensures Filter(Filter(s, f), g) == Filter(s, Both(f, g))
  {
    if |s| > 0 {
      FilterTwice(s[1..], f, g);
    }
  }

  /** The filter is as long as its input exactly when every element passes. */
  lemma {:induction false} FilterLength<T(!new)>(s: seq<T>, f: T -> bool)
    ensures |Filter(s, f)| == |s| <==> forall x :: x in s ==> f(x)
  {
    if |s| > 0 {
      FilterLength(s[1..], f);
      assert s == [s[0]] + s[1..];
      if forall x :: x in s ==> f(x) {
        FilterAllPass(s, f);
      }
    }
  }

  /** `findIndex`: the position of the first element satisfying `f`, if any. */
  function FindIndex<T>(s: seq<T>, f: T -> bool): (r: Option<nat>)
    ensures r.Some? ==> r.value < |s| && f(s[r.value])
    ensures r.Some? ==> forall k :: 0 <= k < r.value ==> !f(s[k])
    ensures r.None? ==> forall k :: 0 <= k < |s| ==> !f(s[k])
  {
    if |s| == 0 then None
    else if f(s[0]) then Some(0)
    else match FindIndex(s[1..], f)
      case None => None
      case Some(k) => Some(k + 1)
  }

  /** Every element of a subsequence of `b` occurs in `b`. */
  lemma {:induction false} SubseqMembers<T>(a: seq<T>, b: seq<T>)
    requires IsSubseq(a, b)
    ensures forall x :: x in a ==> x in b
    decreases |b|
  {
    if |a| > 0 {
      if a[0] == b[0] {
        SubseqMembers(a[1..], b[1..]);
        assert a == [a[0]] + a[1..];
        assert b == [b[0]] + b[1..];
      } else {
        SubseqMembers(a, b[1..]);
        assert b == [b[0]] + b[1..];
      }
    }
  }
}
