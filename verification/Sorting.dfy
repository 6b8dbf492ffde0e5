/** Sorting by a total preorder: the result is a sorted permutation, and there is only one when ties are equal. */
module Sorting {

  ghost predicate TotalPreorder<T(!new)>(leq: (T, T) -> bool) {
    && (forall a, b :: leq(a, b) || leq(b, a))
    && (forall a, b, c :: leq(a, b) && leq(b, c) ==> leq(a, c))
  }

  ghost predicate Sorted<T>(leq: (T, T) -> bool, s: seq<T>) {
    forall i, j :: 0 <= i < j < |s| ==> leq(s[i], s[j])
  }

  function Insert<T>(leq: (T, T) -> bool, x: T, s: seq<T>): seq<T> {
    if s == [] || leq(x, s[0]) then [x] + s else [s[0]] + Insert(leq, x, s[1..])
  }

  function Sort<T>(leq: (T, T) -> bool, s: seq<T>): seq<T> {
    if s == [] then [] else Insert(leq, s[0], Sort(leq, s[1..]))
  }

  lemma {:induction false} InsertSorted<T(!new)>(leq: (T, T) -> bool, x: T, s: seq<T>)
    requires TotalPreorder(leq) && Sorted(leq, s)
    ensures Sorted(leq, Insert(leq, x, s)) && multiset(Insert(leq, x, s)) == multiset{x} + multiset(s)
  {
    if s == [] || leq(x, s[0]) {
      forall y | y in s
        ensures leq(x, y)
      {
        var i :| 0 <= i < |s| && s[i] == y;
        assert i == 0 || leq(s[0], s[i]);
      }
    } else {
      var rest := Insert(leq, x, s[1..]);
      assert s == [s[0]] + s[1..];
      InsertSorted(leq, x, s[1..]);
      forall y | y in rest
        ensures leq(s[0], y)
      {
        assert y in multiset(rest);
        assert y == x || y in s[1..];
      }
    }
  }

  lemma {:induction false} SortSorts<T(!new)>(leq: (T, T) -> bool, s: seq<T>)
    requires TotalPreorder(leq)
    ensures Sorted(leq, Sort(leq, s)) && multiset(Sort(leq, s)) == multiset(s)
  {
    if s == [] {
    } else {
      SortSorts(leq, s[1..]);
      InsertSorted(leq, s[0], Sort(leq, s[1..]));
      assert s == [s[0]] + s[1..];
    }
  }

  lemma FirstIsLeast<T(!new)>(leq: (T, T) -> bool, s: seq<T>, x: T)
    requires TotalPreorder(leq) && Sorted(leq, s) && x in s
    ensures leq(s[0], x)
  {
  }

  lemma {:induction false} SameFirst<T(!new)>(leq: (T, T) -> bool, a: seq<T>, b: seq<T>)
    requires TotalPreorder(leq) && Sorted(leq, a) && Sorted(leq, b) && multiset(a) == multiset(b) && a != []
    requires forall x, y :: x in a && y in a && leq(x, y) && leq(y, x) ==> x == y
    ensures b != [] && a[0] == b[0]
  {
    assert a[0] in multiset(b);
    assert b[0] in multiset(a);
    FirstIsLeast(leq, a, b[0]);
    FirstIsLeast(leq, b, a[0]);
  }

  /** Two sorted lists of the same elements are the same list, when tied elements are equal. */
  lemma {:induction false} SortedIsUnique<T(!new)>(leq: (T, T) -> bool, a: seq<T>, b: seq<T>)
    requires TotalPreorder(leq) && Sorted(leq, a) && Sorted(leq, b) && multiset(a) == multiset(b)
    requires forall x, y :: x in a && y in a && leq(x, y) && leq(y, x) ==> x == y
    ensures a == b
  {
    if a == [] {
      assert multiset(b) == multiset{};
      assert |b| == 0;
    } else {
      SameFirst(leq, a, b);
      assert a == [a[0]] + a[1..] && b == [b[0]] + b[1..];
      assert multiset(a[1..]) == multiset(a) - multiset{a[0]};
      assert multiset(b[1..]) == multiset(b) - multiset{b[0]};
      SortedIsUnique(leq, a[1..], b[1..]);
    }
  }

  // ---------- Mapping keeps permutations ----------

  function Map<A, B>(f: A -> B, s: seq<A>): (m: seq<B>)
    ensures |m| == |s|
  {
    if s == [] then [] else [f(s[0])] + Map(f, s[1..])
  }

  lemma {:induction false} MapAt<A, B>(f: A -> B, s: seq<A>)
    ensures forall i :: 0 <= i < |s| ==> Map(f, s)[i] == f(s[i])
  {
    if s == [] {
    } else {
      MapAt(f, s[1..]);
    }
  }

  lemma WithoutOne<T>(s: seq<T>, k: nat)
    requires k < |s|
    ensures multiset(s[..k] + s[k + 1..]) == multiset(s) - multiset{s[k]}
  {
    assert s == s[..k] + [s[k]] + s[k + 1..];
  }

  lemma {:induction false} MapWithoutOne<A, B>(f: A -> B, s: seq<A>, k: nat)
    requires k < |s|
    ensures multiset(Map(f, s)) == multiset{f(s[k])} + multiset(Map(f, s[..k] + s[k + 1..]))
  {
    var others := s[..k] + s[k + 1..];
    if k == 0 {
      assert others == s[1..];
    } else {
      assert others[0] == s[0] && others[1..] == s[1..][..k - 1] + s[1..][k..];
      MapWithoutOne(f, s[1..], k - 1);
    }
  }

  lemma {:induction false} MapPermutes<A(!new), B(!new)>(f: A -> B, a: seq<A>, b: seq<A>)
    requires multiset(a) == multiset(b)
    ensures multiset(Map(f, a)) == multiset(Map(f, b))
  {
    if a == [] {
      assert |multiset(b)| == 0;
    } else {
      assert a[0] in multiset(b);
      var k :| 0 <= k < |b| && b[k] == a[0];
      WithoutOne(a, 0);
      WithoutOne(b, k);
      assert a[..0] + a[1..] == a[1..];
      MapPermutes(f, a[1..], b[..k] + b[k + 1..]);
      MapWithoutOne(f, b, k);
    }
  }

  // ---------- Lists without repetition ----------

  ghost predicate Distinct<T>(s: seq<T>) {
    forall i, j :: 0 <= i < j < |s| ==> s[i] != s[j]
  }

  lemma {:induction false} DistinctCounts<T>(s: seq<T>, x: T)
    requires Distinct(s)
    ensures multiset(s)[x] == if x in s then 1 else 0
  {
    if s == [] {
    } else {
      assert s == [s[0]] + s[1..];
      DistinctCounts(s[1..], x);
    }
  }

  /** Lists without repetition that have the same elements are permutations of each other. */
  lemma DistinctPermutes<T(!new)>(a: seq<T>, b: seq<T>)
    requires Distinct(a) && Distinct(b) && forall x :: x in a <==> x in b
    ensures multiset(a) == multiset(b)
  {
    forall x
      ensures multiset(a)[x] == multiset(b)[x]
    {
      DistinctCounts(a, x);
      DistinctCounts(b, x);
    }
  }

  lemma DistinctWhenCounted<T>(s: seq<T>)
    requires forall x :: x in s ==> multiset(s)[x] <= 1
    ensures Distinct(s)
  {
    forall i, j | 0 <= i < j < |s|
      ensures s[i] != s[j]
    {
      assert s == s[..j] + s[j..];
      assert s[..j][i] == s[i] && s[j..][0] == s[j];
      assert s[i] in multiset(s[..j]) && s[j] in multiset(s[j..]);
      assert multiset(s)[s[i]] == multiset(s[..j])[s[i]] + multiset(s[j..])[s[i]];
    }
  }
}
