/** Shared facts on sequences and sets: a stable sort, as sort.SliceStable gives, filters, and when sorting has one result only. */
module Sorting {

  ghost predicate Sorted<T(!new)>(less: (T, T) -> bool, s: seq<T>) {
    forall i, j :: 0 <= i < j < |s| ==> !less(s[j], s[i])
  }

  ghost predicate WeakOrder<T(!new)>(less: (T, T) -> bool) {
    && (forall x, y :: less(x, y) ==> !less(y, x))
    && (forall x, y, z :: !less(x, y) && !less(y, z) ==> !less(x, z))
  }

  /** Puts x before the first element greater than it. */
  function Insert<T>(less: (T, T) -> bool, s: seq<T>, x: T): seq<T> {
    if s == [] then [x]
    else if less(x, s[|s| - 1]) then Insert(less, s[..|s| - 1], x) + [s[|s| - 1]]
    else s + [x]
  }

  function Sort<T>(less: (T, T) -> bool, s: seq<T>): seq<T> {
    if s == [] then [] else Insert(less, Sort(less, s[..|s| - 1]), s[|s| - 1])
  }

  lemma {:induction false} InsertIsPermutation<T(!new)>(less: (T, T) -> bool, s: seq<T>, x: T)
    ensures multiset(Insert(less, s, x)) == multiset(s) + multiset{x}
  {
    if s != [] {
      assert s == s[..|s| - 1] + [s[|s| - 1]];
      InsertIsPermutation(less, s[..|s| - 1], x);
    }
  }

  lemma {:induction false} SortIsPermutation<T(!new)>(less: (T, T) -> bool, s: seq<T>)
    ensures multiset(Sort(less, s)) == multiset(s)
    ensures |Sort(less, s)| == |s|
  {
    if s != [] {
      assert s == s[..|s| - 1] + [s[|s| - 1]];
      SortIsPermutation(less, s[..|s| - 1]);
      InsertIsPermutation(less, Sort(less, s[..|s| - 1]), s[|s| - 1]);
    }
    assert |multiset(Sort(less, s))| == |Sort(less, s)|;
  }

  lemma SameElements<T(!new)>(a: seq<T>, b: seq<T>)
    requires multiset(a) == multiset(b)
    ensures |a| == |b| && forall x :: x in a <==> x in b
  {
    assert |multiset(a)| == |a| && |multiset(b)| == |b|;
    forall x
      ensures x in a <==> x in b
    {
      assert x in a <==> x in multiset(a);
      assert x in b <==> x in multiset(b);
    }
  }

  lemma {:induction false} InsertSorted<T(!new)>(less: (T, T) -> bool, s: seq<T>, x: T)
    requires WeakOrder(less) && Sorted(less, s)
    ensures Sorted(less, Insert(less, s, x))
  {
    if s != [] && less(x, s[|s| - 1]) {
      var front, last := s[..|s| - 1], s[|s| - 1];
      InsertSorted(less, front, x);
      InsertIsPermutation(less, front, x);
      var inserted := Insert(less, front, x);
      forall i | 0 <= i < |inserted|
        ensures !less(last, inserted[i])
      {
        assert inserted[i] in multiset(inserted);
        assert inserted[i] == x || inserted[i] in front;
      }
    } else if s != [] {
      forall i | 0 <= i < |s|
        ensures !less(x, s[i])
      {
        assert !less(x, s[|s| - 1]);
        assert i < |s| - 1 ==> !less(s[|s| - 1], s[i]);
      }
    }
  }

  lemma {:induction false} SortSorted<T(!new)>(less: (T, T) -> bool, s: seq<T>)
    requires WeakOrder(less)
    ensures Sorted(less, Sort(less, s))
  {
    if s != [] {
      SortSorted(less, s[..|s| - 1]);
      InsertSorted(less, Sort(less, s[..|s| - 1]), s[|s| - 1]);
    }
  }

  function Filter<T>(p: T -> bool, s: seq<T>): seq<T> {
    if s == [] then []
    else Filter(p, s[..|s| - 1]) + if p(s[|s| - 1]) then [s[|s| - 1]] else []
  }

  function Map<T, U>(f: T -> U, s: seq<T>): (r: seq<U>)
    ensures |r| == |s|
    ensures forall i :: 0 <= i < |s| ==> r[i] == f(s[i])
  {
    seq(|s|, i requires 0 <= i < |s| => f(s[i]))
  }

  lemma {:induction false} FilterElements<T(!new)>(p: T -> bool, s: seq<T>)
    ensures forall x :: x in Filter(p, s) <==> x in s && p(x)
    ensures |Filter(p, s)| <= |s|
  {
    if s != [] {
      assert s == s[..|s| - 1] + [s[|s| - 1]];
      FilterElements(p, s[..|s| - 1]);
    }
  }

  lemma {:induction false} FilterCounts<T(!new)>(p: T -> bool, s: seq<T>, x: T)
    ensures multiset(Filter(p, s))[x] == if p(x) then multiset(s)[x] else 0
  {
    if s != [] {
      assert s == s[..|s| - 1] + [s[|s| - 1]];
      FilterCounts(p, s[..|s| - 1], x);
    }
  }

  lemma FilterOfPermutation<T(!new)>(p: T -> bool, a: seq<T>, b: seq<T>)
    requires multiset(a) == multiset(b)
    ensures multiset(Filter(p, a)) == multiset(Filter(p, b)) && |Filter(p, a)| == |Filter(p, b)|
  {
    forall x
      ensures multiset(Filter(p, a))[x] == multiset(Filter(p, b))[x]
    {
      FilterCounts(p, a, x);
      FilterCounts(p, b, x);
    }
    SameElements(Filter(p, a), Filter(p, b));
  }

  lemma {:induction false} FilterAtLeast<T(!new)>(p: T -> bool, s: seq<T>, n: nat)
    requires n <= |s| && forall i :: 0 <= i < n ==> p(s[i])
    ensures |Filter(p, s)| >= n
  {
    if s != [] {
      FilterAtLeast(p, s[..|s| - 1], if n == |s| then n - 1 else n);
    }
  }

  lemma {:induction false} FilterAtMost<T(!new)>(p: T -> bool, s: seq<T>, n: nat)
    requires n <= |s| && forall i :: n <= i < |s| ==> !p(s[i])
    ensures |Filter(p, s)| <= n
  {
    if |s| > n {
      FilterAtMost(p, s[..|s| - 1], n);
    } else {
      FilterElements(p, s);
    }
  }

  lemma NotSmallerAt<T(!new)>(less: (T, T) -> bool, a: seq<T>, b: seq<T>, i: nat)
    requires WeakOrder(less) && Sorted(less, a) && Sorted(less, b) && multiset(a) == multiset(b)
    requires i < |a| == |b|
    ensures !less(b[i], a[i])
  {
    if less(b[i], a[i]) {
      var p := x => less(x, a[i]);
      forall k | 0 <= k < i + 1
        ensures p(b[k])
      {
        assert !less(b[i], b[k]);
      }
      FilterAtLeast(p, b, i + 1);
      FilterAtMost(p, a, i);
      FilterOfPermutation(p, a, b);
    }
  }

  /** Two sorted arrangements of one collection hold equivalent elements at every position. */
  lemma SortedArrangementsAlign<T(!new)>(less: (T, T) -> bool, a: seq<T>, b: seq<T>)
    requires WeakOrder(less) && Sorted(less, a) && Sorted(less, b) && multiset(a) == multiset(b)
    ensures |a| == |b|
    ensures forall i :: 0 <= i < |a| ==> !less(a[i], b[i]) && !less(b[i], a[i])
  {
    SameElements(a, b);
    forall i | 0 <= i < |a|
      ensures !less(a[i], b[i]) && !less(b[i], a[i])
    {
      NotSmallerAt(less, a, b, i);
      NotSmallerAt(less, b, a, i);
    }
  }

  /** When unequal elements always compare, a collection has only one sorted order. */
  lemma SortedIsUnique<T(!new)>(less: (T, T) -> bool, a: seq<T>, b: seq<T>)
    requires WeakOrder(less) && multiset(a) == multiset(b) && Sorted(less, a) && Sorted(less, b)
    requires forall x, y :: x in a && y in a && x != y ==> less(x, y) || less(y, x)
    ensures a == b
  {
    SortedArrangementsAlign(less, a, b);
    SameElements(a, b);
    forall i | 0 <= i < |a|
      ensures a[i] == b[i]
    {
      assert a[i] in a && b[i] in b;
    }
  }

  /** Hence filtering a sorted sequence and sorting the filtered one agree. */
  lemma {:induction false} FilterSorted<T(!new)>(less: (T, T) -> bool, p: T -> bool, s: seq<T>)
    requires Sorted(less, s)
    ensures Sorted(less, Filter(p, s))
  {
    if s != [] {
      FilterSorted(less, p, s[..|s| - 1]);
      FilterElements(p, s[..|s| - 1]);
      var front, last := Filter(p, s[..|s| - 1]), s[|s| - 1];
      forall i | 0 <= i < |front|
        ensures !less(last, front[i])
      {
        assert front[i] in s[..|s| - 1];
        var k :| 0 <= k < |s| - 1 && s[k] == front[i];
      }
    }
  }

  lemma {:induction false} FilterOfMap<T(!new), U(!new)>(f: T -> U, p: U -> bool, q: T -> bool, s: seq<T>)
    requires forall x :: x in s ==> q(x) == p(f(x))
    ensures Filter(p, Map(f, s)) == Map(f, Filter(q, s))
  {
    if s != [] {
      assert Map(f, s)[..|s| - 1] == Map(f, s[..|s| - 1]);
      FilterOfMap(f, p, q, s[..|s| - 1]);
    }
  }

  /** Mapping a sorted arrangement by an order-preserving function gives a sorted arrangement. */
  lemma {:induction false} SortOfMap<T(!new), U(!new)>(lt: (T, T) -> bool, lu: (U, U) -> bool, f: T -> U, s: seq<T>)
    requires forall x, y :: x in s && y in s ==> lt(x, y) == lu(f(x), f(y))
    ensures Sort(lu, Map(f, s)) == Map(f, Sort(lt, s))
  {
    if s != [] {
      var front, last := s[..|s| - 1], s[|s| - 1];
      assert Map(f, s)[..|s| - 1] == Map(f, front);
      SortOfMap(lt, lu, f, front);
      SortIsPermutation(lt, front);
      SameElements(Sort(lt, front), front);
      InsertOfMap(lt, lu, f, Sort(lt, front), last);
    }
  }

  lemma {:induction false} InsertOfMap<T(!new), U(!new)>(lt: (T, T) -> bool, lu: (U, U) -> bool, f: T -> U, s: seq<T>, x: T)
    requires forall y :: y in s ==> lt(x, y) == lu(f(x), f(y))
    ensures Insert(lu, Map(f, s), f(x)) == Map(f, Insert(lt, s, x))
  {
    if s != [] {
      assert s[|s| - 1] in s;
      assert Map(f, s)[..|s| - 1] == Map(f, s[..|s| - 1]);
      InsertOfMap(lt, lu, f, s[..|s| - 1], x);
    }
  }

  ghost predicate NoDuplicates<T(!new)>(s: seq<T>) {
    forall i, j :: 0 <= i < j < |s| ==> s[i] != s[j]
  }

  lemma {:induction false} FilterKeepsDistinct<T(!new)>(p: T -> bool, s: seq<T>)
    requires NoDuplicates(s)
    ensures NoDuplicates(Filter(p, s))
  {
    if s != [] {
      var front, last := s[..|s| - 1], s[|s| - 1];
      FilterKeepsDistinct(p, front);
      FilterElements(p, front);
      assert last !in front;
    }
  }

  lemma {:induction false} CountOfDistinct<T(!new)>(s: seq<T>, x: T)
    requires NoDuplicates(s)
    ensures multiset(s)[x] == if x in s then 1 else 0
  {
    if s != [] {
      CountOfDistinct(s[..|s| - 1], x);
      assert s == s[..|s| - 1] + [s[|s| - 1]];
      assert s[|s| - 1] !in s[..|s| - 1];
    }
  }

  lemma SameSetSameMultiset<T(!new)>(a: seq<T>, b: seq<T>)
    requires NoDuplicates(a) && NoDuplicates(b) && forall x :: x in a <==> x in b
    ensures multiset(a) == multiset(b)
  {
    forall x
      ensures multiset(a)[x] == multiset(b)[x]
    {
      CountOfDistinct(a, x);
      CountOfDistinct(b, x);
    }
  }

  lemma CountTwice<T(!new)>(s: seq<T>, i: nat, j: nat)
    requires i < j < |s| && s[i] == s[j]
    ensures s[i] in s && multiset(s)[s[i]] >= 2
  {
    assert s == s[..i] + [s[i]] + s[i + 1..j] + [s[j]] + s[j + 1..];
  }

  lemma DistinctByCount<T(!new)>(s: seq<T>)
    requires forall x :: x in s ==> multiset(s)[x] == 1
    ensures NoDuplicates(s)
  {
    forall i, j | 0 <= i < j < |s|
      ensures s[i] != s[j]
    {
      if s[i] == s[j] {
        CountTwice(s, i, j);
      }
    }
  }

  lemma SubsetCard<T>(x: set<T>, y: set<T>)
    requires x <= y
    ensures |x| <= |y|
  {
    assert y == x + (y - x);
  }
}
