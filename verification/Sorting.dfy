/**
 Python's `list.sort` and `sorted` with a key of one or two numbers: stable, by rank.

 `Sort` is an executable definition. `SortIsTheStableSort` says that it is the only one:
 any sorted list with the same elements in the same order within each rank equals it, so
 nothing below depends on how the sort is carried out.
 */
module Sorting {
  import opened Sequences

  /** A sort key, compared lexicographically. A one-part key leaves `minor` at 0. */
  datatype Rank = Rank(major: int, minor: int)

  predicate Le(a: Rank, b: Rank) {
    a.major < b.major || (a.major == b.major && a.minor <= b.minor)
  }

  predicate Sorted<T>(s: seq<T>, key: T -> Rank) {
    forall i, j :: 0 <= i < j < |s| ==> Le(key(s[i]), key(s[j]))
  }

  function Insert<T>(x: T, s: seq<T>, key: T -> Rank): seq<T> {
    if s == [] || Le(key(x), key(s[0])) then [x] + s else [s[0]] + Insert(x, s[1..], key)
  }

  function Sort<T>(s: seq<T>, key: T -> Rank): seq<T> {
    if s == [] then [] else Insert(s[0], Sort(s[1..], key), key)
  }

  /** The elements of `s` that satisfy `p`, in order. */
  function Filter<T>(s: seq<T>, p: T -> bool): seq<T> {
    if s == [] then [] else (if p(s[0]) then [s[0]] else []) + Filter(s[1..], p)
  }

  /** The predicate "has rank r", named so that two uses of it denote one function. */
  function OfRank<T>(key: T -> Rank, r: Rank): T -> bool {
    (x: T) => key(x) == r
  }

  // ---- Filter ----

  lemma {:induction false} FilterConcat<T>(a: seq<T>, b: seq<T>, p: T -> bool)
    ensures Filter(a + b, p) == Filter(a, p) + Filter(b, p)
  {
    if a == [] {
      assert a + b == b;
    } else {
      assert (a + b)[0] == a[0] && (a + b)[1..] == a[1..] + b;
      FilterConcat(a[1..], b, p);
      var head := if p(a[0]) then [a[0]] else [];
      assert head + (Filter(a[1..], p) + Filter(b, p)) == (head + Filter(a[1..], p)) + Filter(b, p);
    }
  }

  /** Adding one element at the end: the shape every loop over a prefix needs. */
  lemma FilterSnoc<T>(s: seq<T>, i: nat, p: T -> bool)
    requires i < |s|
    ensures Filter(s[..i + 1], p) == Filter(s[..i], p) + (if p(s[i]) then [s[i]] else [])
  {
    assert s[..i + 1] == s[..i] + [s[i]];
    FilterConcat(s[..i], [s[i]], p);
    assert Filter([s[i]], p) == if p(s[i]) then [s[i]] else [];
  }

  lemma FilterPush<T>(s: seq<T>, x: T, p: T -> bool)
    ensures Filter(s + [x], p) == Filter(s, p) + (if p(x) then [x] else [])
  {
    FilterSnoc(s + [x], |s|, p);
    assert (s + [x])[..|s| + 1] == s + [x] && (s + [x])[..|s|] == s;
  }

  lemma {:induction false} FilterMember<T>(s: seq<T>, p: T -> bool, x: T)
    ensures x in Filter(s, p) <==> x in s && p(x)
  {
    if s != [] {
      FilterMember(s[1..], p, x);
      assert s == [s[0]] + s[1..];
    }
  }

  lemma {:induction false} FilterCount<T>(s: seq<T>, p: T -> bool, x: T)
    requires p(x)
    ensures multiset(Filter(s, p))[x] == multiset(s)[x]
  {
    if s != [] {
      FilterCount(s[1..], p, x);
      assert s == [s[0]] + s[1..];
      assert Filter(s, p) == (if p(s[0]) then [s[0]] else []) + Filter(s[1..], p);
    }
  }

  lemma {:induction false} FilterKeepsSorted<T>(s: seq<T>, p: T -> bool, key: T -> Rank)
    requires Sorted(s, key)
    ensures Sorted(Filter(s, p), key)
  {
    if s != [] {
      assert Sorted(s[1..], key);
      FilterKeepsSorted(s[1..], p, key);
      var f := Filter(s[1..], p);
      forall j | 0 <= j < |f| ensures Le(key(s[0]), key(f[j])) {
        FilterMember(s[1..], p, f[j]);
        var k: nat :| k < |s[1..]| && s[1..][k] == f[j];
        assert s[k + 1] == f[j];
      }
    }
  }

  lemma {:induction false} FilterAgree<T>(s: seq<T>, p: T -> bool, q: T -> bool)
    requires forall i :: 0 <= i < |s| ==> p(s[i]) == q(s[i])
    ensures Filter(s, p) == Filter(s, q)
  {
    if s != [] {
      FilterAgree(s[1..], p, q);
    }
  }

  lemma FilterEmpty<T>(s: seq<T>, p: T -> bool)
    requires forall i :: 0 <= i < |s| ==> !p(s[i])
    ensures Filter(s, p) == []
  {
    FilterNone(s, p);
  }

  /** Two positions of a list that pass a filter keep their order in the filtered list. */
  lemma FilterOrder<T>(s: seq<T>, p: T -> bool, i: nat, j: nat) returns (a: nat, b: nat)
    requires i < j < |s| && p(s[i]) && p(s[j])
    ensures a < b < |Filter(s, p)| && Filter(s, p)[a] == s[i] && Filter(s, p)[b] == s[j]
  {
    a, b := |Filter(s[..i], p)|, |Filter(s[..j], p)|;
    FilterSnoc(s, i, p);
    FilterSnoc(s, j, p);
    assert s == s[..j + 1] + s[j + 1..];
    FilterConcat(s[..j + 1], s[j + 1..], p);
    assert s[..j] == s[..i + 1] + s[i + 1..j];
    FilterConcat(s[..i + 1], s[i + 1..j], p);
  }

  // ---- Sort: permutation, order, stability ----

  lemma {:induction false} InsertMembers<T>(x: T, s: seq<T>, key: T -> Rank)
    ensures multiset(Insert(x, s, key)) == multiset{x} + multiset(s)
    ensures |Insert(x, s, key)| == |s| + 1
  {
    if s == [] || Le(key(x), key(s[0])) {
    } else {
      InsertMembers(x, s[1..], key);
      assert s == [s[0]] + s[1..];
    }
  }

  lemma {:induction false} InsertSorted<T>(x: T, s: seq<T>, key: T -> Rank)
    requires Sorted(s, key)
    ensures Sorted(Insert(x, s, key), key)
  {
    if s == [] || Le(key(x), key(s[0])) {
    } else {
      assert Sorted(s[1..], key);
      InsertSorted(x, s[1..], key);
      InsertMembers(x, s[1..], key);
      var t := Insert(x, s[1..], key);
      forall y | y in t ensures Le(key(s[0]), key(y)) {
        assert y in multiset(t);
        if y != x {
          assert y in multiset(s[1..]);
        }
      }
    }
  }

  lemma {:induction false} SortPermutes<T>(s: seq<T>, key: T -> Rank)
    ensures multiset(Sort(s, key)) == multiset(s)
    ensures |Sort(s, key)| == |s|
  {
    if s != [] {
      SortPermutes(s[1..], key);
      InsertMembers(s[0], Sort(s[1..], key), key);
      assert s == [s[0]] + s[1..];
    }
  }

  lemma {:induction false} SortSorts<T>(s: seq<T>, key: T -> Rank)
    ensures Sorted(Sort(s, key), key)
  {
    if s != [] {
      SortSorts(s[1..], key);
      InsertSorted(s[0], Sort(s[1..], key), key);
    }
  }

  lemma SortMember<T>(s: seq<T>, key: T -> Rank, x: T)
    ensures x in Sort(s, key) <==> x in s
  {
    SortPermutes(s, key);
    assert x in Sort(s, key) <==> x in multiset(Sort(s, key));
    assert x in s <==> x in multiset(s);
  }

  lemma {:induction false} InsertDistinct<T>(x: T, s: seq<T>, key: T -> Rank)
    requires Distinct(s) && x !in s
    ensures Distinct(Insert(x, s, key))
  {
    if s == [] || Le(key(x), key(s[0])) {
    } else {
      InsertDistinct(x, s[1..], key);
      InsertMembers(x, s[1..], key);
      var t := Insert(x, s[1..], key);
      assert s[0] !in t by {
        assert s[0] !in s[1..] && s[0] != x;
        assert s[0] !in multiset(t);
      }
    }
  }

  lemma {:induction false} SortDistinct<T>(s: seq<T>, key: T -> Rank)
    requires Distinct(s)
    ensures Distinct(Sort(s, key))
  {
    if s != [] {
      SortDistinct(s[1..], key);
      assert s[0] !in s[1..];
      SortMember(s[1..], key, s[0]);
      InsertDistinct(s[0], Sort(s[1..], key), key);
    }
  }

  /** A list that is already sorted is left alone. */
  lemma {:induction false} SortFixesSorted<T>(s: seq<T>, key: T -> Rank)
    requires Sorted(s, key)
    ensures Sort(s, key) == s
  {
    if s != [] {
      assert Sorted(s[1..], key);
      SortFixesSorted(s[1..], key);
    }
  }

  lemma {:induction false} InsertFilter<T>(x: T, s: seq<T>, key: T -> Rank, p: T -> bool)
    requires Sorted(s, key)
    ensures Filter(Insert(x, s, key), p) == if p(x) then Insert(x, Filter(s, p), key) else Filter(s, p)
  {
    if s == [] {
    } else if Le(key(x), key(s[0])) {
      var f := Filter(s, p);
      if f != [] {
        FilterMember(s, p, f[0]);
        var k: nat :| k < |s| && s[k] == f[0];
        assert Le(key(s[0]), key(s[k]));
      }
      assert ([x] + s)[1..] == s;
    } else {
      assert Sorted(s[1..], key);
      InsertFilter(x, s[1..], key, p);
      assert ([s[0]] + Insert(x, s[1..], key))[1..] == Insert(x, s[1..], key);
      var f := Filter(s[1..], p);
      if p(s[0]) {
        assert ([s[0]] + f)[1..] == f;
      } else {
        assert Filter(s, p) == f;
      }
    }
  }

  /** Sorting commutes with taking any sub-list: this is what stability buys. */
  lemma {:induction false} FilterSort<T>(s: seq<T>, key: T -> Rank, p: T -> bool)
    ensures Filter(Sort(s, key), p) == Sort(Filter(s, p), key)
  {
    if s != [] {
      FilterSort(s[1..], key, p);
      SortSorts(s[1..], key);
      InsertFilter(s[0], Sort(s[1..], key), key, p);
      var f := Filter(s[1..], p);
      if p(s[0]) {
        assert ([s[0]] + f)[1..] == f;
      } else {
        assert Filter(s, p) == f;
      }
    }
  }

  lemma {:induction false} FilterAll<T>(s: seq<T>, p: T -> bool)
    requires forall x :: x in s ==> p(x)
    ensures Filter(s, p) == s
  {
    if s != [] {
      FilterAll(s[1..], p);
    }
  }

  lemma {:induction false} FilterNone<T>(s: seq<T>, p: T -> bool)
    requires forall x :: x in s ==> !p(x)
    ensures Filter(s, p) == []
  {
    if s != [] {
      FilterNone(s[1..], p);
    }
  }

  /** What a filter sees of a sorted list survives the addition of elements it does not see. */
  lemma SortedPartSurvives<T>(a: seq<T>, b: seq<T>, key: T -> Rank, p: T -> bool)
    requires Sorted(a, key)
    requires forall x :: x in b ==> !p(x)
    ensures Filter(Sort(a + b, key), p) == Filter(a, p)
  {
    FilterSort(a + b, key, p);
    UnseenPart(a, b, p);
    SortedPart(a, key, p);
  }

  lemma UnseenPart<T>(a: seq<T>, b: seq<T>, p: T -> bool)
    requires forall x :: x in b ==> !p(x)
    ensures Filter(a + b, p) == Filter(a, p)
  {
    FilterNone(b, p);
    FilterConcat(a, b, p);
  }

  /** The same, with the unseen elements in front and only the seen part sorted. */
  lemma SortedRestSurvives<T>(a: seq<T>, b: seq<T>, key: T -> Rank, p: T -> bool)
    requires forall x :: x in a ==> !p(x)
    requires Sorted(Filter(b, p), key)
    ensures Filter(Sort(a + b, key), p) == Filter(b, p)
  {
    FilterSort(a + b, key, p);
    UnseenFront(a, b, p);
    SortFixesSorted(Filter(b, p), key);
  }

  lemma UnseenFront<T>(a: seq<T>, b: seq<T>, p: T -> bool)
    requires forall x :: x in a ==> !p(x)
    ensures Filter(a + b, p) == Filter(b, p)
  {
    FilterNone(a, p);
    FilterConcat(a, b, p);
  }

  lemma SortedPart<T>(a: seq<T>, key: T -> Rank, p: T -> bool)
    requires Sorted(a, key)
    ensures Sort(Filter(a, p), key) == Filter(a, p)
  {
    FilterKeepsSorted(a, p, key);
    SortFixesSorted(Filter(a, p), key);
  }

  /** Within one rank the original order survives. */
  lemma SortIsStable<T>(s: seq<T>, key: T -> Rank, r: Rank)
    ensures Filter(Sort(s, key), OfRank(key, r)) == Filter(s, OfRank(key, r))
  {
    FilterSort(s, key, OfRank(key, r));
    var f := Filter(s, OfRank(key, r));
    forall i | 0 <= i < |f| ensures key(f[i]) == r {
      FilterMember(s, OfRank(key, r), f[i]);
    }
    SortFixesSorted(f, key);
  }

  lemma {:induction false} SameClassesSameList<T>(a: seq<T>, b: seq<T>, key: T -> Rank)
    requires Sorted(a, key) && Sorted(b, key)
    requires forall r :: Filter(a, OfRank(key, r)) == Filter(b, OfRank(key, r))
    ensures a == b
  {
    if a == [] {
      if b != [] {
        HeadInItsClass(b, key);
      }
    } else if b == [] {
      HeadInItsClass(a, key);
    } else {
      HeadRankLeast(a, b, key);
      HeadRankLeast(b, a, key);
      HeadInItsClass(a, key);
      HeadInItsClass(b, key);
      assert Sorted(a[1..], key) && Sorted(b[1..], key);
      forall r ensures Filter(a[1..], OfRank(key, r)) == Filter(b[1..], OfRank(key, r)) {
        var h := if OfRank(key, r)(a[0]) then [a[0]] else [];
        assert Filter(a, OfRank(key, r)) == Filter(b, OfRank(key, r));
        assert h + Filter(a[1..], OfRank(key, r)) == h + Filter(b[1..], OfRank(key, r));
        assert (h + Filter(a[1..], OfRank(key, r)))[|h|..] == Filter(a[1..], OfRank(key, r));
      }
      SameClassesSameList(a[1..], b[1..], key);
    }
  }

  lemma HeadRankLeast<T>(a: seq<T>, b: seq<T>, key: T -> Rank)
    requires a != [] && b != [] && Sorted(b, key)
    requires forall r :: Filter(a, OfRank(key, r)) == Filter(b, OfRank(key, r))
    ensures Le(key(b[0]), key(a[0]))
  {
    HeadInItsClass(a, key);
    FilterMember(b, OfRank(key, key(a[0])), a[0]);
  }

  lemma HeadInItsClass<T>(a: seq<T>, key: T -> Rank)
    requires a != []
    ensures |Filter(a, OfRank(key, key(a[0])))| > 0 && Filter(a, OfRank(key, key(a[0])))[0] == a[0]
  {
  }

  /** `Sort` is the stable sort: the one sorted list that keeps the order inside every rank. */
  lemma SortIsTheStableSort<T>(s: seq<T>, t: seq<T>, key: T -> Rank)
    ensures t == Sort(s, key) <==>
            Sorted(t, key) && forall r :: Filter(t, OfRank(key, r)) == Filter(s, OfRank(key, r))
  {
    SortSorts(s, key);
    forall r ensures Filter(Sort(s, key), OfRank(key, r)) == Filter(s, OfRank(key, r)) {
      SortIsStable(s, key, r);
    }
    if Sorted(t, key) && forall r :: Filter(t, OfRank(key, r)) == Filter(s, OfRank(key, r)) {
      SameClassesSameList(t, Sort(s, key), key);
    }
  }
}
