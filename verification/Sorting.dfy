/**
  The library sort that the repository calls (`sort.SliceStable`).  For a comparator that is a
  strict weak order a stable sort has exactly one possible outcome, so an insertion sort written
  as a function specifies it.  The comparator of the beam is not one; see Ranking in Beam.dfy.
*/
module Sorting {
  import opened Prelude

  function Insert<T>(less: (T, T) -> bool, s: seq<T>, x: T): seq<T> {
    if s == [] then [x]
    else if !less(x, s[|s| - 1]) then s + [x]
    else Insert(less, s[..|s| - 1], x) + [s[|s| - 1]]
  }

  function StableSort<T>(less: (T, T) -> bool, s: seq<T>): seq<T> {
    if s == [] then [] else Insert(less, StableSort(less, s[..|s| - 1]), s[|s| - 1])
  }

  // less is a strict linear order on the elements of u.
  ghost predicate Linear<T(!new)>(less: (T, T) -> bool, u: multiset<T>) {
    && (forall x :: x in u ==> !less(x, x))
    && (forall x, y :: x in u && y in u && x != y ==> less(x, y) || less(y, x))
    && (forall x, y, z :: x in u && y in u && z in u && less(x, y) && less(y, z) ==> less(x, z))
  }

  ghost predicate Asymmetric<T(!new)>(less: (T, T) -> bool, u: multiset<T>) {
    forall x, y :: x in u && y in u ==> !(less(x, y) && less(y, x))
  }

  lemma LinearIsAsymmetric<T(!new)>(less: (T, T) -> bool, u: multiset<T>)
    requires Linear(less, u)
    ensures Asymmetric(less, u)
  {
  }

  ghost predicate Ascending<T>(less: (T, T) -> bool, s: seq<T>) {
    forall i, j :: 0 <= i < j < |s| ==> less(s[i], s[j])
  }

  lemma {:induction false} InsertPermutes<T>(less: (T, T) -> bool, s: seq<T>, x: T)
    ensures multiset(Insert(less, s, x)) == multiset(s) + multiset{x}
    ensures |Insert(less, s, x)| == |s| + 1
  {
    if s != [] && less(x, s[|s| - 1]) {
      InsertPermutes(less, s[..|s| - 1], x);
      assert s == s[..|s| - 1] + [s[|s| - 1]];
    }
  }

  lemma {:induction false} SortPermutes<T>(less: (T, T) -> bool, s: seq<T>)
    ensures multiset(StableSort(less, s)) == multiset(s)
    ensures |StableSort(less, s)| == |s|
  {
    if s != [] {
      SortPermutes(less, s[..|s| - 1]);
      InsertPermutes(less, StableSort(less, s[..|s| - 1]), s[|s| - 1]);
      assert s == s[..|s| - 1] + [s[|s| - 1]];
    }
  }

  lemma MemberOfPermutation<T>(a: seq<T>, b: seq<T>, x: T)
    requires multiset(a) == multiset(b)
    ensures x in a <==> x in b
  {
    assert x in multiset(a) <==> x in multiset(b);
  }

  lemma LinearSubset<T(!new)>(less: (T, T) -> bool, u: multiset<T>, v: multiset<T>)
    requires Linear(less, u) && v <= u
    ensures Linear(less, v)
  {
    forall x | x in v ensures x in u {}
  }

  lemma AscendingSnoc<T>(less: (T, T) -> bool, s: seq<T>, x: T)
    requires Ascending(less, s) && forall y :: y in s ==> less(y, x)
    ensures Ascending(less, s + [x])
  {
    forall i, j | 0 <= i < j < |s + [x]| ensures less((s + [x])[i], (s + [x])[j]) {
      assert s[i] in s;
    }
  }

  lemma AscendingSplit<T>(less: (T, T) -> bool, init: seq<T>, last: T)
    requires Ascending(less, init + [last])
    ensures Ascending(less, init) && forall y :: y in init ==> less(y, last)
  {
    var s := init + [last];
    forall i, j | 0 <= i < j < |init| ensures less(init[i], init[j]) {
      assert less(s[i], s[j]);
    }
    forall y | y in init ensures less(y, last) {
      var i :| 0 <= i < |init| && init[i] == y;
      assert less(s[i], s[|init|]);
    }
  }

  lemma {:induction false} InsertAscending<T(!new)>(less: (T, T) -> bool, s: seq<T>, x: T)
    requires Ascending(less, s) && x !in s
    requires Linear(less, multiset(s) + multiset{x})
    ensures Ascending(less, Insert(less, s, x))
  {
    if s != [] {
      var u := multiset(s) + multiset{x};
      var last, init := s[|s| - 1], s[..|s| - 1];
      assert s == init + [last];
      assert last in u && x in u;
      AscendingSplit(less, init, last);
      if less(x, last) {
        LinearSubset(less, u, multiset(init) + multiset{x});
        InsertAscending(less, init, x);
        InsertPermutes(less, init, x);
        var r := Insert(less, init, x);
        forall y | y in r ensures less(y, last) {
          assert y in multiset(r);
        }
        AscendingSnoc(less, r, last);
      } else {
        assert less(last, x);
        forall y | y in s ensures less(y, x) {
          assert y in u;
        }
        AscendingSnoc(less, s, x);
      }
    }
  }

  // Sorting distinct elements by a linear order yields the ascending arrangement of them ...
  lemma {:induction false} SortAscending<T(!new)>(less: (T, T) -> bool, s: seq<T>)
    requires Distinct(s) && Linear(less, multiset(s))
    ensures Ascending(less, StableSort(less, s))
  {
    if s != [] {
      var init, last := s[..|s| - 1], s[|s| - 1];
      assert s == init + [last];
      SortAscending(less, init);
      SortPermutes(less, init);
      assert last !in init;
      MemberOfPermutation(StableSort(less, init), init, last);
      InsertAscending(less, StableSort(less, init), last);
    }
  }

  // ... and there is only one such arrangement.
  lemma {:induction false} AscendingUnique<T(!new)>(less: (T, T) -> bool, a: seq<T>, b: seq<T>)
    requires Ascending(less, a) && Ascending(less, b)
    requires multiset(a) == multiset(b) && Asymmetric(less, multiset(a))
    ensures a == b
  {
    SameLength(a, b);
    if a != [] {
      SameLast(less, a, b);
      SameInit(a, b);
      AscendingUnique(less, a[..|a| - 1], b[..|b| - 1]);
      SplitLast(a);
      SplitLast(b);
    }
  }

  lemma SplitLast<T>(s: seq<T>)
    requires s != []
    ensures s == s[..|s| - 1] + [s[|s| - 1]]
  {
  }

  lemma SameInit<T>(a: seq<T>, b: seq<T>)
    requires |a| == |b| > 0 && multiset(a) == multiset(b) && a[|a| - 1] == b[|b| - 1]
    ensures multiset(a[..|a| - 1]) == multiset(b[..|b| - 1]) <= multiset(a)
  {
    WithoutLast(a);
    WithoutLast(b);
  }

  lemma WithoutLast<T>(s: seq<T>)
    requires s != []
    ensures multiset(s[..|s| - 1]) == multiset(s) - multiset{s[|s| - 1]} <= multiset(s)
  {
    SplitLast(s);
  }

  lemma SameLength<T>(a: seq<T>, b: seq<T>)
    requires multiset(a) == multiset(b)
    ensures |a| == |b|
  {
    assert |a| == |multiset(a)| == |multiset(b)| == |b|;
  }

  lemma SameLast<T(!new)>(less: (T, T) -> bool, a: seq<T>, b: seq<T>)
    requires Ascending(less, a) && Ascending(less, b) && |a| == |b| > 0
    requires multiset(a) == multiset(b) && Asymmetric(less, multiset(a))
    ensures a[|a| - 1] == b[|b| - 1]
  {
    var x, y := a[|a| - 1], b[|b| - 1];
    LastIsGreatest(less, a, b);
    LastIsGreatest(less, b, a);
    assert x in multiset(a) && y in multiset(b);
  }

  lemma LastIsGreatest<T>(less: (T, T) -> bool, a: seq<T>, b: seq<T>)
    requires Ascending(less, b) && multiset(a) == multiset(b) && |a| == |b| > 0
    ensures a[|a| - 1] == b[|b| - 1] || less(a[|a| - 1], b[|b| - 1])
  {
    assert a[|a| - 1] in multiset(b);
    var i :| 0 <= i < |b| && b[i] == a[|a| - 1];
  }

  lemma SortUnique<T(!new)>(less: (T, T) -> bool, a: seq<T>, b: seq<T>)
    requires multiset(a) == multiset(b) && Distinct(a) && Linear(less, multiset(a))
    ensures StableSort(less, a) == StableSort(less, b)
  {
    DistinctPermutation(a, b);
    SortAscending(less, a);
    SortAscending(less, b);
    SortPermutes(less, a);
    SortPermutes(less, b);
    LinearIsAsymmetric(less, multiset(a));
    AscendingUnique(less, StableSort(less, a), StableSort(less, b));
  }

  // An already ascending sequence is left alone.
  lemma SortFixed<T(!new)>(less: (T, T) -> bool, s: seq<T>)
    requires Ascending(less, s) && Linear(less, multiset(s))
    ensures StableSort(less, s) == s
  {
    AscendingDistinct(less, s);
    SortAscending(less, s);
    SortPermutes(less, s);
    LinearIsAsymmetric(less, multiset(s));
    AscendingUnique(less, StableSort(less, s), s);
  }

  lemma AscendingDistinct<T(!new)>(less: (T, T) -> bool, s: seq<T>)
    requires Ascending(less, s) && Linear(less, multiset(s))
    ensures Distinct(s)
  {
    forall i, j | 0 <= i < j < |s| ensures s[i] != s[j] {
      assert s[i] in multiset(s) && less(s[i], s[j]);
    }
  }

  lemma {:induction false} DistinctCount<T>(s: seq<T>)
    ensures Distinct(s) <==> forall x :: x in s ==> multiset(s)[x] == 1
  {
    if s != [] {
      var init, last := s[..|s| - 1], s[|s| - 1];
      assert s == init + [last];
      DistinctCount(init);
      if Distinct(s) {
        forall x | x in s ensures multiset(s)[x] == 1 {
          if x == last {
            assert last !in init;
            assert multiset(init)[last] == 0;
          } else {
            assert x in init;
          }
        }
      }
      if forall x :: x in s ==> multiset(s)[x] == 1 {
        assert last in s && multiset(s)[last] == 1;
        assert multiset(init)[last] == 0;
        forall x | x in init ensures multiset(init)[x] == 1 {
          assert x in multiset(init);
          assert x in s;
        }
      }
    }
  }

  lemma DistinctPermutation<T>(a: seq<T>, b: seq<T>)
    requires multiset(a) == multiset(b) && Distinct(a)
    ensures Distinct(b)
  {
    DistinctCount(a);
    DistinctCount(b);
    forall x | x in b ensures multiset(b)[x] == 1 {
      assert x in multiset(b);
      assert x in a;
    }
  }
}
