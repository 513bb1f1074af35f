/**
  The swap-based enumeration of `permuteRoles`, as a function: the sequence of arrangements
  handed to the visitor, in order, and the exact characterisation of that sequence.
*/
module Permutations {
  import opened Prelude
  import opened Sorting

  function Swap<T>(s: seq<T>, i: nat, j: nat): (r: seq<T>)
    requires i < |s| && j < |s|
    ensures |r| == |s|
  {
    s[i := s[j]][j := s[i]]
  }

  function Visits<T>(s: seq<T>, index: nat): seq<seq<T>>
    requires index <= |s|
    decreases |s| - index, 1, 0
  {
    if index == |s| then [s] else VisitsFrom(s, index, index)
  }

  function VisitsFrom<T>(s: seq<T>, index: nat, current: nat): seq<seq<T>>
    requires index <= current <= |s| && index < |s|
    decreases |s| - index, 0, |s| - current
  {
    if current == |s| then []
    else Visits(Swap(s, index, current), index + 1) + VisitsFrom(s, index, current + 1)
  }

  function Factorial(n: nat): nat {
    if n == 0 then 1 else n * Factorial(n - 1)
  }

  // p rearranges s from position index on and agrees with it before.
  ghost predicate Rearranges<T>(p: seq<T>, s: seq<T>, index: nat)
    requires index <= |s|
  {
    |p| == |s| && p[..index] == s[..index] && multiset(p) == multiset(s)
  }

  lemma SwapPermutes<T>(s: seq<T>, i: nat, j: nat)
    requires i < |s| && j < |s|
    ensures multiset(Swap(s, i, j)) == multiset(s)
  {
    assert multiset(s[i := s[j]]) == multiset(s) - multiset{s[i]} + multiset{s[j]};
  }

  lemma {:induction false} VisitsSound<T>(s: seq<T>, index: nat, p: seq<T>)
    requires index <= |s| && p in Visits(s, index)
    ensures Rearranges(p, s, index)
    decreases |s| - index, 1, 0
  {
    if index < |s| {
      VisitsFromSound(s, index, index, p);
    }
  }

  lemma {:induction false} VisitsFromSound<T>(s: seq<T>, index: nat, current: nat, p: seq<T>)
    requires index <= current <= |s| && index < |s| && p in VisitsFrom(s, index, current)
    ensures Rearranges(p, s, index)
    ensures exists j :: current <= j < |s| && p[index] == s[j]
    decreases |s| - index, 0, |s| - current
  {
    assert current < |s|;
    var t := Swap(s, index, current);
    if p in Visits(t, index + 1) {
      VisitsSound(t, index + 1, p);
      SwapPermutes(s, index, current);
      assert p[index] == p[..index + 1][index] == t[..index + 1][index] == s[current];
      assert p[..index] == p[..index + 1][..index] == t[..index + 1][..index] == s[..index];
    } else {
      VisitsFromSound(s, index, current + 1, p);
    }
  }

  lemma NextElement<T>(s: seq<T>, index: nat, p: seq<T>) returns (j: nat)
    requires index < |s| && Rearranges(p, s, index)
    ensures index <= j < |s| && s[j] == p[index]
  {
    assert p == p[..index] + p[index..] && s == s[..index] + s[index..];
    assert multiset(p[index..]) == multiset(p) - multiset(p[..index]) == multiset(s[index..]);
    assert p[index] in p[index..];
    MemberOfPermutation(p[index..], s[index..], p[index]);
    var k :| 0 <= k < |s[index..]| && s[index..][k] == p[index];
    j := index + k;
  }

  lemma SwapKeepsRearrangement<T>(s: seq<T>, index: nat, p: seq<T>, j: nat)
    requires index <= j < |s| && Rearranges(p, s, index) && s[j] == p[index]
    ensures Rearranges(p, Swap(s, index, j), index + 1)
  {
    SwapPermutes(s, index, j);
    assert p[..index + 1] == p[..index] + [p[index]];
    assert Swap(s, index, j)[..index + 1] == s[..index] + [s[j]];
  }

  lemma {:induction false} VisitsComplete<T>(s: seq<T>, index: nat, p: seq<T>)
    requires index <= |s| && Rearranges(p, s, index)
    ensures p in Visits(s, index)
    decreases |s| - index
  {
    if index == |s| {
      assert p == p[..index] == s[..index] == s;
    } else {
      var j := NextElement(s, index, p);
      SwapKeepsRearrangement(s, index, p, j);
      VisitsComplete(Swap(s, index, j), index + 1, p);
      VisitsFromHas(s, index, index, j, p);
    }
  }

  lemma {:induction false} VisitsFromHas<T>(s: seq<T>, index: nat, current: nat, j: nat, p: seq<T>)
    requires index <= current <= j < |s| && p in Visits(Swap(s, index, j), index + 1)
    ensures p in VisitsFrom(s, index, current)
    decreases j - current
  {
    if current < j {
      VisitsFromHas(s, index, current + 1, j, p);
    }
  }

  lemma {:induction false} VisitsDistinct<T>(s: seq<T>, index: nat)
    requires index <= |s| && Distinct(s)
    ensures Distinct(Visits(s, index)) && |Visits(s, index)| == Factorial(|s| - index)
    decreases |s| - index, 1, 0
  {
    if index < |s| {
      VisitsFromDistinct(s, index, index);
    }
  }

  lemma {:induction false} VisitsFromDistinct<T>(s: seq<T>, index: nat, current: nat)
    requires index <= current <= |s| && index < |s| && Distinct(s)
    ensures Distinct(VisitsFrom(s, index, current))
    ensures |VisitsFrom(s, index, current)| == (|s| - current) * Factorial(|s| - index - 1)
    decreases |s| - index, 0, |s| - current
  {
    if current < |s| {
      var t := Swap(s, index, current);
      SwapPermutes(s, index, current);
      DistinctPermutation(s, t);
      VisitsDistinct(t, index + 1);
      VisitsFromDistinct(s, index, current + 1);
      var a, b := Visits(t, index + 1), VisitsFrom(s, index, current + 1);
      forall p | p in a ensures p !in b {
        VisitsSound(t, index + 1, p);
        assert p[index] == p[..index + 1][index] == t[..index + 1][index] == s[current];
        if p in b {
          VisitsFromSound(s, index, current + 1, p);
        }
      }
      DistinctConcat(a, b);
      var f := Factorial(|s| - index - 1);
      assert (|s| - current) * f == f + (|s| - current - 1) * f;
    }
  }

  /** permuteRoles hands every arrangement of distinct elements to the visitor exactly once. */
  lemma VisitsExactlyOnce<T>(s: seq<T>, p: seq<T>)
    requires Distinct(s)
    ensures multiset(Visits(s, 0))[p] == if multiset(p) == multiset(s) then 1 else 0
    ensures |Visits(s, 0)| == Factorial(|s|)
  {
    VisitsDistinct(s, 0);
    DistinctCount(Visits(s, 0));
    if multiset(p) == multiset(s) {
      SameLength(p, s);
      VisitsComplete(s, 0, p);
    } else if p in Visits(s, 0) {
      VisitsSound(s, 0, p);
    }
  }
}
