/**
  The subset-sum selection of `selectTenPlayers` (internal/matchmaking/engine/team.go,
  lines 72-117): the dynamic programme, an independent definition of what it decides, and the
  colexicographic minimality of the set it returns.
*/
module Selection {
  import opened Prelude
  import opened Sorting
  import opened Tickets
  import opened Groups
  import opened TeamBuilding

  predicate Below(c: seq<nat>, n: nat) {
    forall i :: 0 <= i < |c| ==> c[i] < n
  }

  // A choice of groups is the increasing sequence of their positions.
  function SumOf(sizes: seq<nat>, c: seq<nat>): nat
    requires Below(c, |sizes|)
  {
    if c == [] then 0 else SumOf(sizes, c[..|c| - 1]) + sizes[c[|c| - 1]]
  }

  ghost predicate Increasing(c: seq<nat>) {
    forall i, j :: 0 <= i < j < |c| ==> c[i] < c[j]
  }

  // c chooses the anchor group and others among the first k groups, with sum players in all.
  ghost predicate Chooses(sizes: seq<nat>, k: nat, c: seq<nat>, sum: nat) {
    && k <= |sizes|
    && c != [] && c[0] == 0 && Increasing(c)
    && Below(c, k)
    && SumOf(sizes, c) == sum
  }

  // a is at most b when, at the newest position where they differ, a is the older one.
  predicate ColexAtMost(a: seq<nat>, b: seq<nat>) {
    if a == [] then true
    else if b == [] then false
    else if a[|a| - 1] != b[|b| - 1] then a[|a| - 1] < b[|b| - 1]
    else ColexAtMost(a[..|a| - 1], b[..|b| - 1])
  }

  // The entry of the table for the given sum after the first k groups.
  function Table(sizes: seq<nat>, k: nat, sum: nat): (r: Option<seq<nat>>)
    requires 1 <= k <= |sizes|
  {
    if k == 1 then
      if sum == sizes[0] then Some([0]) else None
    else if Table(sizes, k - 1, sum).Some? then Table(sizes, k - 1, sum)
    else if sum < sizes[k - 1] then None
    else match Table(sizes, k - 1, sum - sizes[k - 1])
      case None => None
      case Some(c) => Some(c + [k - 1])
  }

  lemma {:induction false} TableIsSound(sizes: seq<nat>, k: nat, sum: nat)
    requires 1 <= k <= |sizes|
    ensures Table(sizes, k, sum).Some? ==> Chooses(sizes, k, Table(sizes, k, sum).value, sum)
  {
    if k == 1 {
      assert SumOf(sizes, [0]) == SumOf(sizes, [0][..0]) + sizes[0];
    } else {
      TableIsSound(sizes, k - 1, sum);
      if Table(sizes, k - 1, sum).None? && sum >= sizes[k - 1] {
        TableIsSound(sizes, k - 1, sum - sizes[k - 1]);
        var r := Table(sizes, k - 1, sum - sizes[k - 1]);
        if r.Some? {
          Extend(sizes, k, r.value, sum - sizes[k - 1]);
        }
      }
    }
  }

  lemma {:induction false} TableIsLeast(sizes: seq<nat>, k: nat, sum: nat, c: seq<nat>)
    requires 1 <= k <= |sizes| && Chooses(sizes, k, c, sum)
    ensures Table(sizes, k, sum).Some? && ColexAtMost(Table(sizes, k, sum).value, c)
  {
    var n := |c| - 1;
    var last := c[n];
    if k == 1 {
      assert n == 0;
      assert c[..n] == [] && SumOf(sizes, c[..n]) == 0;
    } else if last < k - 1 {
      TableIsLeast(sizes, k - 1, sum, c);
    } else {
      assert n > 0;
      assert Chooses(sizes, k - 1, c[..n], sum - sizes[k - 1]);
      TableIsLeast(sizes, k - 1, sum - sizes[k - 1], c[..n]);
      TableIsSound(sizes, k - 1, sum);
      if Table(sizes, k - 1, sum).None? {
        var d := Table(sizes, k - 1, sum - sizes[k - 1]).value;
        assert (d + [k - 1])[..|d|] == d;
      }
    }
  }

  lemma Extend(sizes: seq<nat>, k: nat, c: seq<nat>, sum: nat)
    requires 1 < k <= |sizes| && Chooses(sizes, k - 1, c, sum)
    ensures Chooses(sizes, k, c + [k - 1], sum + sizes[k - 1])
  {
    assert (c + [k - 1])[..|c|] == c;
  }

  /**
    The table decides subset sum exactly: it has an entry iff some choice containing the anchor's
    group reaches the sum, and the entry is the colexicographically least such choice.
  */
  lemma TableIsExact(sizes: seq<nat>, sum: nat)
    requires sizes != []
    ensures Table(sizes, |sizes|, sum).Some? <==> exists c :: Chooses(sizes, |sizes|, c, sum)
    ensures forall c :: Chooses(sizes, |sizes|, c, sum) ==>
              Table(sizes, |sizes|, sum).Some? && ColexAtMost(Table(sizes, |sizes|, sum).value, c)
    ensures Table(sizes, |sizes|, sum).Some? ==> Chooses(sizes, |sizes|, Table(sizes, |sizes|, sum).value, sum)
  {
    TableIsSound(sizes, |sizes|, sum);
    forall c | Chooses(sizes, |sizes|, c, sum)
      ensures Table(sizes, |sizes|, sum).Some? && ColexAtMost(Table(sizes, |sizes|, sum).value, c)
    {
      TableIsLeast(sizes, |sizes|, sum, c);
    }
  }

  /** Colexicographic order is antisymmetric, so the least choice is unique. */
  lemma {:induction false} ColexAntisymmetric(a: seq<nat>, b: seq<nat>)
    requires ColexAtMost(a, b) && ColexAtMost(b, a)
    ensures a == b
  {
    if a != [] && b != [] {
      ColexAntisymmetric(a[..|a| - 1], b[..|b| - 1]);
      SplitLast(a);
      SplitLast(b);
    }
  }

  function Sizes(groups: seq<Group>): (r: seq<nat>)
    ensures |r| == |groups|
  {
    seq(|groups|, i requires 0 <= i < |groups| => |groups[i].tickets|)
  }

  function At(groups: seq<Group>, c: seq<nat>): (r: seq<Group>)
    requires Below(c, |groups|)
    ensures |r| == |c| && forall i :: 0 <= i < |c| ==> r[i] == groups[c[i]]
  {
    seq(|c|, i requires 0 <= i < |c| => groups[c[i]])
  }

  // combinations represents the table after the first k groups, for sums up to target.
  ghost predicate Represents(combinations: map<int, seq<nat>>, sizes: seq<nat>, k: nat, target: nat)
    requires 1 <= k <= |sizes|
  {
    && (forall s :: s in combinations ==> 0 <= s <= target)
    && forall s: nat :: s <= target ==> Entry(combinations, s) == Table(sizes, k, s)
  }

  function Entry(combinations: map<int, seq<nat>>, s: int): Option<seq<nat>> {
    if s in combinations then Some(combinations[s]) else None
  }

  // One pass of the inner loop: sizes from target - groupSize down to 0.
  method AddGroup(combinations: map<int, seq<nat>>, sizes: seq<nat>, k: nat, target: nat)
    returns (r: map<int, seq<nat>>)
    requires 1 <= k < |sizes| && sizes[k] >= 1 && Represents(combinations, sizes, k, target)
    ensures Represents(r, sizes, k + 1, target)
  {
    r := combinations;
    var groupSize := sizes[k];
    var size := target - groupSize;
    while size >= 0
      invariant -1 <= size <= target - groupSize || (size < 0 && r == combinations && size == target - groupSize)
      invariant forall s :: s in r ==> 0 <= s <= target
      invariant forall s: nat :: s <= target ==>
                  Entry(r, s) == if s > size + groupSize && s >= groupSize then Table(sizes, k + 1, s)
                    else Table(sizes, k, s)
    {
      if size in r {
        var newSize := size + groupSize;
        assert Entry(r, size) == Table(sizes, k, size);
        if newSize !in r {
          r := r[newSize := r[size] + [k]];
        }
      }
      size := size - 1;
    }
  }

  /** The dynamic programme computes the table. */
  method FillTable(sizes: seq<nat>, target: nat) returns (combinations: map<int, seq<nat>>)
    requires sizes != [] && sizes[0] <= target && forall i :: 0 <= i < |sizes| ==> sizes[i] >= 1
    ensures Represents(combinations, sizes, |sizes|, target)
  {
    combinations := map[sizes[0] := [0]];
    for groupIndex := 1 to |sizes|
      invariant Represents(combinations, sizes, groupIndex, target)
    {
      combinations := AddGroup(combinations, sizes, groupIndex, target);
    }
  }

  // The loop that looks for the anchor keeps the last match.
  method FindAnchor(groups: seq<Group>, anchorId: Id) returns (index: int)
    ensures index < 0 <==> LastWith(groups, anchorId).None?
    ensures index >= 0 ==> LastWith(groups, anchorId) == Some(index)
  {
    index := -1;
    for n := 0 to |groups|
      invariant -1 <= index < n
      invariant index < 0 <==> LastWith(groups[..n], anchorId).None?
      invariant index >= 0 ==> LastWith(groups[..n], anchorId) == Some(index)
    {
      assert groups[..n + 1][..n] == groups[..n];
      var found := false;
      for k := 0 to |groups[n].tickets|
        invariant found <==> exists i :: 0 <= i < k && groups[n].tickets[i].id == anchorId
      {
        if groups[n].tickets[k].id == anchorId {
          found := true;
        }
      }
      assert found <==> Holds(groups[n], anchorId);
      if found {
        index := n;
      }
    }
    assert groups[..|groups|] == groups;
  }

  // What selectTenPlayers returns.
  function Selected(candidates: seq<Profile>, anchorId: Id, target: nat): (r: Result<seq<Group>, TeamError>)
  {
    var groups := Ordered(candidates);
    if LastWith(groups, anchorId).None? then Err(NoValidTeamSplit)
    else
      Chosen(AnchorFirst(groups, anchorId), target)
  }

  // What is left to do when the anchor's group is the first.
  function Chosen(groups: seq<Group>, target: nat): (r: Result<seq<Group>, TeamError>)
    requires groups != []
  {
    if |groups[0].tickets| > target then Err(NoValidTeamSplit)
    else
      match Table(Sizes(groups), |groups|, target)
      case None => Err(InsufficientPlayers)
      case Some(c) => TableIsSound(Sizes(groups), |groups|, target); Ok(At(groups, c))
  }

  method SelectTenPlayers(candidates: seq<Profile>, anchorId: Id, target: nat)
    returns (r: Result<seq<Group>, TeamError>)
    ensures r == Selected(candidates, anchorId, target)
  {
    var groups := GroupByParty(StableSort(ByAge, candidates));
    GroupingPartitions(StableSort(ByAge, candidates));
    var anchorIndex := FindAnchor(groups, anchorId);
    if anchorIndex < 0 {
      return Err(NoValidTeamSplit);
    }
    ghost var ordered := groups;
    groups := groups[0 := groups[anchorIndex]][anchorIndex := groups[0]];
    assert groups == AnchorFirst(ordered, anchorId);
    r := ChooseGroups(groups, target);
  }

  method ChooseGroups(groups: seq<Group>, target: nat) returns (r: Result<seq<Group>, TeamError>)
    requires groups != [] && forall i :: 0 <= i < |groups| ==> groups[i].tickets != []
    ensures r == Chosen(groups, target)
  {
    if |groups[0].tickets| > target {
      return Err(NoValidTeamSplit);
    }
    var combinations := FillTable(Sizes(groups), target);
    if target !in combinations {
      assert Entry(combinations, target).None?;
      return Err(InsufficientPlayers);
    }
    assert Entry(combinations, target) == Some(combinations[target]);
    TableIsSound(Sizes(groups), |groups|, target);
    var selected := Gather(groups, combinations[target]);
    return Ok(selected);
  }

  method Gather(groups: seq<Group>, indexes: seq<nat>) returns (selected: seq<Group>)
    requires Below(indexes, |groups|)
    ensures selected == At(groups, indexes)
  {
    selected := [];
    for n := 0 to |indexes|
      invariant selected == At(groups, indexes)[..n]
    {
      selected := selected + [groups[indexes[n]]];
    }
  }
}
