/**
  The two algorithms end to end, and what comparing them guarantees
  (internal/matchmaking/engine/team.go, lines 46-70, and
  internal/matchmaking/engine/beam.go, lines 39-167).
*/
module FormationAlgorithms {
  import opened Prelude
  import opened Sorting
  import opened Tickets
  import opened Groups
  import opened TeamBuilding
  import opened Selection
  import opened Partition
  import opened Beam
  import opened Optimizer

  // The groups both algorithms search.  An anchor that is not a candidate leaves them in age order.
  function Searched(candidates: seq<Profile>, anchorId: Id): seq<Group> {
    var groups := Ordered(candidates);
    if LastWith(groups, anchorId).None? then groups else AnchorFirst(groups, anchorId)
  }

  lemma FlattenSwap(groups: seq<Group>, i: nat)
    requires i < |groups|
    ensures multiset(Flatten(SwapGroups(groups, i))) == multiset(Flatten(groups))
  {
    if i > 0 {
      var r := groups[0 := groups[i]];
      ReplaceGroup(groups, 0, groups[i]);
      ReplaceGroup(r, i, groups[0]);
      var a, b := Flatten(r[i := groups[0]]), Flatten(groups);
      Cancel(multiset(a), multiset(b), multiset(Flatten(r)), multiset(groups[0].tickets), multiset(groups[i].tickets));
    } else {
      assert SwapGroups(groups, 0) == groups;
    }
  }

  lemma Cancel<T>(a: multiset<T>, b: multiset<T>, r: multiset<T>, x: multiset<T>, y: multiset<T>)
    requires r + x == b + y && a + y == r + x
    ensures a == b
  {
    assert a == a + y - y == b + y - y;
  }

  lemma ReplaceGroup(groups: seq<Group>, i: nat, g: Group)
    requires i < |groups|
    ensures multiset(Flatten(groups[i := g])) + multiset(groups[i].tickets)
            == multiset(Flatten(groups)) + multiset(g.tickets)
  {
    FlattenUpdate(groups, i, g);
  }

  ghost predicate NoneEmpty(groups: seq<Group>) {
    forall i :: 0 <= i < |groups| ==> groups[i].tickets != []
  }

  lemma OrderedKeepsTickets(candidates: seq<Profile>)
    ensures multiset(Flatten(Ordered(candidates))) == multiset(candidates) && NoneEmpty(Ordered(candidates))
  {
    SortPermutes(ByAge, candidates);
    GroupingPartitions(StableSort(ByAge, candidates));
  }

  lemma AnchoringKeepsTickets(groups: seq<Group>, anchorId: Id)
    requires NoneEmpty(groups) && LastWith(groups, anchorId).Some?
    ensures multiset(Flatten(AnchorFirst(groups, anchorId))) == multiset(Flatten(groups))
    ensures NoneEmpty(AnchorFirst(groups, anchorId))
  {
    FlattenSwap(groups, LastWith(groups, anchorId).value);
  }

  lemma SearchedKeepsTickets(candidates: seq<Profile>, anchorId: Id)
    ensures var groups := Searched(candidates, anchorId);
            && multiset(Flatten(groups)) == multiset(candidates)
            && |Flatten(groups)| == |candidates|
            && NoneEmpty(groups)
  {
    OrderedKeepsTickets(candidates);
    if LastWith(Ordered(candidates), anchorId).Some? {
      AnchoringKeepsTickets(Ordered(candidates), anchorId);
    }
    SameLength(Flatten(Searched(candidates, anchorId)), candidates);
  }

  lemma FlattenPrefix(groups: seq<Group>, k: nat, m: nat)
    requires k <= m <= |groups|
    ensures multiset(Flatten(groups[..k])) <= multiset(Flatten(groups[..m]))
  {
    assert groups[..m] == groups[..k] + groups[k..m];
    FlattenConcat(groups[..k], groups[k..m]);
  }

  lemma FlattenNext(groups: seq<Group>, k: nat, m: nat)
    requires k < m <= |groups|
    ensures multiset(Flatten(groups[..k])) + multiset(groups[k].tickets) <= multiset(Flatten(groups[..m]))
  {
    assert groups[..k + 1] == groups[..k] + [groups[k]];
    FlattenOneMore(groups[..k], groups[k]);
    FlattenPrefix(groups, k + 1, m);
  }

  lemma FlattenLast(groups: seq<Group>)
    requires groups != []
    ensures var n := |groups| - 1;
            multiset(Flatten(groups)) == multiset(Flatten(groups[..n])) + multiset(groups[n].tickets)
  {
  }

  // Chosen groups contribute each of their tickets once.
  lemma {:induction false} FlattenChosen(groups: seq<Group>, c: seq<nat>, m: nat)
    requires Below(c, m) && Increasing(c) && m <= |groups|
    ensures multiset(Flatten(At(groups, c))) <= multiset(Flatten(groups[..m]))
  {
    if c != [] {
      var n := |c| - 1;
      FlattenChosen(groups, c[..n], c[n]);
      FlattenNext(groups, c[n], m);
      FlattenLast(At(groups, c));
      assert At(groups, c)[..n] == At(groups, c[..n]);
    }
  }

  lemma ChosenArePicked(groups: seq<Group>, c: seq<nat>, candidates: seq<Profile>)
    requires Below(c, |groups|) && Increasing(c) && multiset(Flatten(groups)) == multiset(candidates)
    ensures Picked(Flatten(At(groups, c)), candidates)
  {
    FlattenChosen(groups, c, |groups|);
    assert groups[..|groups|] == groups;
  }

  lemma {:induction false} RemainingIsFlat(groups: seq<Group>, i: nat)
    requires i <= |groups|
    ensures Remaining(Sizes(groups), i) == |Flatten(groups[i..])|
    decreases |groups| - i
  {
    if i < |groups| {
      RemainingIsFlat(groups, i + 1);
      assert groups[i..] == [groups[i]] + groups[i + 1..];
      FlattenConcat([groups[i]], groups[i + 1..]);
      FlattenOneMore([], groups[i]);
      assert [] + [groups[i]] == [groups[i]];
    }
  }

  // Every group has a player, so ten players make at most ten groups.
  lemma {:induction false} FewGroups(sizes: seq<nat>, c: seq<nat>)
    requires Below(c, |sizes|) && forall i :: 0 <= i < |sizes| ==> sizes[i] >= 1
    ensures |c| <= SumOf(sizes, c)
  {
    if c != [] {
      FewGroups(sizes, c[..|c| - 1]);
    }
  }

  // The loop of moveAnchorGroupFirst swaps at the first match and stops.
  method MoveAnchorGroupFirst(groups: seq<Group>, anchorId: Id) returns (moved: seq<Group>)
    requires forall i, j :: 0 <= i < j < |groups| ==> !(Holds(groups[i], anchorId) && Holds(groups[j], anchorId))
    ensures moved == if LastWith(groups, anchorId).None? then groups else AnchorFirst(groups, anchorId)
    ensures (forall i :: 0 <= i < |groups| ==> !Holds(groups[i], anchorId)) ==> moved == groups
    ensures forall i :: 0 <= i < |groups| && Holds(groups[i], anchorId) ==>
              && |moved| == |groups| && moved[0] == groups[i] && moved[i] == groups[0]
              && forall k :: 0 < k < |groups| && k != i ==> moved[k] == groups[k]
  {
    for index := 0 to |groups|
      invariant forall i :: 0 <= i < index ==> !Holds(groups[i], anchorId)
    {
      if Holds(groups[index], anchorId) {
        return SwapGroups(groups, index);
      }
    }
    return groups;
  }

  ghost predicate DistinctIds(tickets: seq<Profile>) {
    forall i, j :: 0 <= i < j < |tickets| ==> tickets[i].id != tickets[j].id
  }

  lemma AnchorHeldOnce(candidates: seq<Profile>, anchorId: Id)
    requires DistinctIds(candidates)
    ensures var groups := Ordered(candidates);
            forall i, j :: 0 <= i < j < |groups| ==> !(Holds(groups[i], anchorId) && Holds(groups[j], anchorId))
  {
    var sorted := StableSort(ByAge, candidates);
    SortPermutes(ByAge, candidates);
    GroupingPartitions(sorted);
    var groups := Ordered(candidates);
    forall i, j | 0 <= i < j < |groups|
      ensures !(Holds(groups[i], anchorId) && Holds(groups[j], anchorId))
    {
      if Holds(groups[i], anchorId) && Holds(groups[j], anchorId) {
        var t :| t in groups[i].tickets && t.id == anchorId;
        var u :| u in groups[j].tickets && u.id == anchorId;
        InFlatten(groups, i, t);
        InFlatten(groups, j, u);
        MemberOfPermutation(Flatten(groups), candidates, t);
        MemberOfPermutation(Flatten(groups), candidates, u);
        SameById(candidates, t, u);
        InOneGroup(groups, i, j, t);
      }
    }
  }

  lemma InOneGroup(groups: seq<Group>, i: nat, j: nat, t: Profile)
    requires WellGrouped(groups) && i < |groups| && j < |groups| && t in groups[i].tickets && t in groups[j].tickets
    ensures i == j
  {
    assert groups[i].key == KeyOf(t) == groups[j].key;
  }

  lemma SameById(candidates: seq<Profile>, t: Profile, u: Profile)
    requires DistinctIds(candidates) && t in candidates && u in candidates && t.id == u.id
    ensures t == u
  {
    var i :| 0 <= i < |candidates| && candidates[i] == t;
    var j :| 0 <= j < |candidates| && candidates[j] == u;
  }

  lemma InFlatten(groups: seq<Group>, i: nat, t: Profile)
    requires i < |groups| && t in groups[i].tickets
    ensures t in Flatten(groups)
  {
    FlattenSplit(groups, i);
  }

  // The one choice the greedy algorithm considers.
  ghost predicate FirstChoice(groups: seq<Group>, c: seq<nat>) {
    && Chooses(Sizes(groups), |groups|, c, 10)
    && forall d :: Chooses(Sizes(groups), |groups|, d, 10) ==> ColexAtMost(c, d)
  }

  lemma FirstChoiceIsUnique(groups: seq<Group>, c: seq<nat>, d: seq<nat>)
    requires FirstChoice(groups, c) && FirstChoice(groups, d)
    ensures c == d
  {
    ColexAntisymmetric(c, d);
  }

  lemma FirstChoiceIsTable(groups: seq<Group>)
    requires groups != []
    ensures Table(Sizes(groups), |groups|, 10).Some? ==> FirstChoice(groups, Table(Sizes(groups), |groups|, 10).value)
    ensures Table(Sizes(groups), |groups|, 10).None? ==> forall c :: !Chooses(Sizes(groups), |groups|, c, 10)
  {
    TableIsExact(Sizes(groups), 10);
  }

  // The first group is in the choice, so it has at most ten players.
  lemma {:induction false} FirstGroupFits(sizes: seq<nat>, k: nat, c: seq<nat>, sum: nat)
    requires Chooses(sizes, k, c, sum)
    ensures sizes[0] <= sum
  {
    if |c| > 1 {
      FirstGroupFits(sizes, k, c[..|c| - 1], SumOf(sizes, c[..|c| - 1]));
    } else {
      assert c == [0] && SumOf(sizes, c[..0]) == 0;
    }
  }

  ghost predicate GreedyForms(candidates: seq<Profile>, anchorId: Id, c: seq<nat>, split: seq<bool>) {
    && LastWith(Ordered(candidates), anchorId).Some?
    && FirstChoice(Searched(candidates, anchorId), c)
    && Balanced(At(Searched(candidates, anchorId), c), split, 5)
  }

  lemma TooFewForGreedy(candidates: seq<Profile>, anchorId: Id)
    requires |candidates| < 10
    ensures forall c, split :: !GreedyForms(candidates, anchorId, c, split)
  {
    var groups := Searched(candidates, anchorId);
    SearchedKeepsTickets(candidates, anchorId);
    forall c, split | GreedyForms(candidates, anchorId, c, split) ensures false {
      TooFewTickets(groups, c, split);
    }
  }

  ghost predicate GreedySucceeds(candidates: seq<Profile>, anchorId: Id) {
    exists c, split :: GreedyForms(candidates, anchorId, c, split)
  }

  // Which check fails first when greedy fails.
  function GreedyError(candidates: seq<Profile>, anchorId: Id): TeamError {
    if |candidates| < 10 then InsufficientPlayers
    else
      match Selected(candidates, anchorId, 10)
      case Err(e) => e
      case Ok(_) => NoValidTeamSplit
  }

  // Some parties have ten players together, that of the anchor among them.
  ghost predicate TenTogether(candidates: seq<Profile>, anchorId: Id) {
    var groups := Searched(candidates, anchorId);
    exists c :: Chooses(Sizes(groups), |groups|, c, 10)
  }

  /**
    Greedy misses players iff there are fewer than ten, or the anchor is there and its party has no
    more than ten, but no parties have ten together; every other failure is that of a split.
  */
  lemma GreedyErrorIs(candidates: seq<Profile>, anchorId: Id)
    ensures GreedyError(candidates, anchorId)
            == if |candidates| < 10 then InsufficientPlayers
               else if (exists t :: t in candidates && t.id == anchorId)
                    && |Searched(candidates, anchorId)[0].tickets| <= 10 && !TenTogether(candidates, anchorId)
                    then InsufficientPlayers
               else NoValidTeamSplit
  {
    AnchorIsGrouped(candidates, anchorId);
    if LastWith(Ordered(candidates), anchorId).Some? {
      FirstChoiceIsTable(Searched(candidates, anchorId));
    }
  }

  lemma AnchorIsGrouped(candidates: seq<Profile>, anchorId: Id)
    ensures LastWith(Ordered(candidates), anchorId).Some? <==> exists t :: t in candidates && t.id == anchorId
  {
    var groups := Ordered(candidates);
    OrderedKeepsTickets(candidates);
    if LastWith(groups, anchorId).Some? {
      var i := LastWith(groups, anchorId).value;
      var t :| t in groups[i].tickets && t.id == anchorId;
      InFlatten(groups, i, t);
      MemberOfPermutation(Flatten(groups), candidates, t);
    }
    if t :| t in candidates && t.id == anchorId {
      MemberOfPermutation(Flatten(groups), candidates, t);
      var i := GroupWith(groups, t);
      assert Holds(groups[i], anchorId);
    }
  }

  lemma {:induction false} GroupWith(groups: seq<Group>, t: Profile) returns (i: nat)
    requires t in Flatten(groups)
    ensures i < |groups| && t in groups[i].tickets
  {
    var n := |groups| - 1;
    if t in groups[n].tickets {
      i := n;
    } else {
      i := GroupWith(groups[..n], t);
    }
  }

  /**
    Greedy succeeds iff the anchor is a candidate and the first choice of ten players has a split
    into two fives; the formation then is a best one of its splits.
  */
  method FormTeamsGreedy(candidates: seq<Profile>, anchorId: Id, ctx: Context)
    returns (r: Result<Formation, TeamError>, ghost c: seq<nat>, ghost split: seq<bool>)
    requires ctx.Valid() && Candidates(candidates)
    ensures r.Ok? <==> GreedySucceeds(candidates, anchorId)
    ensures r.Err? ==> r.error == GreedyError(candidates, anchorId)
    ensures r.Ok? ==>
              FirstChoice(Searched(candidates, anchorId), c)
              && BestSplit(At(Searched(candidates, anchorId), c), 5, split)
    ensures r.Ok? ==> Admits(Searched(candidates, anchorId), c, split, ctx, r.value)
  {
    c, split := [], [];
    if |candidates| < ctx.policy.teamSize * 2 {
      TooFewForGreedy(candidates, anchorId);
      return Err(InsufficientPlayers), c, split;
    }
    ghost var groups := Searched(candidates, anchorId);
    var selection := SelectTenPlayers(candidates, anchorId, ctx.policy.teamSize * 2);
    if selection.Err? {
      NoFirstChoice(candidates, anchorId);
      return Err(selection.error), c, split;
    }
    FirstChoiceIsTable(groups);
    c := Table(Sizes(groups), |groups|, 10).value;
    SearchedKeepsTickets(candidates, anchorId);
    FewGroups(Sizes(groups), c);
    var partition;
    partition, split := BalancedPartition(selection.value, ctx.policy.teamSize);
    if partition.Err? {
      NoSplitOfFirst(candidates, anchorId, c);
      return Err(partition.error), c, split;
    }
    FlattenCount(partition.value.0);
    FlattenCount(partition.value.1);
    // Both sides have five players, so neither call fails.
    var teamA := BuildAssignedTeam(Flatten(partition.value.0), ctx);
    var teamB := BuildAssignedTeam(Flatten(partition.value.1), ctx);
    assert GreedyForms(candidates, anchorId, c, split);
    return Ok(Formation(teamA.value, teamB.value)), c, split;
  }

  lemma NoFirstChoice(candidates: seq<Profile>, anchorId: Id)
    requires Selected(candidates, anchorId, 10).Err?
    ensures forall c, split :: !GreedyForms(candidates, anchorId, c, split)
  {
    var groups := Searched(candidates, anchorId);
    forall c, split | GreedyForms(candidates, anchorId, c, split) ensures false {
      FirstGroupFits(Sizes(groups), |groups|, c, 10);
      FirstChoiceIsTable(groups);
    }
  }

  lemma NoSplitOfFirst(candidates: seq<Profile>, anchorId: Id, c: seq<nat>)
    requires FirstChoice(Searched(candidates, anchorId), c) && Unsplittable(At(Searched(candidates, anchorId), c), 5)
    ensures forall d, split :: !GreedyForms(candidates, anchorId, d, split)
  {
    forall d, split | GreedyForms(candidates, anchorId, d, split) ensures false {
      FirstChoiceIsUnique(Searched(candidates, anchorId), c, d);
    }
  }

  /**
    Greedy is not complete: with parties of four, four, two, one and five players, oldest first, it
    settles on four, four and two, which do not split, though four, one and five do.
  */
  lemma GreedyMissesSplit(groups: seq<Group>)
    requires Sizes(groups) == [4, 4, 2, 1, 5]
    ensures FirstChoice(groups, [0, 1, 2]) && Unsplittable(At(groups, [0, 1, 2]), 5)
    ensures Chooses(Sizes(groups), 5, [0, 3, 4], 10) && Balanced(At(groups, [0, 3, 4]), [true, true, false], 5)
  {
    FirstOfTheFive(Sizes(groups));
    FirstChoiceIsTable(groups);
    assert forall i :: 0 <= i < 5 ==> |groups[i].tickets| == Sizes(groups)[i];
    assert At(groups, [0, 1, 2]) == [groups[0], groups[1], groups[2]];
    forall split ensures !Balanced(At(groups, [0, 1, 2]), split, 5) {
      if |split| == 3 { EvenPick(At(groups, [0, 1, 2]), split, true); }
    }
    assert At(groups, [0, 3, 4]) == [groups[0], groups[3], groups[4]];
    FirstTwoAgainstThird(groups[0], groups[3], groups[4]);
    CountOfTwo(groups[0], groups[3]);
    CountOfTwo(groups[4], groups[4]);
  }

  lemma FirstOfTheFive(sizes: seq<nat>)
    requires sizes == [4, 4, 2, 1, 5]
    ensures Table(sizes, 5, 10) == Some([0, 1, 2])
    ensures Chooses(sizes, 5, [0, 3, 4], 10)
  {
    assert Table(sizes, 1, 4) == Some([0]);
    assert Table(sizes, 1, 8).None? && Table(sizes, 1, 10).None? && Table(sizes, 1, 6).None?;
    assert Table(sizes, 2, 8) == Some([0] + [1]);
    assert [0] + [1] == [0, 1] && [0, 1] + [2] == [0, 1, 2];
    assert Table(sizes, 2, 10).None?;
    assert Table(sizes, 3, 10) == Some([0, 1, 2]);
    assert Table(sizes, 4, 10) == Table(sizes, 3, 10);
    assert Table(sizes, 5, 10) == Table(sizes, 4, 10);
    var c := [0, 3, 4];
    assert c[..2] == [0, 3] && [0, 3][..1] == [0] && [0][..0] == [];
    assert SumOf(sizes, []) == 0;
    assert SumOf(sizes, [0]) == 4;
    assert SumOf(sizes, [0, 3]) == 5;
  }

  // Even parties cannot be split into fives.
  lemma {:induction false} EvenPick(groups: seq<Group>, split: seq<bool>, side: bool)
    requires |groups| == |split| && forall i :: 0 <= i < |groups| ==> |groups[i].tickets| % 2 == 0
    ensures PlayerCount(Pick(groups, split, side)) % 2 == 0
  {
    if groups != [] {
      var n := |groups| - 1;
      var init := Pick(groups[..n], split[..n], side);
      EvenPick(groups[..n], split[..n], side);
      assert (init + [groups[n]])[..|init|] == init;
    }
  }

  lemma FirstTwoAgainstThird(a: Group, b: Group, c: Group)
    ensures Pick([a, b, c], [true, true, false], true) == [a, b]
    ensures Pick([a, b, c], [true, true, false], false) == [c]
  {
    assert [a, b, c][..2] == [a, b] && [true, true, false][..2] == [true, true];
    assert [a, b][..1] == [a] && [true, true][..1] == [true];
    assert Pick([a], [true], true) == [a] && Pick([a], [true], false) == [];
  }

  lemma CountOfTwo(a: Group, b: Group)
    ensures PlayerCount([a, b]) == |a.tickets| + |b.tickets| && PlayerCount([a]) == |a.tickets|
  {
    assert [a, b][..1] == [a] && [a][..0] == [];
    assert PlayerCount([a]) == |a.tickets|;
  }

  datatype Optimized = Optimized(formation: Formation, quality: real, evaluated: nat)

  // The choices that the beam search comes up with.
  ghost function BeamChoices(candidates: seq<Profile>, anchorId: Id, ctx: Context, rank: Ranking): seq<seq<nat>>
    requires rank.Sorts()
  {
    var groups := Searched(candidates, anchorId);
    if groups == [] || |groups[0].tickets| > 5 then []
    else Found(Sizes(groups), 10, ctx.policy.beamWidth, rank, |groups|)
  }

  ghost predicate BeamSucceeds(candidates: seq<Profile>, anchorId: Id, ctx: Context, rank: Ranking)
    requires rank.Sorts() && ctx.Valid()
  {
    exists c, split, f :: c in BeamChoices(candidates, anchorId, ctx, rank)
                          && Admits(Searched(candidates, anchorId), c, split, ctx, f)
  }

  // Which check fails first when the beam algorithm fails.
  ghost function BeamError(candidates: seq<Profile>, anchorId: Id, ctx: Context, rank: Ranking): TeamError
    requires rank.Sorts()
  {
    var groups := Searched(candidates, anchorId);
    if |candidates| < 10 then InsufficientPlayers
    else if groups == [] || |groups[0].tickets| > 5 then NoValidTeamSplit
    else if BeamChoices(candidates, anchorId, ctx, rank) == [] then InsufficientPlayers
    else NoValidTeamSplit
  }

  // No level of the search over these groups overflows the beam.
  ghost predicate BeamSuffices(candidates: seq<Profile>, anchorId: Id, width: nat) {
    var sizes := Sizes(Searched(candidates, anchorId));
    CanFill(sizes, 10) ==> Fits(sizes, 10, width, |sizes|)
  }

  // How many splits the given choices have in all.
  ghost function Visits(groups: seq<Group>, choices: seq<seq<nat>>, ctx: Context): nat
    requires ctx.Valid() && AllBelow(choices, |groups|)
  {
    if choices == [] then 0
    else
      var n := |choices| - 1;
      Visits(groups, choices[..n], ctx) + |Formations(At(groups, choices[n]), Pow2(|choices[n]|), ctx)|
  }

  // What visiting the splits of the given choices has seen.
  ghost predicate Seen(groups: seq<Group>, choices: seq<seq<nat>>, ctx: Context, visited: seq<Formation>) {
    && ctx.Valid() && AllBelow(choices, |groups|) && |visited| == Visits(groups, choices, ctx)
    && (forall f :: f in visited ==> exists c, split :: c in choices && Admits(groups, c, split, ctx, f))
    && (forall c, split, f :: Admits(groups, c, split, ctx, f) && c in choices ==> f in visited)
  }

  // The formations that the given choices admit.
  ghost function Formed(groups: seq<Group>, choices: seq<seq<nat>>, ctx: Context): iset<Formation> {
    iset c, split, f | c in choices && Admits(groups, c, split, ctx, f) :: f
  }

  /**
    The beam algorithm succeeds iff a choice that the search comes up with has a split into two
    fives.  The formation is one of these, and no other of them is better by more than one
    tolerance per formation evaluated.
  */
  method OptimizeBeam(candidates: seq<Profile>, anchorId: Id, ctx: Context, rank: Ranking, rating: Rating)
    returns (r: Result<Optimized, TeamError>)
    requires rank.Sorts() && ctx.Valid() && Candidates(candidates)
    ensures r.Ok? <==> BeamSucceeds(candidates, anchorId, ctx, rank)
    ensures r.Err? ==> r.error == BeamError(candidates, anchorId, ctx, rank)
    ensures r.Ok? ==> r.value.quality == rating.quality(r.value.formation)
    ensures r.Ok? ==> exists c, split :: c in BeamChoices(candidates, anchorId, ctx, rank)
                                         && Admits(Searched(candidates, anchorId), c, split, ctx, r.value.formation)
    ensures forall c, split, f ::
              && Admits(Searched(candidates, anchorId), c, split, ctx, f)
              && c in BeamChoices(candidates, anchorId, ctx, rank) ==>
                r.Ok? && rating.quality(f) <= r.value.quality + r.value.evaluated as real * TOLERANCE
    ensures r.Ok? ==> r.value.evaluated == Visits(Searched(candidates, anchorId),
                                                  BeamChoices(candidates, anchorId, ctx, rank), ctx)
    ensures var formed := Formed(Searched(candidates, anchorId), BeamChoices(candidates, anchorId, ctx, rank), ctx);
            r.Ok? && Apart(formed, rating) ==> Foremost(formed, rating, r.value.formation)
  {
    ghost var goal := Searched(candidates, anchorId);
    SearchedKeepsTickets(candidates, anchorId);
    if |candidates| < ctx.policy.teamSize * 2 {
      NotEnough(goal, ctx);
      return Err(InsufficientPlayers);
    }
    var groups := GroupByParty(StableSort(ByAge, candidates));
    AnchorHeldOnce(candidates, anchorId);
    groups := MoveAnchorGroupFirst(groups, anchorId);
    assert groups == goal;
    if |groups| == 0 || |groups[0].tickets| > ctx.policy.teamSize {
      return Err(NoValidTeamSplit);
    }
    RemainingIsFlat(groups, 0);
    assert groups[0..] == groups;
    var states := BeamSearch(groups, ctx.policy.teamSize * 2, ctx.policy.beamWidth, rank);
    if states.Err? {
      return Err(states.error);
    }
    FoundIsFull(Sizes(groups), 10, ctx.policy.beamWidth, rank);
    r := SearchStates(candidates, groups, states.value, ctx, rating);
  }

  /** If the beam suffices, the search comes up with every choice that admits a formation. */
  lemma SufficientBeamIsComplete(candidates: seq<Profile>, anchorId: Id, ctx: Context, rank: Ranking, c: seq<nat>,
                                 split: seq<bool>, f: Formation)
    requires rank.Sorts() && ctx.Valid() && BeamSuffices(candidates, anchorId, ctx.policy.beamWidth)
    requires Admits(Searched(candidates, anchorId), c, split, ctx, f)
    ensures c in BeamChoices(candidates, anchorId, ctx, rank)
  {
    var groups := Searched(candidates, anchorId);
    AnchorFits(groups, c, split);
    TooFewTickets(groups, c, split);
    RemainingIsFlat(groups, 0);
    assert groups[0..] == groups;
    FoundIsFull(Sizes(groups), 10, ctx.policy.beamWidth, rank);
  }

  /**
    If the beam suffices, the beam algorithm misses players iff there are fewer than ten, or the
    anchor's party fits a team but no parties have ten players together.
  */
  lemma BeamErrorIs(candidates: seq<Profile>, anchorId: Id, ctx: Context, rank: Ranking)
    requires rank.Sorts() && ctx.Valid() && BeamSuffices(candidates, anchorId, ctx.policy.beamWidth)
    ensures BeamError(candidates, anchorId, ctx, rank)
            == if |candidates| < 10 then InsufficientPlayers
               else if Searched(candidates, anchorId) != [] && |Searched(candidates, anchorId)[0].tickets| <= 5
                 && !TenTogether(candidates, anchorId)
                    then InsufficientPlayers
               else NoValidTeamSplit
  {
    if |candidates| >= 10 {
      SomeParty(candidates, anchorId);
      if |Searched(candidates, anchorId)[0].tickets| <= 5 {
        FoundIffTogether(candidates, anchorId, ctx, rank);
      }
    }
  }

  lemma SomeParty(candidates: seq<Profile>, anchorId: Id)
    requires candidates != []
    ensures Searched(candidates, anchorId) != []
    ensures |Flatten(Searched(candidates, anchorId))| == |candidates|
  {
    var groups := Searched(candidates, anchorId);
    SearchedKeepsTickets(candidates, anchorId);
    assert |multiset(Flatten(groups))| == |multiset(candidates)|;
  }

  lemma FoundIffTogether(candidates: seq<Profile>, anchorId: Id, ctx: Context, rank: Ranking)
    requires rank.Sorts() && ctx.Valid() && BeamSuffices(candidates, anchorId, ctx.policy.beamWidth)
    requires |candidates| >= 10 && Searched(candidates, anchorId) != []
             && |Searched(candidates, anchorId)[0].tickets| <= 5
    ensures BeamChoices(candidates, anchorId, ctx, rank) == [] <==> !TenTogether(candidates, anchorId)
  {
    var groups := Searched(candidates, anchorId);
    SomeParty(candidates, anchorId);
    RemainingIsFlat(groups, 0);
    assert groups[0..] == groups;
    FoundIsFull(Sizes(groups), 10, ctx.policy.beamWidth, rank);
    var found := BeamChoices(candidates, anchorId, ctx, rank);
    if found != [] {
      assert found[0] in found;
      assert Chooses(Sizes(groups), |groups|, found[0], 10);
    }
  }

  lemma NotEnough(groups: seq<Group>, ctx: Context)
    requires |Flatten(groups)| < 10
    ensures forall c, split, f :: !Admits(groups, c, split, ctx, f)
  {
    forall c, split, f | Admits(groups, c, split, ctx, f) ensures false {
      TooFewTickets(groups, c, split);
    }
  }

  lemma TooFewTickets(groups: seq<Group>, c: seq<nat>, split: seq<bool>)
    requires Chooses(Sizes(groups), |groups|, c, 10) && Balanced(At(groups, c), split, 5)
    ensures |Flatten(groups)| >= 10
  {
    FlattenChosen(groups, c, |groups|);
    assert groups[..|groups|] == groups;
    PickSplits(At(groups, c), split);
    FlattenCount(Pick(At(groups, c), split, true));
    FlattenCount(Pick(At(groups, c), split, false));
    assert |multiset(Flatten(At(groups, c)))| == 10;
    assert |multiset(Flatten(groups))| == |Flatten(groups)|;
    SmallerBag(multiset(Flatten(At(groups, c))), multiset(Flatten(groups)));
  }

  lemma SmallerBag<T>(a: multiset<T>, b: multiset<T>)
    requires a <= b
    ensures |a| <= |b|
  {
    assert b == a + (b - a);
  }

  lemma AnchorFits(groups: seq<Group>, c: seq<nat>, split: seq<bool>)
    requires Chooses(Sizes(groups), |groups|, c, 10) && Balanced(At(groups, c), split, 5)
    ensures groups != [] && |groups[0].tickets| <= 5
  {
    assert At(groups, c)[0] == groups[0];
    FirstIsPicked(At(groups, c), split);
  }

  lemma {:induction false} FirstIsPicked(groups: seq<Group>, split: seq<bool>)
    requires |groups| == |split| > 0 && split[0]
    ensures PlayerCount(Pick(groups, split, true)) >= |groups[0].tickets|
  {
    var n := |groups| - 1;
    var init := Pick(groups[..n], split[..n], true);
    if n > 0 {
      FirstIsPicked(groups[..n], split[..n]);
    }
    if split[n] {
      assert (init + [groups[n]])[..|init|] == init;
    }
  }

  method SearchStates(candidates: seq<Profile>, groups: seq<Group>, states: seq<State>, ctx: Context, rating: Rating)
    returns (r: Result<Optimized, TeamError>)
    requires ctx.Valid() && Candidates(candidates) && multiset(Flatten(groups)) == multiset(candidates)
    requires forall i :: 0 <= i < |groups| ==> groups[i].tickets != []
    requires AllBelow(Choices(states), |groups|) && forall c :: c in Choices(states) ==>
               Chooses(Sizes(groups), |groups|, c, 10)
    ensures r.Ok? ==> r.value.quality == rating.quality(r.value.formation)
    ensures r.Ok? ==> exists c, split :: c in Choices(states) && Admits(groups, c, split, ctx, r.value.formation)
    ensures forall c, split, f :: Admits(groups, c, split, ctx, f) && c in Choices(states) ==>
              r.Ok? && rating.quality(f) <= r.value.quality + r.value.evaluated as real * TOLERANCE
    ensures r.Ok? ==> r.value.evaluated == Visits(groups, Choices(states), ctx)
    ensures r.Ok? && Apart(Formed(groups, Choices(states), ctx), rating) ==>
              Foremost(Formed(groups, Choices(states), ctx), rating, r.value.formation)
    ensures r.Err? ==> r.error == NoValidTeamSplit
  {
    ghost var choices := Choices(states);
    var search := new FormationSearch(candidates, ctx, rating);
    for n := 0 to |states|
      invariant search.Valid() && search.ctx == ctx && search.candidates == candidates && search.rating == rating
      invariant fresh(search)
      invariant Seen(groups, choices[..n], ctx, search.visited)
    {
      assert choices[n] in choices;
      VisitChoice(candidates, groups, states[n].chosen, choices, n, ctx, search);
    }
    assert choices[..|states|] == choices;
    SeenAreFormed(groups, choices, ctx, search.visited);
    match search.best
    case None => r := Err(NoValidTeamSplit);
    case Some(b) => r := Ok(Optimized(b.0, b.1, search.evaluated));
  }

  method VisitChoice(ghost candidates: seq<Profile>, groups: seq<Group>, c: seq<nat>, ghost choices: seq<seq<nat>>,
                     ghost n: nat,
                     ghost ctx: Context, search: FormationSearch)
    requires ctx.Valid() && Candidates(candidates) && multiset(Flatten(groups)) == multiset(candidates)
    requires forall i :: 0 <= i < |groups| ==> groups[i].tickets != []
    requires n < |choices| && choices[n] == c && Chooses(Sizes(groups), |groups|, c, 10)
    requires search.Valid() && search.ctx == ctx && search.candidates == candidates
    requires Seen(groups, choices[..n], ctx, search.visited)
    modifies search
    ensures search.Valid()
    ensures Seen(groups, choices[..n + 1], ctx, search.visited)
  {
    ghost var before := search.visited;
    ChosenArePicked(groups, c, candidates);
    FewGroups(Sizes(groups), c);
    VisitPartitions(At(groups, c), search);
    SeenStep(groups, choices, n, ctx, before, search.visited);
  }

  lemma SeenAreFormed(groups: seq<Group>, choices: seq<seq<nat>>, ctx: Context, visited: seq<Formation>)
    requires Seen(groups, choices, ctx, visited)
    ensures Among(visited) == Formed(groups, choices, ctx)
  {
    forall f ensures f in Among(visited) <==> f in Formed(groups, choices, ctx) {
    }
  }

  lemma VisitsStep(groups: seq<Group>, choices: seq<seq<nat>>, n: nat, ctx: Context)
    requires n < |choices| && ctx.Valid() && AllBelow(choices[..n + 1], |groups|) && AllBelow(choices[..n], |groups|)
    ensures Below(choices[n], |groups|)
    ensures Visits(groups, choices[..n + 1], ctx)
            == Visits(groups, choices[..n], ctx) + |Formations(At(groups, choices[n]), Pow2(|choices[n]|), ctx)|
  {
    assert choices[..n + 1][..n] == choices[..n] && choices[..n + 1][n] == choices[n];
  }

  lemma SeenStep(groups: seq<Group>, choices: seq<seq<nat>>, n: nat, ctx: Context, before: seq<Formation>,
                 after: seq<Formation>)
    requires n < |choices| && ctx.Valid() && Chooses(Sizes(groups), |groups|, choices[n], 10)
    requires Seen(groups, choices[..n], ctx, before)
    requires var chosen := At(groups, choices[n]); after == before + Formations(chosen, Pow2(|chosen|), ctx)
    ensures Seen(groups, choices[..n + 1], ctx, after)
  {
    var c := choices[n];
    assert choices[..n + 1] == choices[..n] + [c];
    FormationsAre(groups, c, ctx);
    VisitsStep(groups, choices, n, ctx);
    forall f | f in after ensures exists d, split :: d in choices[..n + 1] && Admits(groups, d, split, ctx, f) {
      if f in before {
        var d, split :| d in choices[..n] && Admits(groups, d, split, ctx, f);
        assert d in choices[..n + 1];
      } else {
        var split :| Admits(groups, c, split, ctx, f);
      }
    }
    forall d, split, f | Admits(groups, d, split, ctx, f) && d in choices[..n + 1] ensures f in after {
      if d in choices[..n] {
        assert f in before;
      }
    }
  }

  // The formations of the splits of a choice are those that it admits.
  lemma FormationsAre(groups: seq<Group>, c: seq<nat>, ctx: Context)
    requires ctx.Valid() && Chooses(Sizes(groups), |groups|, c, 10)
    ensures |At(groups, c)| == |c|
    ensures forall f :: f in Formations(At(groups, c), Pow2(|c|), ctx) <==>
                        exists split :: Admits(groups, c, split, ctx, f)
  {
    var formations := Formations(At(groups, c), Pow2(|c|), ctx);
    forall f | f in formations ensures exists split :: Admits(groups, c, split, ctx, f) {
      var split := SplitOf(groups, c, ctx, f);
    }
    forall split, f | Admits(groups, c, split, ctx, f) ensures f in formations {
      SplitIsVisited(groups, c, split, ctx, f);
    }
  }

  lemma SplitOf(groups: seq<Group>, c: seq<nat>, ctx: Context, f: Formation) returns (split: seq<bool>)
    requires ctx.Valid() && Chooses(Sizes(groups), |groups|, c, 10) && f in Formations(At(groups, c), Pow2(|c|), ctx)
    ensures Admits(groups, c, split, ctx, f)
  {
    var chosen, limit := At(groups, c), Pow2(|c|);
    FormationsOfSplits(chosen, limit, ctx);
    var i :| 0 <= i < |Formations(chosen, limit, ctx)| && Formations(chosen, limit, ctx)[i] == f;
    split := Splits(chosen, 5, limit)[i];
  }

  lemma SplitIsVisited(groups: seq<Group>, c: seq<nat>, split: seq<bool>, ctx: Context, f: Formation)
    requires Admits(groups, c, split, ctx, f)
    ensures f in Formations(At(groups, c), Pow2(|c|), ctx)
  {
    var chosen, limit := At(groups, c), Pow2(|c|);
    var splits := Splits(chosen, 5, limit);
    FormationsOfSplits(chosen, limit, ctx);
    SplitsExactlyOnce(chosen, 5, split);
    assert split in multiset(splits);
    var i :| 0 <= i < |splits| && splits[i] == split;
    assert Formations(chosen, limit, ctx)[i] == f;
  }

  datatype Comparison = Comparison(greedy: Formation, greedyQuality: real, beam: Optimized)

  /**
    Comparing the algorithms: fails iff one of them does, with the error of the first that does.
    When the beam suffices it succeeds whenever greedy does, and the greedy formation is not better
    than the beam's by more than one tolerance per formation evaluated.
  */
  method CompareTeamAlgorithms(candidates: seq<Profile>, anchorId: Id, ctx: Context, rank: Ranking, rating: Rating)
    returns (r: Result<Comparison, TeamError>)
    requires rank.Sorts() && ctx.Valid() && Candidates(candidates)
    ensures r.Ok? <==> GreedySucceeds(candidates, anchorId) && BeamSucceeds(candidates, anchorId, ctx, rank)
    ensures r.Err? ==>
              r.error == if GreedySucceeds(candidates, anchorId) then BeamError(candidates, anchorId, ctx, rank)
                         else GreedyError(candidates, anchorId)
    ensures BeamSuffices(candidates, anchorId, ctx.policy.beamWidth) && GreedySucceeds(candidates, anchorId) ==> r.Ok?
    ensures r.Ok? ==> Compared(candidates, anchorId, ctx, rank, rating, r.value)
  {
    ghost var c, split;
    var greedy, beam;
    greedy, c, split := FormTeamsGreedy(candidates, anchorId, ctx);
    if greedy.Err? {
      return Err(greedy.error);
    }
    beam := OptimizeBeam(candidates, anchorId, ctx, rank, rating);
    GreedyIsAdmitted(candidates, anchorId, ctx, rank, c, split, greedy.value);
    if beam.Err? {
      return Err(beam.error);
    }
    return Ok(Comparison(greedy.value, rating.quality(greedy.value), beam.value));
  }

  // What a comparison tells of the two formations.
  ghost predicate Compared(candidates: seq<Profile>, anchorId: Id, ctx: Context, rank: Ranking, rating: Rating,
                           r: Comparison)
    requires rank.Sorts() && ctx.Valid()
  {
    var groups, choices := Searched(candidates, anchorId), BeamChoices(candidates, anchorId, ctx, rank);
    && r.greedyQuality == rating.quality(r.greedy) && r.beam.quality == rating.quality(r.beam.formation)
    && (exists c, split :: FirstChoice(groups, c) && BestSplit(At(groups, c), 5, split)
                           && Admits(groups, c, split, ctx, r.greedy))
    && (exists c, split :: c in choices && Admits(groups, c, split, ctx, r.beam.formation))
    && (BeamSuffices(candidates, anchorId, ctx.policy.beamWidth) ==>
          r.greedyQuality <= r.beam.quality + r.beam.evaluated as real * TOLERANCE)
  }

  lemma GreedyIsAdmitted(candidates: seq<Profile>, anchorId: Id, ctx: Context, rank: Ranking, c: seq<nat>,
                         split: seq<bool>, f: Formation)
    requires rank.Sorts() && ctx.Valid() && Admits(Searched(candidates, anchorId), c, split, ctx, f)
    ensures BeamSuffices(candidates, anchorId, ctx.policy.beamWidth) ==>
              c in BeamChoices(candidates, anchorId, ctx, rank)
  {
    if BeamSuffices(candidates, anchorId, ctx.policy.beamWidth) {
      SufficientBeamIsComplete(candidates, anchorId, ctx, rank, c, split, f);
    }
  }
}
