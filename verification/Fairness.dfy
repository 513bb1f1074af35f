/**
  What a formation of two teams is in terms of its players (internal/matchmaking/engine/team.go:46-158):
  who is on which side, and how even the sides are that the greedy algorithm settles for.
*/
module Fairness {
  import opened Prelude
  import opened Sorting
  import opened Tickets
  import opened Groups
  import opened TeamBuilding
  import opened Selection
  import opened Partition
  import opened Optimizer
  import opened FormationAlgorithms

  /* Who is on which side */

  ghost predicate InTeam(team: Team, t: Profile) {
    exists i :: 0 <= i < |team.players| && team.players[i].ticket == t
  }

  lemma TeamHasTickets(tickets: seq<Profile>, ctx: Context)
    requires |tickets| == 5 && ctx.Valid()
    ensures forall t :: InTeam(AssignedTeam(tickets, ctx), t) <==> t in tickets
    ensures |AssignedTeam(tickets, ctx).players| == 5
  {
    AssignedTeamIsOptimal(tickets, ctx, ctx.catalogue);
    var team := AssignedTeam(tickets, ctx);
    var listed := seq(5, i requires 0 <= i < 5 => team.players[i].ticket);
    forall t ensures InTeam(team, t) <==> t in tickets {
      MemberOfPermutation(listed, tickets, t);
      assert t in listed <==> InTeam(team, t) by {
        if t in listed {
          var i :| 0 <= i < 5 && listed[i] == t;
          assert team.players[i].ticket == t;
        }
        if i :| 0 <= i < 5 && team.players[i].ticket == t {
          assert listed[i] == t;
        }
      }
    }
  }

  lemma {:induction false} PickHas(groups: seq<Group>, c: seq<bool>, side: bool, t: Profile)
    requires |groups| == |c|
    ensures t in Flatten(Pick(groups, c, side)) <==>
              exists k :: 0 <= k < |groups| && c[k] == side && t in groups[k].tickets
  {
    if groups != [] {
      var n := |groups| - 1;
      PickHas(groups[..n], c[..n], side, t);
      if c[n] == side {
        FlattenOneMore(Pick(groups[..n], c[..n], side), groups[n]);
      }
      if k :| 0 <= k < n && c[..n][k] == side && t in groups[..n][k].tickets {
        assert c[k] == side && t in groups[k].tickets;
      }
      if k :| 0 <= k < |groups| && c[k] == side && t in groups[k].tickets && k != n {
        assert c[..n][k] == side && t in groups[..n][k].tickets;
      }
    }
  }

  /**
    A formation has five players a side; the parties of the first side of the split make up team A,
    those of the other make up team B, and the first party is in team A.
  */
  lemma SidesAreParties(groups: seq<Group>, c: seq<nat>, split: seq<bool>, ctx: Context, f: Formation, t: Profile)
    requires Admits(groups, c, split, ctx, f)
    ensures |split| == |c| > 0 && split[0] && c[0] == 0
    ensures |f.teamA.players| == 5 && |f.teamB.players| == 5
    ensures forall k :: 0 <= k < |c| ==> c[k] < |groups|
    ensures InTeam(f.teamA, t) <==> exists k :: 0 <= k < |c| && split[k] && t in groups[c[k]].tickets
    ensures InTeam(f.teamB, t) <==> exists k :: 0 <= k < |c| && !split[k] && t in groups[c[k]].tickets
  {
    var chosen := At(groups, c);
    FlattenCount(Pick(chosen, split, true));
    FlattenCount(Pick(chosen, split, false));
    TeamHasTickets(Flatten(Pick(chosen, split, true)), ctx);
    TeamHasTickets(Flatten(Pick(chosen, split, false)), ctx);
    PickHas(chosen, split, true, t);
    PickHas(chosen, split, false, t);
    forall k | 0 <= k < |c| ensures chosen[k] == groups[c[k]] {}
  }

  /* How even they are */

  lemma {:induction false} RatingTotalConcat(a: seq<Profile>, b: seq<Profile>)
    ensures RatingTotal(a + b) == RatingTotal(a) + RatingTotal(b)
  {
    if b == [] {
      assert a + b == a;
    } else {
      assert (a + b)[..|a + b| - 1] == a + b[..|b| - 1];
      RatingTotalConcat(a, b[..|b| - 1]);
    }
  }

  lemma RatingTotalOfOne(t: Profile)
    ensures RatingTotal([t]) == t.rating
  {
    assert [t][..0] == [];
  }

  lemma RatingTotalInsert(a: seq<Profile>, t: Profile, b: seq<Profile>)
    ensures RatingTotal(a + ([t] + b)) == RatingTotal(a + b) + t.rating
  {
    RatingTotalConcat(a, [t] + b);
    RatingTotalConcat([t], b);
    RatingTotalConcat(a, b);
    RatingTotalOfOne(t);
  }

  lemma RatingTotalWithout(s: seq<Profile>, k: nat)
    requires k < |s|
    ensures RatingTotal(s) == RatingTotal(s[..k] + s[k + 1..]) + s[k].rating
  {
    TakenOut(s, k);
    RatingTotalInsert(s[..k], s[k], s[k + 1..]);
  }

  lemma TakenOut<T>(s: seq<T>, k: nat)
    requires k < |s|
    ensures s == s[..k] + ([s[k]] + s[k + 1..])
    ensures multiset(s) == multiset(s[..k] + s[k + 1..]) + multiset{s[k]}
  {
    assert s == s[..k] + ([s[k]] + s[k + 1..]);
  }

  lemma RestsPermute<T>(a: seq<T>, n: nat, b: seq<T>, k: nat)
    requires multiset(a) == multiset(b) && n < |a| && k < |b| && a[n] == b[k]
    ensures multiset(a[..n] + a[n + 1..]) == multiset(b[..k] + b[k + 1..])
  {
    TakenOut(a, n);
    TakenOut(b, k);
    assert multiset(a[..n] + a[n + 1..]) == multiset(a) - multiset{a[n]};
  }

  lemma {:induction false} RatingTotalPermutes(a: seq<Profile>, b: seq<Profile>)
    requires multiset(a) == multiset(b)
    ensures RatingTotal(a) == RatingTotal(b)
    decreases |a|
  {
    SameLength(a, b);
    if a != [] {
      var n := |a| - 1;
      assert a[n] in multiset(b);
      var k :| 0 <= k < |b| && b[k] == a[n];
      RatingTotalWithout(a, n);
      RatingTotalWithout(b, k);
      RestsPermute(a, n, b, k);
      RatingTotalPermutes(a[..n] + a[n + 1..], b[..k] + b[k + 1..]);
    }
  }

  lemma AverageIsTotal(tickets: seq<Profile>, ctx: Context)
    requires |tickets| == 5 && ctx.Valid()
    ensures 5.0 * AssignedTeam(tickets, ctx).averageRating == RatingTotal(tickets)
  {
    SortPermutes(ByPlayer, tickets);
    RatingTotalPermutes(StableSort(ByPlayer, tickets), tickets);
  }

  function Gap(f: Formation): real {
    if f.teamA.averageRating < f.teamB.averageRating then f.teamB.averageRating - f.teamA.averageRating
    else f.teamA.averageRating - f.teamB.averageRating
  }

  // The ids of the team's players, as they are listed.
  function PlayerIds(team: Team): (r: seq<Id>)
    ensures |r| == |team.players|
  {
    seq(|team.players|, i requires 0 <= i < |team.players| => team.players[i].ticket.player)
  }

  // Lexicographic order.
  ghost predicate Before(a: seq<Id>, b: seq<Id>) {
    exists k ::
      && 0 <= k <= |a| && k < |b| && (forall i :: 0 <= i < k ==> a[i] == b[i])
      && (k == |a| || a[k] < b[k])
  }

  lemma {:induction false} BeforeIsLess(a: seq<Id>, b: seq<Id>, k: nat)
    requires k <= |a| && k < |b| && (forall i :: 0 <= i < k ==> a[i] == b[i]) && (k == |a| || a[k] < b[k])
    ensures SignatureLess(a, b)
  {
    if k > 0 {
      forall i | 0 <= i < k - 1 ensures a[1..][i] == b[1..][i] {
        assert a[1..][i] == a[i + 1] && b[1..][i] == b[i + 1];
      }
      BeforeIsLess(a[1..], b[1..], k - 1);
    }
  }

  lemma GapIsDifference(groups: seq<Group>, split: seq<bool>, ctx: Context)
    requires ctx.Valid() && Balanced(groups, split, 5)
    ensures 5.0 * Gap(FormationOf(groups, split, ctx)) == Difference(groups, split)
  {
    FlattenCount(Pick(groups, split, true));
    FlattenCount(Pick(groups, split, false));
    AverageIsTotal(Flatten(Pick(groups, split, true)), ctx);
    AverageIsTotal(Flatten(Pick(groups, split, false)), ctx);
  }

  lemma {:induction false} SortedPlayers(tickets: seq<Profile>)
    requires DistinctPlayers(tickets)
    ensures StableSort(IdLess, Players(tickets)) == Players(StableSort(ByPlayer, tickets))
  {
    SortPermutes(ByPlayer, tickets);
    PlayersDiffer(tickets);
    SortAscending(ByPlayer, tickets);
    var sorted := Players(StableSort(ByPlayer, tickets));
    PlayersPermute(StableSort(ByPlayer, tickets), tickets);
    forall i, j | 0 <= i < j < |sorted| ensures sorted[i] < sorted[j] {
      assert ByPlayer(StableSort(ByPlayer, tickets)[i], StableSort(ByPlayer, tickets)[j]);
    }
    forall i, j | 0 <= i < j < |Players(tickets)| ensures Players(tickets)[i] != Players(tickets)[j] {}
    IdsAreLinear(multiset(Players(tickets)));
    SortFixed(IdLess, sorted);
    SortUnique(IdLess, Players(tickets), sorted);
  }

  lemma IdsAreLinear(u: multiset<Id>)
    ensures Linear(IdLess, u)
  {
  }

  lemma {:induction false} PlayersPermute(a: seq<Profile>, b: seq<Profile>)
    requires multiset(a) == multiset(b)
    ensures multiset(Players(a)) == multiset(Players(b))
    decreases |a|
  {
    SameLength(a, b);
    if a != [] {
      var n := |a| - 1;
      assert a[n] in multiset(b);
      var k :| 0 <= k < |b| && b[k] == a[n];
      PlayersWithout(a, n);
      PlayersWithout(b, k);
      RestsPermute(a, n, b, k);
      PlayersPermute(a[..n] + a[n + 1..], b[..k] + b[k + 1..]);
    }
  }

  lemma PlayersWithout(s: seq<Profile>, k: nat)
    requires k < |s|
    ensures multiset(Players(s)) == multiset(Players(s[..k] + s[k + 1..])) + multiset{s[k].player}
  {
    var p := Players(s);
    assert p == p[..k] + [p[k]] + p[k + 1..];
    assert Players(s[..k] + s[k + 1..]) == p[..k] + p[k + 1..];
  }

  lemma SideSignature(groups: seq<Group>, split: seq<bool>, ctx: Context)
    requires ctx.Valid() && Balanced(groups, split, 5) && DistinctPlayers(Flatten(Pick(groups, split, true)))
    ensures Signature(Pick(groups, split, true)) == PlayerIds(FormationOf(groups, split, ctx).teamA)
  {
    var tickets := Flatten(Pick(groups, split, true));
    FlattenCount(Pick(groups, split, true));
    FlattenCount(Pick(groups, split, false));
    SortedPlayers(tickets);
    SortPermutes(ByPlayer, tickets);
  }

  lemma SideIsDistinct(candidates: seq<Profile>, anchorId: Id, c: seq<nat>, split: seq<bool>)
    requires Candidates(candidates)
    requires Chooses(Sizes(Searched(candidates, anchorId)), |Searched(candidates, anchorId)|, c, 10)
    requires Balanced(At(Searched(candidates, anchorId), c), split, 5)
    ensures DistinctPlayers(Flatten(Pick(At(Searched(candidates, anchorId), c), split, true)))
  {
    var groups := Searched(candidates, anchorId);
    var chosen := At(groups, c);
    SearchedKeepsTickets(candidates, anchorId);
    ChosenArePicked(groups, c, candidates);
    PickSplits(chosen, split);
    PickedDistinct(Flatten(Pick(chosen, split, true)), candidates);
  }

  /**
    Of all formations of the same ten players, the greedy one has the closest average ratings; among
    equally close ones no other has a team A whose players come first.
  */
  lemma GreedyIsFairest(candidates: seq<Profile>, anchorId: Id, ctx: Context, c: seq<nat>, split: seq<bool>,
                        f: Formation, other: seq<bool>, g: Formation)
    requires Candidates(candidates)
    requires Admits(Searched(candidates, anchorId), c, split, ctx, f)
    requires BestSplit(At(Searched(candidates, anchorId), c), 5, split)
    requires Admits(Searched(candidates, anchorId), c, other, ctx, g)
    ensures Gap(f) <= Gap(g)
    ensures Gap(f) == Gap(g) ==> !Before(PlayerIds(g.teamA), PlayerIds(f.teamA))
  {
    var chosen := At(Searched(candidates, anchorId), c);
    assert AtLeastAsGood(chosen, split, other);
    GapIsDifference(chosen, split, ctx);
    GapIsDifference(chosen, other, ctx);
    SideIsDistinct(candidates, anchorId, c, split);
    SideIsDistinct(candidates, anchorId, c, other);
    SideSignature(chosen, split, ctx);
    SideSignature(chosen, other, ctx);
    if Before(PlayerIds(g.teamA), PlayerIds(f.teamA)) {
      var a, b := PlayerIds(g.teamA), PlayerIds(f.teamA);
      var k :| 0 <= k <= |a| && k < |b| && (forall i :: 0 <= i < k ==> a[i] == b[i]) && (k == |a| || a[k] < b[k]);
      BeforeIsLess(a, b, k);
    }
  }
}
