/**
  Team formation: the greedy algorithm (internal/matchmaking/engine/team.go, lines 46-70) and
  the beam algorithm with its team cache (internal/matchmaking/engine/beam.go, lines 39-145).
*/
module Optimizer {
  import opened Prelude
  import opened Sorting
  import opened Tickets
  import opened Groups
  import opened TeamBuilding
  import opened Selection
  import opened Partition
  import opened Beam

  datatype Formation = Formation(teamA: Team, teamB: Team)

  // EvaluateQuality's total score and formationSignature, as functions of the formation.
  datatype Rating = Rating(quality: Formation -> real, signature: Formation -> seq<Id>)

  // A candidate list as GenerateCandidates produces it: no ticket and no player twice.
  ghost predicate Candidates(tickets: seq<Profile>) {
    forall i, j :: 0 <= i < j < |tickets| ==> tickets[i].id != tickets[j].id && tickets[i].player != tickets[j].player
  }

  // A selection of candidates, each at most once.
  ghost predicate Picked(team: seq<Profile>, candidates: seq<Profile>) {
    multiset(team) <= multiset(candidates)
  }

  lemma PickedDistinct(team: seq<Profile>, candidates: seq<Profile>)
    requires Candidates(candidates) && Picked(team, candidates)
    ensures DistinctPlayers(team) && Distinct(team)
    ensures forall i, j :: 0 <= i < |team| && 0 <= j < |team| && team[i].id == team[j].id ==> i == j
  {
    DistinctCount(candidates);
    forall x | x in team ensures multiset(team)[x] == 1 {
      assert x in multiset(team);
      assert x in multiset(candidates);
      assert x in candidates;
    }
    DistinctCount(team);
    forall i, j | 0 <= i < j < |team| ensures team[i].player != team[j].player && team[i].id != team[j].id {
      TwoCandidates(team, candidates, i, j);
    }
  }

  lemma TwoCandidates(team: seq<Profile>, candidates: seq<Profile>, i: nat, j: nat)
    requires Candidates(candidates) && Picked(team, candidates) && i < |team| && j < |team| && team[i] != team[j]
    ensures team[i].player != team[j].player && team[i].id != team[j].id
  {
    assert team[i] in multiset(team) && team[j] in multiset(team);
    assert team[i] in multiset(candidates) && team[j] in multiset(candidates);
    var a :| 0 <= a < |candidates| && candidates[a] == team[i];
    var b :| 0 <= b < |candidates| && candidates[b] == team[j];
  }

  function Ids(tickets: seq<Profile>): (r: seq<Id>)
    ensures |r| == |tickets| && forall i :: 0 <= i < |r| ==> r[i] == tickets[i].id
  {
    seq(|tickets|, i requires 0 <= i < |tickets| => tickets[i].id)
  }

  // subsetSignature: the sorted ticket ids.
  function CacheKey(team: seq<Profile>): seq<Id> {
    StableSort(IdLess, Ids(team))
  }

  lemma KeyHasIds(team: seq<Profile>, t: Profile)
    requires t in team
    ensures t.id in CacheKey(team)
  {
    SortPermutes(IdLess, Ids(team));
    var i :| 0 <= i < |team| && team[i] == t;
    assert Ids(team)[i] == t.id;
    MemberOfPermutation(CacheKey(team), Ids(team), t.id);
  }

  lemma KeyFromIds(team: seq<Profile>, id: Id) returns (i: nat)
    requires id in CacheKey(team)
    ensures i < |team| && team[i].id == id
  {
    SortPermutes(IdLess, Ids(team));
    MemberOfPermutation(CacheKey(team), Ids(team), id);
    i :| 0 <= i < |Ids(team)| && Ids(team)[i] == id;
  }

  // Two selections with the same signature are the same players in some order.
  lemma SameKeySameTickets(a: seq<Profile>, b: seq<Profile>, candidates: seq<Profile>)
    requires Candidates(candidates) && Picked(a, candidates) && Picked(b, candidates)
    requires CacheKey(a) == CacheKey(b)
    ensures multiset(a) == multiset(b)
  {
    PickedDistinct(a, candidates);
    PickedDistinct(b, candidates);
    forall t ensures t in a <==> t in b {
      if t in a { SameKeyHas(a, b, candidates, t); }
      if t in b { SameKeyHas(b, a, candidates, t); }
    }
    SameMembers(a, b);
  }

  lemma SameKeyHas(a: seq<Profile>, b: seq<Profile>, candidates: seq<Profile>, t: Profile)
    requires Candidates(candidates) && Picked(a, candidates) && Picked(b, candidates)
    requires CacheKey(a) == CacheKey(b) && t in a
    ensures t in b
  {
    KeyHasIds(a, t);
    var j := KeyFromIds(b, t.id);
    assert t in multiset(a) && b[j] in multiset(b);
    assert t in multiset(candidates) && b[j] in multiset(candidates);
    var x :| 0 <= x < |candidates| && candidates[x] == t;
    var y :| 0 <= y < |candidates| && candidates[y] == b[j];
  }

  /** Looking a team up by its signature gives the team that would be computed afresh. */
  lemma CacheIsTransparent(a: seq<Profile>, b: seq<Profile>, candidates: seq<Profile>, ctx: Context)
    requires Candidates(candidates) && Picked(a, candidates) && Picked(b, candidates) && ctx.Valid()
    requires CacheKey(a) == CacheKey(b) && |a| == 5
    ensures |b| == 5 && AssignedTeam(a, ctx) == AssignedTeam(b, ctx)
  {
    SameKeySameTickets(a, b, candidates);
    SameLength(a, b);
    PickedDistinct(a, candidates);
    AssignedTeamIgnoresOrder(a, b, ctx);
  }

  // The formation of one split of the chosen groups.
  ghost function FormationOf(groups: seq<Group>, split: seq<bool>, ctx: Context): Formation
    requires ctx.Valid() && Balanced(groups, split, 5)
  {
    FlattenCount(Pick(groups, split, true));
    FlattenCount(Pick(groups, split, false));
    Formation(AssignedTeam(Flatten(Pick(groups, split, true)), ctx),
              AssignedTeam(Flatten(Pick(groups, split, false)), ctx))
  }

  // f can be formed from the ordered groups by a choice of ten players and a split of them.
  ghost predicate Admits(groups: seq<Group>, c: seq<nat>, split: seq<bool>, ctx: Context, f: Formation) {
    && ctx.Valid()
    && Chooses(Sizes(groups), |groups|, c, 10)
    && Balanced(At(groups, c), split, 5)
    && f == FormationOf(At(groups, c), split, ctx)
  }

  // team is what buildAssignedTeam computes for some selection with the given signature.
  ghost predicate CacheEntry(key: seq<Id>, team: Team, candidates: seq<Profile>, ctx: Context)
    requires ctx.Valid()
  {
    exists picked: seq<Profile> :: |picked| == 5 && Picked(picked, candidates) && CacheKey(picked) == key
                               && team == AssignedTeam(picked, ctx)
  }

  // score is a quality among those visited, and none of them exceeds it by more than the slack.
  ghost predicate NearBest(visited: seq<Formation>, rating: Rating, f: Formation, score: real) {
    && f in visited && score == rating.quality(f)
    && forall g :: g in visited ==> rating.quality(g) <= score + |visited| as real * TOLERANCE
  }

  lemma NearBestStep(visited: seq<Formation>, rating: Rating, f: Formation, score: real, g: Formation, keep: bool)
    requires NearBest(visited, rating, f, score)
    requires keep ==> rating.quality(g) <= score
    requires !keep ==> rating.quality(g) > score - TOLERANCE
    ensures if keep then NearBest(visited + [g], rating, f, score)
            else NearBest(visited + [g], rating, g, rating.quality(g))
  {
    var n := |visited|;
    assert (n + 1) as real * TOLERANCE == n as real * TOLERANCE + TOLERANCE;
    assert n as real * TOLERANCE >= 0.0;
  }

  // Qualities that come within the tolerance of each other are equal, and every formation has a signature.
  ghost predicate Apart(formations: iset<Formation>, rating: Rating) {
    && (forall f :: f in formations ==> rating.signature(f) != [])
    && forall f, g :: f in formations && g in formations
                      && rating.quality(g) - TOLERANCE < rating.quality(f) < rating.quality(g) + TOLERANCE ==>
                        rating.quality(f) == rating.quality(g)
  }

  // The quality is the greatest, and the signature the least among those of that quality.
  ghost predicate Foremost(formations: iset<Formation>, rating: Rating, f: Formation) {
    && f in formations
    && forall g :: g in formations ==>
         || rating.quality(g) < rating.quality(f)
         || (rating.quality(g) == rating.quality(f) && !SignatureLess(rating.signature(g), rating.signature(f)))
  }

  ghost function Among(visited: seq<Formation>): iset<Formation> {
    iset f | f in visited
  }

  lemma BestStep(visited: seq<Formation>, rating: Rating, f: Formation, g: Formation)
    requires Foremost(Among(visited), rating, f) && Apart(Among(visited + [g]), rating)
    ensures var better := rating.quality(g) > rating.quality(f)
                          || (AbsoluteGap(rating.quality(g), rating.quality(f)) < TOLERANCE
                              && SignatureLess(rating.signature(g), rating.signature(f)));
            Foremost(Among(visited + [g]), rating, if better then g else f)
  {
    SignatureLessIrreflexive(rating.signature(g));
    forall h | h in visited && SignatureLess(rating.signature(h), rating.signature(g))
                 && SignatureLess(rating.signature(g), rating.signature(f))
      ensures SignatureLess(rating.signature(h), rating.signature(f))
    {
      SignatureLessTransitive(rating.signature(h), rating.signature(g), rating.signature(f));
    }
    assert f in Among(visited + [g]) && g in Among(visited + [g]);
  }

  /** The closure of OptimizeTeams: the team cache and the best-so-far variables. */
  class FormationSearch {
    ghost const candidates: seq<Profile>
    const ctx: Context
    const rating: Rating
    var best: Option<(Formation, real, seq<Id>)>
    var evaluated: nat
    var teamCache: map<seq<Id>, Team>
    ghost var visited: seq<Formation>

    ghost predicate CacheValid()
      reads this
      requires ctx.Valid()
    {
      forall key :: key in teamCache ==> CacheEntry(key, teamCache[key], candidates, ctx)
    }

    ghost predicate BestValid()
      reads this
    {
      && evaluated == |visited|
      && match best
         case None => visited == []
         case Some(b) =>
           && NearBest(visited, rating, b.0, b.1) && b.2 == rating.signature(b.0)
           && (Apart(Among(visited), rating) ==> Foremost(Among(visited), rating, b.0))
    }

    ghost predicate Valid()
      reads this
    {
      ctx.Valid() && Candidates(candidates) && CacheValid() && BestValid()
    }

    constructor (ghost candidates: seq<Profile>, ctx: Context, rating: Rating)
      requires ctx.Valid() && Candidates(candidates)
      ensures Valid() && visited == []
      ensures this.candidates == candidates && this.ctx == ctx && this.rating == rating
    {
      this.candidates, this.ctx, this.rating := candidates, ctx, rating;
      best, evaluated, teamCache, visited := None, 0, map[], [];
    }

    method BuildTeam(groups: seq<Group>) returns (team: Team)
      requires Valid() && |Flatten(groups)| == 5 && Picked(Flatten(groups), candidates)
      modifies this`teamCache
      ensures Valid() && team == AssignedTeam(Flatten(groups), ctx)
    {
      var tickets := Flatten(groups);
      var key := CacheKey(tickets);
      if key in teamCache {
        assert CacheEntry(key, teamCache[key], candidates, ctx);
        ghost var other: seq<Profile> :| |other| == 5 && Picked(other, candidates) && CacheKey(other) == key
                                     && teamCache[key] == AssignedTeam(other, ctx);
        CacheIsTransparent(other, tickets, candidates, ctx);
        return teamCache[key];
      }
      var r := BuildAssignedTeam(tickets, ctx);
      team := r.value;
      assert CacheEntry(key, team, candidates, ctx);
      teamCache := teamCache[key := team];
    }

    method Visit(teamAGroups: seq<Group>, teamBGroups: seq<Group>)
      requires Valid()
      requires |Flatten(teamAGroups)| == 5 && Picked(Flatten(teamAGroups), candidates)
      requires |Flatten(teamBGroups)| == 5 && Picked(Flatten(teamBGroups), candidates)
      modifies this
      ensures Valid()
      ensures visited == old(visited)
              + [Formation(AssignedTeam(Flatten(teamAGroups), ctx), AssignedTeam(Flatten(teamBGroups), ctx))]
    {
      var teamA := BuildTeam(teamAGroups);
      var teamB := BuildTeam(teamBGroups);
      Consider(Formation(teamA, teamB));
    }

    lemma BestWhenApart(formation: Formation, better: bool)
      requires Valid() && Apart(Among(visited + [formation]), rating)
      requires better <==>
               || best.None? || rating.quality(formation) > best.value.1
               || (AbsoluteGap(rating.quality(formation), best.value.1) < TOLERANCE
                   && (best.value.2 == [] || SignatureLess(rating.signature(formation), best.value.2)))
      ensures better || best.Some?
      ensures Foremost(Among(visited + [formation]), rating, if better then formation else best.value.0)
    {
      if best.None? {
        SignatureLessIrreflexive(rating.signature(formation));
        assert visited + [formation] == [formation];
      } else {
        assert best.value.0 in Among(visited + [formation]);
        assert forall f :: f in Among(visited) ==> f in Among(visited + [formation]);
        BestStep(visited, rating, best.value.0, formation);
      }
    }

    method Consider(formation: Formation)
      requires Valid()
      modifies this`best, this`evaluated, this`visited
      ensures Valid() && visited == old(visited) + [formation]
    {
      var quality := rating.quality(formation);
      var signature := rating.signature(formation);
      var better := best.None? || quality > best.value.1
                    || (AbsoluteGap(quality, best.value.1) < TOLERANCE
                        && (best.value.2 == [] || SignatureLess(signature, best.value.2)));
      if best.Some? {
        NearBestStep(visited, rating, best.value.0, best.value.1, formation, !better);
      }
      if Apart(Among(visited + [formation]), rating) {
        BestWhenApart(formation, better);
      }
      evaluated := evaluated + 1;
      visited := visited + [formation];
      if better {
        best := Some((formation, quality, signature));
      }
    }
  }

  // The formations visited for the masks below limit.
  ghost function Formations(groups: seq<Group>, limit: nat, ctx: Context): seq<Formation>
    requires ctx.Valid()
  {
    if limit == 0 then []
    else
      var c := Choice(limit - 1, |groups|);
      if Balanced(groups, c, 5) then Formations(groups, limit - 1, ctx) + [FormationOf(groups, c, ctx)]
      else Formations(groups, limit - 1, ctx)
  }

  // They are the formations of the enumerated splits, one by one.
  lemma {:induction false} FormationsOfSplits(groups: seq<Group>, limit: nat, ctx: Context)
    requires ctx.Valid()
    ensures var splits, formations := Splits(groups, 5, limit), Formations(groups, limit, ctx);
            |formations| == |splits|
            && forall i :: 0 <= i < |splits| ==>
                 Balanced(groups, splits[i], 5) && formations[i] == FormationOf(groups, splits[i], ctx)
  {
    if limit > 0 {
      FormationsOfSplits(groups, limit - 1, ctx);
    }
  }

  lemma {:induction false} PickSplits(groups: seq<Group>, split: seq<bool>)
    requires |groups| == |split|
    ensures multiset(Flatten(Pick(groups, split, true))) + multiset(Flatten(Pick(groups, split, false)))
            == multiset(Flatten(groups))
  {
    if groups != [] {
      var n := |groups| - 1;
      PickSplits(groups[..n], split[..n]);
      SplitLast(groups);
      FlattenConcat(groups[..n], [groups[n]]);
      FlattenConcat(Pick(groups[..n], split[..n], split[n]), [groups[n]]);
      assert Flatten([groups[n]]) == groups[n].tickets;
    }
  }

  /** Visits every balanced split once, in mask order. */
  method VisitPartitions(groups: seq<Group>, search: FormationSearch)
    requires search.Valid() && 0 < |groups| < 63 && Picked(Flatten(groups), search.candidates)
    modifies search
    ensures search.Valid()
    ensures search.visited == old(search.visited) + Formations(groups, Pow2(|groups|), search.ctx)
  {
    var limit := Pow2(|groups|);
    ghost var before := search.visited;
    EvenMask(groups, 5, 0);
    for mask := 1 to limit
      invariant search.Valid()
      invariant search.visited == before + Formations(groups, mask, search.ctx)
    {
      VisitMask(groups, mask, search, before);
    }
  }

  // The body of the loop over the masks.
  method VisitMask(groups: seq<Group>, mask: nat, search: FormationSearch, ghost before: seq<Formation>)
    requires search.Valid() && 0 < |groups| && Picked(Flatten(groups), search.candidates)
    requires search.visited == before + Formations(groups, mask, search.ctx)
    modifies search
    ensures search.Valid()
    ensures search.visited == before + Formations(groups, mask + 1, search.ctx)
  {
    if mask % 2 == 0 {
      EvenMask(groups, 5, mask);
      return;
    }
    ghost var formations := Formations(groups, mask, search.ctx);
    VisitSplit(groups, mask, search);
    if Balanced(groups, Choice(mask, |groups|), 5) {
      ghost var f := FormationOf(groups, Choice(mask, |groups|), search.ctx);
      assert before + formations + [f] == before + (formations + [f]);
    }
  }

  method VisitSplit(groups: seq<Group>, mask: nat, search: FormationSearch)
    requires search.Valid() && 0 < |groups| && mask % 2 == 1 && Picked(Flatten(groups), search.candidates)
    modifies search
    ensures search.Valid()
    ensures var c := Choice(mask, |groups|);
            if Balanced(groups, c, 5) then search.visited == old(search.visited) + [FormationOf(groups, c, search.ctx)]
            else search.visited == old(search.visited)
  {
    ghost var c := Choice(mask, |groups|);
    var teamA, teamB, playersA := Distribute(groups, mask);
    PickSplits(groups, c);
    FlattenCount(teamA);
    FlattenCount(teamB);
    if playersA == 5 && PlayerCount(teamB) == 5 {
      search.Visit(teamA, teamB);
    }
  }
}
