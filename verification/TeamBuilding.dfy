/**
  Role assignment inside one team (internal/matchmaking/engine/team.go, lines 160-222):
  the in-place permutation search, its visitor, and the team it builds.
*/
module TeamBuilding {
  import opened Prelude
  import opened Sorting
  import opened Permutations
  import opened Tickets

  datatype AssignedPlayer = AssignedPlayer(ticket: Profile, role: Role, preference: real)

  datatype Team = Team(players: seq<AssignedPlayer>, averageRating: real, roleScore: real)

  datatype TeamError = NoValidTeamSplit | InsufficientPlayers

  const CANONICAL_ROLES: seq<Role> := [Vanguard, Roamer, Core, Ranged, Support]

  // What a formation is computed against: the clock, the policy and the role catalogue.  The
  // theorems hold for every catalogue of five different roles, so for CANONICAL_ROLES.
  datatype Context = Context(now: Time, policy: Policy, catalogue: seq<Role>) {
    ghost predicate Valid() {
      policy.Valid() && |catalogue| == 5 && Distinct(catalogue)
    }
  }

  predicate ByPlayer(a: Profile, b: Profile) {
    a.player < b.player
  }

  function IndexOf(roles: seq<Role>, role: Role): Option<nat> {
    if roles == [] then None
    else if roles[0] == role then Some(0)
    else match IndexOf(roles[1..], role)
      case None => None
      case Some(i) => Some(i + 1)
  }

  function RolePreference(ticket: Profile, role: Role, ctx: Context): real {
    match IndexOf(ticket.roles, role)
    case Some(i) => if i == 0 then 100.0 else if i == 1 then 70.0 else 50.0
    case None => ctx.policy.NonPreferredRoleScore(ctx.now - ticket.createdAt)
  }

  // Sum of the preference scores of the first k players.
  function Score(tickets: seq<Profile>, roles: seq<Role>, k: nat, ctx: Context): real
    requires k <= |tickets| && k <= |roles|
  {
    if k == 0 then 0.0
    else Score(tickets, roles, k - 1, ctx) + RolePreference(tickets[k - 1], roles[k - 1], ctx)
  }

  function TotalScore(tickets: seq<Profile>, roles: seq<Role>, ctx: Context): real
    requires |tickets| == |roles|
  {
    Score(tickets, roles, |tickets|, ctx)
  }

  function RatingTotal(tickets: seq<Profile>): real {
    if tickets == [] then 0.0 else RatingTotal(tickets[..|tickets| - 1]) + tickets[|tickets| - 1].rating
  }

  datatype Best = Best(score: real, roles: seq<Role>)

  // The best-so-far variables after the visitor has seen the given arrangements.
  function BestOf(tickets: seq<Profile>, visited: seq<seq<Role>>, ctx: Context): Best
    requires forall p :: p in visited ==> |p| == |tickets|
  {
    if visited == [] then Best(-1.0, [])
    else
      var best := BestOf(tickets, visited[..|visited| - 1], ctx);
      var score := TotalScore(tickets, visited[|visited| - 1], ctx);
      if score > best.score then Best(score, visited[|visited| - 1]) else best
  }

  lemma BestOneMore(tickets: seq<Profile>, visited: seq<seq<Role>>, roles: seq<Role>, ctx: Context)
    requires (forall p :: p in visited ==> |p| == |tickets|) && |roles| == |tickets|
    ensures forall p :: p in visited + [roles] ==> |p| == |tickets|
    ensures var best, score := BestOf(tickets, visited, ctx), Score(tickets, roles, |tickets|, ctx);
            BestOf(tickets, visited + [roles], ctx) == if score > best.score then Best(score, roles) else best
  {
    assert (visited + [roles])[..|visited|] == visited;
  }

  /** The closure that buildAssignedTeam hands to permuteRoles, with the variables it captures. */
  class RoleSearch {
    const tickets: seq<Profile>
    const ctx: Context
    var bestScore: real
    var bestRoles: seq<Role>
    ghost var visited: seq<seq<Role>>

    ghost predicate Valid()
      reads this
    {
      && (forall p :: p in visited ==> |p| == |tickets|)
      && Best(bestScore, bestRoles) == BestOf(tickets, visited, ctx)
    }

    constructor (tickets: seq<Profile>, ctx: Context)
      ensures Valid() && visited == []
      ensures this.tickets == tickets && this.ctx == ctx
    {
      this.tickets, this.ctx := tickets, ctx;
      bestScore, bestRoles, visited := -1.0, [], [];
    }

    method Visit(roles: seq<Role>)
      requires Valid() && |roles| == |tickets|
      modifies this
      ensures Valid() && visited == old(visited) + [roles]
    {
      var score := 0.0;
      for index := 0 to |tickets|
        invariant score == Score(tickets, roles, index, ctx)
      {
        score := score + RolePreference(tickets[index], roles[index], ctx);
      }
      if score > bestScore {
        bestScore := score;
        bestRoles := roles;
      }
      BestOneMore(tickets, visited, roles, ctx);
      visited := visited + [roles];
    }
  }

  /**
    Enumerates the arrangements of roles from index on by swapping in place, visiting each,
    and puts every element back where it was.
  */
  method PermuteRoles(roles: array<Role>, index: nat, search: RoleSearch)
    requires index <= roles.Length && search.Valid() && |search.tickets| == roles.Length
    modifies roles, search
    ensures roles[..] == old(roles[..])
    ensures search.Valid() && search.visited == old(search.visited) + Visits(old(roles[..]), index)
    decreases roles.Length - index
  {
    if index == roles.Length {
      search.Visit(roles[..]);
      return;
    }
    ghost var s, before := roles[..], search.visited;
    for current := index to roles.Length
      invariant roles[..] == s
      invariant search.Valid()
      invariant search.visited + VisitsFrom(s, index, current) == before + VisitsFrom(s, index, index)
    {
      ghost var seen := search.visited;
      SwapInPlace(roles, index, current);
      PermuteRoles(roles, index + 1, search);
      SwapInPlace(roles, index, current);
      SwapTwice(s, index, current);
      Concat3(seen, Visits(Swap(s, index, current), index + 1), VisitsFrom(s, index, current + 1));
    }
  }

  method SwapInPlace(roles: array<Role>, i: nat, j: nat)
    requires i < roles.Length && j < roles.Length
    modifies roles
    ensures roles[..] == Swap(old(roles[..]), i, j)
  {
    roles[i], roles[j] := roles[j], roles[i];
  }

  lemma SwapTwice<T>(s: seq<T>, i: nat, j: nat)
    requires i < |s| && j < |s|
    ensures Swap(Swap(s, i, j), i, j) == s
  {
  }

  lemma Concat3<T>(a: seq<T>, b: seq<T>, c: seq<T>)
    ensures a + b + c == a + (b + c)
  {
  }

  function TeamOf(tickets: seq<Profile>, roles: seq<Role>, ctx: Context): Team
    requires |tickets| == |roles| == 5
  {
    Team(seq(5, i requires 0 <= i < 5 =>
             AssignedPlayer(tickets[i], roles[i], RolePreference(tickets[i], roles[i], ctx))),
         RatingTotal(tickets) / 5.0,
         TotalScore(tickets, roles, ctx) / 5.0)
  }

  ghost function BestRoles(tickets: seq<Profile>, ctx: Context): (roles: seq<Role>)
    requires |tickets| == 5 && ctx.Valid()
    ensures multiset(roles) == multiset(ctx.catalogue) && |roles| == 5
  {
    BestRolesExist(tickets, ctx);
    VisitsHaveLength(ctx.catalogue);
    BestOf(tickets, Visits(ctx.catalogue, 0), ctx).roles
  }

  // The team that buildAssignedTeam computes for five tickets in any order.
  ghost function AssignedTeam(tickets: seq<Profile>, ctx: Context): Team
    requires |tickets| == 5 && ctx.Valid()
  {
    SortPermutes(ByPlayer, tickets);
    var sorted := StableSort(ByPlayer, tickets);
    TeamOf(sorted, BestRoles(sorted, ctx), ctx)
  }

  method BuildAssignedTeam(tickets: seq<Profile>, ctx: Context) returns (r: Result<Team, TeamError>)
    requires ctx.Valid()
    ensures r.Ok? <==> |tickets| == ctx.policy.teamSize
    ensures r.Ok? ==> r.value == AssignedTeam(tickets, ctx)
    ensures r.Err? ==> r.error == NoValidTeamSplit
  {
    if |tickets| != ctx.policy.teamSize || ctx.policy.teamSize != |ctx.catalogue| {
      return Err(NoValidTeamSplit);
    }
    SortPermutes(ByPlayer, tickets);
    var sorted := StableSort(ByPlayer, tickets);
    var search := new RoleSearch(sorted, ctx);
    var roles := new Role[5](i requires 0 <= i < 5 => ctx.catalogue[i]);
    assert roles[..] == ctx.catalogue;
    PermuteRoles(roles, 0, search);
    assert search.visited == Visits(ctx.catalogue, 0);
    var bestRoles := search.bestRoles;
    assert bestRoles == BestRoles(sorted, ctx);

    var team := FillTeam(sorted, bestRoles, ctx);
    return Ok(team);
  }

  // The loop that turns the best arrangement into a team.
  method FillTeam(tickets: seq<Profile>, roles: seq<Role>, ctx: Context) returns (team: Team)
    requires |tickets| == |roles| == 5
    ensures team == TeamOf(tickets, roles, ctx)
  {
    ghost var goal := TeamOf(tickets, roles, ctx);
    var players, rating, score := [], 0.0, 0.0;
    for index := 0 to 5
      invariant players == goal.players[..index]
      invariant rating == RatingTotal(tickets[..index])
      invariant score == Score(tickets, roles, index, ctx)
    {
      assert tickets[..index + 1][..index] == tickets[..index];
      var preference := RolePreference(tickets[index], roles[index], ctx);
      rating := rating + tickets[index].rating;
      score := score + preference;
      players := players + [AssignedPlayer(tickets[index], roles[index], preference)];
    }
    assert tickets[..5] == tickets;
    team := Team(players, rating / 5.0, score / 5.0);
  }

  lemma VisitsHaveLength(s: seq<Role>)
    ensures forall p :: p in Visits(s, 0) ==> |p| == |s| && multiset(p) == multiset(s)
  {
    forall p | p in Visits(s, 0) ensures |p| == |s| && multiset(p) == multiset(s) {
      VisitsSound(s, 0, p);
    }
  }

  lemma {:induction false} ScoreNonNegative(tickets: seq<Profile>, roles: seq<Role>, k: nat, ctx: Context)
    requires k <= |tickets| && k <= |roles| && ctx.Valid()
    ensures Score(tickets, roles, k, ctx) >= 0.0
  {
    if k > 0 {
      ScoreNonNegative(tickets, roles, k - 1, ctx);
      var wait := ctx.now - tickets[k - 1].createdAt;
      if wait > ctx.policy.roleRelaxationAfter {
        assert Seconds(wait - ctx.policy.roleRelaxationAfter) >= 0.0;
        assert Seconds(wait - ctx.policy.roleRelaxationAfter) * ctx.policy.roleRelaxationPerSecond >= 0.0;
      }
    }
  }

  // The best-so-far variables hold a visited arrangement that no visited arrangement beats.
  lemma {:induction false} BestOfIsBest(tickets: seq<Profile>, visited: seq<seq<Role>>, ctx: Context)
    requires ctx.Valid() && forall p :: p in visited ==> |p| == |tickets|
    ensures var best := BestOf(tickets, visited, ctx);
            && (forall p :: p in visited ==> TotalScore(tickets, p, ctx) <= best.score)
            && (visited != [] ==> best.roles in visited && TotalScore(tickets, best.roles, ctx) == best.score)
            && best.score >= -1.0
  {
    if visited != [] {
      var init, last := visited[..|visited| - 1], visited[|visited| - 1];
      assert last in visited;
      BestOfIsBest(tickets, init, ctx);
      ScoreNonNegative(tickets, last, |tickets|, ctx);
      forall p | p in visited
        ensures TotalScore(tickets, p, ctx) <= BestOf(tickets, visited, ctx).score
      {
        if p != last {
          assert p in init;
        }
      }
    }
  }

  // The arrangement at the given place is the first of those that score highest.
  ghost predicate FirstBest(tickets: seq<Profile>, visited: seq<seq<Role>>, ctx: Context, i: nat)
    requires forall p :: p in visited ==> |p| == |tickets|
  {
    && i < |visited|
    && (forall j :: 0 <= j < i ==> TotalScore(tickets, visited[j], ctx) < TotalScore(tickets, visited[i], ctx))
    && (forall j :: i <= j < |visited| ==> TotalScore(tickets, visited[j], ctx) <= TotalScore(tickets, visited[i], ctx))
  }

  /** Among equals the visitor keeps the arrangement that it has seen first. */
  lemma {:induction false} BestIsFirst(tickets: seq<Profile>, visited: seq<seq<Role>>, ctx: Context) returns (i: nat)
    requires ctx.Valid() && visited != [] && forall p :: p in visited ==> |p| == |tickets|
    ensures FirstBest(tickets, visited, ctx, i)
    ensures BestOf(tickets, visited, ctx) == Best(TotalScore(tickets, visited[i], ctx), visited[i])
  {
    var n := |visited| - 1;
    ScoreNonNegative(tickets, visited[n], |tickets|, ctx);
    if n == 0 {
      return 0;
    }
    i := BestIsFirst(tickets, visited[..n], ctx);
    OneMoreSeen(tickets, visited, ctx, i);
    if TotalScore(tickets, visited[n], ctx) > TotalScore(tickets, visited[i], ctx) {
      return n;
    }
  }

  lemma OneMoreSeen(tickets: seq<Profile>, visited: seq<seq<Role>>, ctx: Context, i: nat)
    requires visited != [] && forall p :: p in visited ==> |p| == |tickets|
    requires FirstBest(tickets, visited[..|visited| - 1], ctx, i)
    ensures var n := |visited| - 1;
            FirstBest(tickets, visited, ctx, if TotalScore(tickets, visited[n], ctx) > TotalScore(tickets, visited[i],
              ctx)
                                             then n else i)
  {
    var n := |visited| - 1;
    forall j | 0 <= j < n ensures visited[..n][j] == visited[j] && visited[j] in visited[..n] {}
  }

  lemma BestRolesExist(tickets: seq<Profile>, ctx: Context)
    requires |tickets| == 5 && ctx.Valid()
    ensures forall p :: p in Visits(ctx.catalogue, 0) ==> |p| == 5
    ensures var roles := BestOf(tickets, Visits(ctx.catalogue, 0), ctx).roles;
            multiset(roles) == multiset(ctx.catalogue) && |roles| == 5
  {
    VisitsHaveLength(ctx.catalogue);
    VisitsComplete(ctx.catalogue, 0, ctx.catalogue);
    BestOfIsBest(tickets, Visits(ctx.catalogue, 0), ctx);
  }

  /**
    What a role is worth to a ticket: 100 for its first wish, 70 for its second and 50 for any later
    one.  Another role is worth nothing at first, and then more by the second up to the maximum.
  */
  lemma WishesAreWorth(ticket: Profile, i: nat, role: Role, ctx: Context)
    requires i < |ticket.roles| && Distinct(ticket.roles) && role !in ticket.roles
    ensures RolePreference(ticket, ticket.roles[i], ctx) == if i == 0 then 100.0 else if i == 1 then 70.0 else 50.0
    ensures var late := ctx.now - ticket.createdAt - ctx.policy.roleRelaxationAfter;
            var grown := late as real / NANOSECONDS_PER_SECOND * ctx.policy.roleRelaxationPerSecond;
            && (late <= 0 ==> RolePreference(ticket, role, ctx) == 0.0)
            && (late > 0 && grown <= ctx.policy.maxNonPreferredRoleScore ==> RolePreference(ticket, role, ctx) == grown)
            && (late > 0 && grown > ctx.policy.maxNonPreferredRoleScore ==>
                  RolePreference(ticket, role, ctx) == ctx.policy.maxNonPreferredRoleScore)
  {
    FirstIndex(ticket.roles, i);
    NoIndex(ticket.roles, role);
  }

  lemma {:induction false} FirstIndex(roles: seq<Role>, i: nat)
    requires i < |roles| && Distinct(roles)
    ensures IndexOf(roles, roles[i]) == Some(i)
  {
    if i > 0 {
      FirstIndex(roles[1..], i - 1);
    }
  }

  lemma {:induction false} NoIndex(roles: seq<Role>, role: Role)
    requires role !in roles
    ensures IndexOf(roles, role) == None
  {
    if roles != [] {
      NoIndex(roles[1..], role);
    }
  }

  // The sum over five players.
  function SumOfFive(term: int -> real): real {
    term(0) + term(1) + term(2) + term(3) + term(4)
  }

  // What the team's tickets make of five roles in the players' order.
  function Worth(team: Team, roles: seq<Role>, ctx: Context): real
    requires |team.players| == |roles| == 5
  {
    SumOfFive(i => if 0 <= i < 5 then RolePreference(team.players[i].ticket, roles[i], ctx) else 0.0)
  }

  function RolesOf(team: Team): (r: seq<Role>)
    ensures |r| == |team.players|
  {
    seq(|team.players|, i requires 0 <= i < |team.players| => team.players[i].role)
  }

  lemma ScoreIsWorth(team: Team, tickets: seq<Profile>, roles: seq<Role>, ctx: Context)
    requires |team.players| == |tickets| == |roles| == 5
    requires forall i :: 0 <= i < 5 ==> team.players[i].ticket == tickets[i]
    ensures TotalScore(tickets, roles, ctx) == Worth(team, roles, ctx)
  {
    assert Score(tickets, roles, 1, ctx) == RolePreference(tickets[0], roles[0], ctx);
    assert Score(tickets, roles, 2, ctx) == Score(tickets, roles, 1, ctx) + RolePreference(tickets[1], roles[1], ctx);
    assert Score(tickets, roles, 3, ctx) == Score(tickets, roles, 2, ctx) + RolePreference(tickets[2], roles[2], ctx);
    assert Score(tickets, roles, 4, ctx) == Score(tickets, roles, 3, ctx) + RolePreference(tickets[3], roles[3], ctx);
  }

  lemma RatingsAdd(tickets: seq<Profile>)
    requires |tickets| == 5
    ensures RatingTotal(tickets) == SumOfFive(i => if 0 <= i < 5 then tickets[i].rating else 0.0)
  {
    assert tickets[..4][..3] == tickets[..3] && tickets[..3][..2] == tickets[..2] && tickets[..2][..1] == tickets[..1];
    assert RatingTotal(tickets[..1]) == tickets[0].rating;
    assert RatingTotal(tickets[..2]) == RatingTotal(tickets[..1]) + tickets[1].rating;
    assert RatingTotal(tickets[..3]) == RatingTotal(tickets[..2]) + tickets[2].rating;
    assert RatingTotal(tickets[..4]) == RatingTotal(tickets[..3]) + tickets[3].rating;
  }

  /**
    The five players have the five tickets and the five roles of the catalogue, and their own
    preference for them; no other assignment of the roles to these players is worth more to them.
    The team's role score and rating are the averages over its players.
  */
  lemma AssignedTeamIsOptimal(tickets: seq<Profile>, ctx: Context, other: seq<Role>)
    requires |tickets| == 5 && ctx.Valid()
    requires multiset(other) == multiset(ctx.catalogue)
    ensures |other| == 5
    ensures var team := AssignedTeam(tickets, ctx);
            && |team.players| == 5
            && multiset(seq(5, i requires 0 <= i < 5 => team.players[i].ticket)) == multiset(tickets)
            && multiset(RolesOf(team)) == multiset(ctx.catalogue)
            && (forall i, j :: 0 <= i < j < 5 ==> team.players[i].role != team.players[j].role)
            && (forall i :: 0 <= i < 5 ==>
                  team.players[i].preference == RolePreference(team.players[i].ticket, team.players[i].role, ctx))
            && Worth(team, other, ctx) <= Worth(team, RolesOf(team), ctx)
            && 5.0 * team.roleScore == SumOfFive(i => if 0 <= i < 5 then team.players[i].preference else 0.0)
            && 5.0 * team.averageRating == SumOfFive(i => if 0 <= i < 5 then team.players[i].ticket.rating else 0.0)
  {
    SortPermutes(ByPlayer, tickets);
    SameLength(other, ctx.catalogue);
    var sorted := StableSort(ByPlayer, tickets);
    var roles := BestRoles(sorted, ctx);
    VisitsHaveLength(ctx.catalogue);
    VisitsComplete(ctx.catalogue, 0, other);
    BestOfIsBest(sorted, Visits(ctx.catalogue, 0), ctx);
    DistinctPermutation(ctx.catalogue, roles);
    TeamFacts(sorted, roles, other, ctx);
  }

  lemma TeamFacts(tickets: seq<Profile>, roles: seq<Role>, other: seq<Role>, ctx: Context)
    requires |tickets| == |roles| == |other| == 5
    ensures var team := TeamOf(tickets, roles, ctx);
            && |team.players| == 5 && RolesOf(team) == roles
            && seq(5, i requires 0 <= i < 5 => team.players[i].ticket) == tickets
            && (forall i :: 0 <= i < 5 ==>
                  team.players[i].preference == RolePreference(team.players[i].ticket, team.players[i].role, ctx))
            && Worth(team, other, ctx) == TotalScore(tickets, other, ctx)
            && Worth(team, roles, ctx) == TotalScore(tickets, roles, ctx)
            && 5.0 * team.roleScore == SumOfFive(i => if 0 <= i < 5 then team.players[i].preference else 0.0)
            && 5.0 * team.averageRating == SumOfFive(i => if 0 <= i < 5 then team.players[i].ticket.rating else 0.0)
  {
    var team := TeamOf(tickets, roles, ctx);
    ScoreIsWorth(team, tickets, other, ctx);
    ScoreIsWorth(team, tickets, roles, ctx);
    RatingsAdd(tickets);
    assert RolesOf(team) == roles;
    assert seq(5, i requires 0 <= i < 5 => team.players[i].ticket) == tickets;
  }

  ghost predicate DistinctPlayers(tickets: seq<Profile>) {
    forall i, j :: 0 <= i < j < |tickets| ==> tickets[i].player != tickets[j].player
  }

  ghost predicate InOrder(players: seq<AssignedPlayer>) {
    forall i, j :: 0 <= i < j < |players| ==> players[i].ticket.player < players[j].ticket.player
  }

  lemma PlayersDiffer(tickets: seq<Profile>)
    requires DistinctPlayers(tickets)
    ensures Distinct(tickets) && Linear(ByPlayer, multiset(tickets))
  {
    forall x, y | x in multiset(tickets) && y in multiset(tickets) && x != y ensures x.player != y.player {
      assert x in tickets && y in tickets;
    }
  }

  lemma TeamInOrder(tickets: seq<Profile>, roles: seq<Role>, ctx: Context)
    requires |tickets| == |roles| == 5 && Ascending(ByPlayer, tickets)
    ensures InOrder(TeamOf(tickets, roles, ctx).players)
  {
  }

  /** With distinct players the team lists them in order, whatever the order in which the tickets arrive. */
  lemma AssignedTeamIgnoresOrder(a: seq<Profile>, b: seq<Profile>, ctx: Context)
    requires |a| == |b| == 5 && ctx.Valid()
    requires multiset(a) == multiset(b) && DistinctPlayers(a)
    ensures AssignedTeam(a, ctx) == AssignedTeam(b, ctx)
    ensures InOrder(AssignedTeam(a, ctx).players)
  {
    PlayersDiffer(a);
    SortUnique(ByPlayer, a, b);
    SortAscending(ByPlayer, a);
    SortPermutes(ByPlayer, a);
    TeamInOrder(StableSort(ByPlayer, a), BestRoles(StableSort(ByPlayer, a), ctx), ctx);
  }
}
