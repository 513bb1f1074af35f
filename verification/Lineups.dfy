/**
  What Worker.tryPool makes of a formation of the engine (ticketsForFormation and
  matchTeamFromEngine, internal/matchmaking/application/worker.go:415-460): the lineup that an
  attempt reserves tickets for, with a hero for each player.
*/
module Lineups {
  import opened Prelude
  import opened Sorting
  import T = Tickets
  import opened Groups
  import opened TeamBuilding
  import opened Selection
  import opened Partition
  import opened Optimizer
  import opened FormationAlgorithms
  import CandidateGeneration
  import opened Heroes
  import opened Matches
  import opened PoolAttempts

  // What tryPool adds to the formation: the teams' ids, and the two fields of a ticket that a profile leaves out.
  datatype Extras = Extras(
    idA: Id,
    idB: Id,
    behavior: T.Profile -> real,
    heroes: T.Profile -> map<Id, real>,
    region: Id,
    policyVersion: Id,
    quality: MatchQuality)

  function TeamTickets(team: Team): (r: seq<T.Profile>)
    ensures |r| == |team.players| && forall i :: 0 <= i < |r| ==> r[i] == team.players[i].ticket
  {
    seq(|team.players|, i requires 0 <= i < |team.players| => team.players[i].ticket)
  }

  function FormationTickets(f: Formation): seq<T.Profile> {
    TeamTickets(f.teamA) + TeamTickets(f.teamB)
  }

  function PlayerOf(p: AssignedPlayer, x: Extras): MatchPlayer {
    var best := BestForRole(x.heroes(p.ticket), p.role);
    MatchPlayer(p.ticket.player, p.ticket.id, p.role, p.ticket.rating, best.0, best.1, x.behavior(p.ticket))
  }

  function MatchTeamOf(id: Id, team: Team, x: Extras): (r: MatchTeam)
    ensures |r.players| == |team.players|
    ensures forall i :: 0 <= i < |r.players| ==> r.players[i] == PlayerOf(team.players[i], x)
  {
    MatchTeam(id, seq(|team.players|, i requires 0 <= i < |team.players| => PlayerOf(team.players[i], x)))
  }

  function Lined(f: Formation): seq<AssignedPlayer> {
    f.teamA.players + f.teamB.players
  }

  function MatchPlayers(f: Formation, x: Extras): seq<MatchPlayer> {
    MatchTeamOf(x.idA, f.teamA, x).players + MatchTeamOf(x.idB, f.teamB, x).players
  }

  // The first of the tickets with the given profile.
  function TicketWith(tickets: seq<T.Ticket>, p: T.Profile): (t: T.Ticket)
    requires exists t :: t in tickets && t.profile == p
    ensures t in tickets && t.profile == p
  {
    if tickets[0].profile == p then tickets[0]
    else
      assert exists t :: t in tickets[1..] && t.profile == p by {
        var t :| t in tickets && t.profile == p;
        assert t in tickets[1..];
      }
      TicketWith(tickets[1..], p)
  }

  ghost predicate Among(profiles: seq<T.Profile>, tickets: seq<T.Ticket>) {
    forall p :: p in profiles ==> exists t :: t in tickets && t.profile == p
  }

  function TicketsWith(tickets: seq<T.Ticket>, profiles: seq<T.Profile>): (r: seq<T.Ticket>)
    requires Among(profiles, tickets)
    ensures |r| == |profiles| && forall i :: 0 <= i < |r| ==> r[i] in tickets && r[i].profile == profiles[i]
  {
    seq(|profiles|, i requires 0 <= i < |profiles| => assert profiles[i] in profiles; TicketWith(tickets, profiles[i]))
  }

  function LineupOf(tickets: seq<T.Ticket>, f: Formation, x: Extras): Lineup
    requires Among(FormationTickets(f), tickets)
  {
    Lineup(MatchTeamOf(x.idA, f.teamA, x), MatchTeamOf(x.idB, f.teamB, x), x.region, x.policyVersion, x.quality,
           TicketsWith(tickets, FormationTickets(f)))
  }

  // The assigned team has the five tickets it was built from.
  lemma TeamOfPicked(tickets: seq<T.Profile>, ctx: Context)
    requires |tickets| == 5 && ctx.Valid()
    ensures multiset(TeamTickets(AssignedTeam(tickets, ctx))) == multiset(tickets)
            && |AssignedTeam(tickets, ctx).players| == 5
  {
    AssignedTeamIsOptimal(tickets, ctx, ctx.catalogue);
    var team := AssignedTeam(tickets, ctx);
    assert TeamTickets(team) == seq(5, i requires 0 <= i < 5 => team.players[i].ticket);
  }

  /** A formation that the candidates admit has five players a side on ten tickets of theirs, each once. */
  lemma AdmittedIsPicked(candidates: seq<T.Profile>, anchorId: Id, c: seq<nat>, split: seq<bool>, ctx: Context,
                         f: Formation)
    requires Admits(Searched(candidates, anchorId), c, split, ctx, f)
    ensures |f.teamA.players| == 5 && |f.teamB.players| == 5 && Picked(FormationTickets(f), candidates)
  {
    var groups := Searched(candidates, anchorId);
    var chosen := At(groups, c);
    FlattenCount(Pick(chosen, split, true));
    FlattenCount(Pick(chosen, split, false));
    TeamOfPicked(Flatten(Pick(chosen, split, true)), ctx);
    TeamOfPicked(Flatten(Pick(chosen, split, false)), ctx);
    PickSplits(chosen, split);
    SearchedKeepsTickets(candidates, anchorId);
    ChosenArePicked(groups, c, candidates);
  }

  lemma PickedAreAmong(profiles: seq<T.Profile>, candidates: seq<T.Profile>, tickets: seq<T.Ticket>)
    requires Picked(profiles, candidates) && Among(candidates, tickets)
    ensures Among(profiles, tickets)
  {
    forall p | p in profiles ensures p in candidates {
      assert p in multiset(profiles);
      assert p in multiset(candidates);
    }
  }

  /**
    The lineup made of a formation that the engine admits is drawn from the tickets that the
    candidates came from, with ten different players on ten different tickets.
  */
  lemma LineupIsDrawn(tickets: seq<T.Ticket>, candidates: seq<T.Profile>, anchorId: Id, c: seq<nat>, split: seq<bool>,
                      ctx: Context, f: Formation, x: Extras)
    requires Candidates(candidates) && Among(candidates, tickets)
    requires Admits(Searched(candidates, anchorId), c, split, ctx, f)
    ensures Among(FormationTickets(f), tickets)
    ensures var l := LineupOf(tickets, f, x);
            && DrawnFrom(l, tickets) && |l.teamA.players| == 5 && |l.teamB.players| == 5
            && AllDifferent(l.teamA.players + l.teamB.players)
            && (forall i :: 0 <= i < 5 ==> CarriesOver(f.teamA.players[i], l.teamA.players[i], x))
            && (forall i :: 0 <= i < 5 ==> CarriesOver(f.teamB.players[i], l.teamB.players[i], x))
  {
    AdmittedIsPicked(candidates, anchorId, c, split, ctx, f);
    PickedAreAmong(FormationTickets(f), candidates, tickets);
    PickedDistinct(FormationTickets(f), candidates);
    var l := LineupOf(tickets, f, x);
    PlayersOfTickets(f, x);
    forall i {:trigger l.tickets[i]} | 0 <= i < |l.tickets|
      ensures l.tickets[i] in tickets && (l.teamA.players + l.teamB.players)[i].ticket == l.tickets[i].profile.id
              && (l.teamA.players + l.teamB.players)[i].player == l.tickets[i].profile.player
    {
      assert l.tickets[i].profile == FormationTickets(f)[i];
    }
  }

  // The match's player is the one on the ticket, in the role that the engine has assigned, with the best hero for it.
  ghost predicate CarriesOver(p: AssignedPlayer, q: MatchPlayer, x: Extras) {
    && q.player == p.ticket.player && q.ticket == p.ticket.id && q.role == p.role && q.rating == p.ticket.rating
    && q.behavior == x.behavior(p.ticket) && IsBest(x.heroes(p.ticket), p.role, q.hero)
    && q.proficiency == if |x.heroes(p.ticket)| == 0 then 50.0 else Proficiency(x.heroes(p.ticket), q.hero)
  }

  ghost predicate AllDifferent(players: seq<MatchPlayer>) {
    forall i, j :: 0 <= i < j < |players| ==>
        players[i].player != players[j].player && players[i].ticket != players[j].ticket
  }

  lemma PlayersOfTickets(f: Formation, x: Extras)
    ensures PlaysOn(MatchPlayers(f, x), FormationTickets(f))
    ensures |Lined(f)| == |MatchPlayers(f, x)|
    ensures forall i :: 0 <= i < |Lined(f)| ==> MatchPlayers(f, x)[i] == PlayerOf(Lined(f)[i], x)
  {
  }

  // The i-th player plays on the i-th ticket.
  ghost predicate PlaysOn(all: seq<MatchPlayer>, tickets: seq<T.Profile>) {
    |all| == |tickets|
    && forall i :: 0 <= i < |all| ==> all[i].player == tickets[i].player && all[i].ticket == tickets[i].id
  }

  // The match can use the player: he, his ticket and his rating are there, and his scores are in range.
  predicate FitToPlay(p: AssignedPlayer, x: Extras) {
    && p.ticket.player != NO_ID && p.ticket.id != NO_ID && p.ticket.rating > 0.0
    && ScoreInRange(x.behavior(p.ticket)) && ScoreInRange(BestForRole(x.heroes(p.ticket), p.role).1)
  }

  lemma ValidWhenFit(f: Formation, x: Extras)
    ensures (forall i :: 0 <= i < |MatchPlayers(f, x)| ==> ValidPlayer(MatchPlayers(f, x)[i])) <==>
              (forall p :: p in Lined(f) ==> FitToPlay(p, x))
  {
    PlayersOfTickets(f, x);
    var all := MatchPlayers(f, x);
    forall i | 0 <= i < |all| ensures Lined(f)[i] in Lined(f) && (ValidPlayer(all[i]) <==> FitToPlay(Lined(f)[i], x)) {
      HeroFits(Lined(f)[i], x);
    }
  }

  // The hero that the worker picks always has the player's role.
  lemma HeroFits(p: AssignedPlayer, x: Extras)
    ensures ValidHero(PlayerOf(p, x)) && (ValidPlayer(PlayerOf(p, x)) <==> FitToPlay(p, x))
  {
    assert IsBest(x.heroes(p.ticket), p.role, BestForRole(x.heroes(p.ticket), p.role).0);
  }

  lemma DifferentWhenDistinct(all: seq<MatchPlayer>, tickets: seq<T.Profile>)
    requires PlaysOn(all, tickets) && Candidates(tickets)
    ensures AllDifferent(all)
  {
  }

  /** So NewMatch accepts the teams iff they have ids and every player is fit to play. */
  lemma LineupTeamsAreValid(candidates: seq<T.Profile>, anchorId: Id, c: seq<nat>, split: seq<bool>, ctx: Context,
                            f: Formation, x: Extras)
    requires Candidates(candidates) && Admits(Searched(candidates, anchorId), c, split, ctx, f)
    ensures ValidTeams(MatchTeamOf(x.idA, f.teamA, x), MatchTeamOf(x.idB, f.teamB, x)) <==>
              x.idA != NO_ID && x.idB != NO_ID && forall p :: p in Lined(f) ==> FitToPlay(p, x)
  {
    AdmittedIsPicked(candidates, anchorId, c, split, ctx, f);
    PickedDistinct(FormationTickets(f), candidates);
    PlayersOfTickets(f, x);
    ValidWhenFit(f, x);
    DifferentWhenDistinct(MatchPlayers(f, x), FormationTickets(f));
    TeamsAreValid(MatchTeamOf(x.idA, f.teamA, x), MatchTeamOf(x.idB, f.teamB, x));
  }

  // What NewTicket has checked of the two fields: the proficiencies are of catalogue heroes.
  predicate ScoresInRange(t: T.Profile, x: Extras) {
    ScoreInRange(x.behavior(t)) && forall hero :: hero in x.heroes(t) ==> ScoreInRange(x.heroes(t)[hero])
  }

  /** A ticket that NewTicket has accepted is fit to play in any role. */
  lemma AcceptedIsFit(p: AssignedPlayer, x: Extras)
    requires p.ticket.Acceptable() && ScoresInRange(p.ticket, x)
    ensures FitToPlay(p, x)
  {
  }

  lemma TeamsAreValid(a: MatchTeam, b: MatchTeam)
    requires |a.players| == 5 && |b.players| == 5 && AllDifferent(a.players + b.players)
    ensures var all := a.players + b.players;
            ValidTeams(a, b) <==> a.id != NO_ID && b.id != NO_ID && forall i :: 0 <= i < |all| ==> ValidPlayer(all[i])
  {
  }

  // The candidates are tickets of the snapshot, and no ticket or player comes twice.
  lemma GeneratedAreCandidates(tickets: seq<T.Ticket>, now: Time, policy: T.Policy)
    requires DistinctIds(CandidateGeneration.Profiles(tickets))
             && CandidateGeneration.Generated(tickets, now, policy).Ok?
    ensures var r := CandidateGeneration.Generated(tickets, now, policy).value;
            Candidates(r.tickets) && Among(r.tickets, tickets)
  {
    var profiles := CandidateGeneration.Profiles(tickets);
    var r := CandidateGeneration.Generated(tickets, now, policy).value;
    var s := CandidateGeneration.SearchFor(tickets, r.anchor, now, policy);
    CandidateGeneration.SortedDistinct(profiles);
    CandidateGeneration.AcceptedAreCandidates(s);
    SortPermutes(ByAge, profiles);
    forall p | p in r.tickets ensures exists t :: t in tickets && t.profile == p {
      assert p in multiset(r.tickets) && p in multiset(s.ordered);
      MemberOfPermutation(s.ordered, profiles, p);
      var i :| 0 <= i < |profiles| && profiles[i] == p;
      assert tickets[i] in tickets;
    }
  }

  // A lineup of an admitted formation of the candidates that GenerateCandidates finds among the tickets.
  ghost predicate FormedBy(tickets: seq<T.Ticket>, now: Time, ctx: Context, l: Lineup, c: seq<nat>, split: seq<bool>,
                           f: Formation, x: Extras)
  {
    && DistinctIds(CandidateGeneration.Profiles(tickets)) && CandidateGeneration.Generated(tickets, now, ctx.policy).Ok?
    && var r := CandidateGeneration.Generated(tickets, now, ctx.policy).value;
       && Admits(Searched(r.tickets, r.anchor.id), c, split, ctx, f)
       && Among(FormationTickets(f), tickets) && l == LineupOf(tickets, f, x)
  }

  /**
    Whatever formation the engine picks for the tickets it is given, its lineup is what tryPool
    relies on: drawn from these tickets, five a side, all different.
  */
  lemma EngineLineupsAreDrawn(tickets: seq<T.Ticket>, now: Time, ctx: Context, l: Lineup, c: seq<nat>,
                              split: seq<bool>, f: Formation, x: Extras)
    requires FormedBy(tickets, now, ctx, l, c, split, f, x)
    ensures DrawnFrom(l, tickets) && |l.teamA.players| == 5 && |l.teamB.players| == 5
    ensures AllDifferent(l.teamA.players + l.teamB.players)
  {
    GeneratedAreCandidates(tickets, now, ctx.policy);
    var r := CandidateGeneration.Generated(tickets, now, ctx.policy).value;
    LineupIsDrawn(tickets, r.tickets, r.anchor.id, c, split, ctx, f, x);
  }
}
