/**
  RatingService.RecordMatchResult for Elo (internal/player/application/rating_service.go:76-149).
*/
module RatingServices {
  import opened Prelude
  import opened RatingLedger
  import opened EloRatings
  import opened PlayerRepositories

  datatype MatchOutcome = Unspecified | TeamAWin | TeamBWin | Draw

  datatype ServiceError = InvalidMatchResult | Rejected(error: LedgerError) | InvalidRating(reason: EloError)

  const RANKED_MATCH: Id := 1

  function ScoreA(outcome: MatchOutcome): real {
    match outcome
    case TeamAWin => 1.0
    case Draw => 0.5
    case _ => 0.0
  }

  // The players as the repository has them, in the order asked for.
  function Loaded(players: map<Id, Player>, ids: seq<Id>): Result<seq<Player>, LedgerError> {
    if ids == [] then Ok([])
    else
      match Loaded(players, ids[..|ids| - 1])
      case Err(e) => Err(e)
      case Ok(init) => if ids[|ids| - 1] in players then Ok(init + [players[ids[|ids| - 1]]]) else Err(PlayerNotFound)
  }

  predicate UniquePlayers(a: seq<Id>, b: seq<Id>) {
    && NO_ID !in a + b
    && forall i, j :: 0 <= i < j < |a + b| ==> (a + b)[i] != (a + b)[j]
  }

  // validateUniquePlayers.
  method ValidateUniquePlayers(a: seq<Id>, b: seq<Id>) returns (ok: bool)
    ensures ok <==> UniquePlayers(a, b)
  {
    var all := a + b;
    var seen: set<Id> := {};
    for i := 0 to |all|
      invariant NO_ID !in all[..i] && seen == set x | x in all[..i]
      invariant forall j, k :: 0 <= j < k < i ==> all[j] != all[k]
    {
      assert all[..i + 1] == all[..i] + [all[i]];
      if all[i] == NO_ID {
        return false;
      }
      if all[i] in seen {
        var k :| 0 <= k < i && all[..i][k] == all[i];
        assert all[k] == all[i];
        return false;
      }
      seen := seen + {all[i]};
    }
    assert all[..|all|] == all;
    return true;
  }

  class RatingService {
    const repository: Repository
    const calculator: Calculator

    constructor (repository: Repository, calculator: Calculator)
      ensures this.repository == repository && this.calculator == calculator
    {
      this.repository, this.calculator := repository, calculator;
    }

    /**
      Rates a match once: it goes through iff the request is well formed, the players are known and
      every new rating is positive.  The population's total rating stays, and recording the match
      again answers the changes of the first time.
    */
    method RecordMatchResult(matchId: Id, teamA: seq<Id>, teamB: seq<Id>, outcome: MatchOutcome, reason: Id, now: Time)
      returns (r: Result<seq<Change>, ServiceError>)
      requires repository.Valid()
      modifies repository
      ensures repository.Valid() && repository.opening == old(repository.opening)
      ensures Sum(RatingsOf(repository.players)) == Sum(RatingsOf(old(repository.players)))
      ensures r.Ok? <==>
                && matchId != NO_ID && |teamA| == 5 && |teamB| == 5 && outcome != Unspecified && now != ZERO_TIME
                && UniquePlayers(teamA, teamB) && AllKnown(old(repository.players), teamA + teamB)
                && StayPositive(old(repository.players), teamA, teamB,
                                Gain(calculator, old(repository.players), teamA, teamB, outcome))
      ensures r.Err? ==> repository.State() == old(repository.State())
      ensures r.Ok? ==> matchId in repository.ratedMatchHistory && r.value == repository.ratedMatchHistory[matchId]
      ensures r.Ok? && matchId in old(repository.ratedMatchHistory) ==> repository.State() == old(repository.State())
      ensures r.Ok? && matchId !in old(repository.ratedMatchHistory) ==>
                && Scored(old(repository.players), repository.players, teamA, teamB,
                          Gain(calculator, old(repository.players), teamA, teamB, outcome))
                && Recorded(old(repository.State()), repository.State(), r.value, matchId, teamA + teamB,
                            if reason == NO_ID then RANKED_MATCH else reason, now)
    {
      if matchId == NO_ID || |teamA| != 5 || |teamB| != 5 || outcome == Unspecified {
        return Err(InvalidMatchResult);
      }
      var unique := ValidateUniquePlayers(teamA, teamB);
      if !unique {
        return Err(InvalidMatchResult);
      }
      ghost var before := repository.State();
      LoadedIffKnown(before.players, teamA, teamB);
      var loadedA := LoadPlayers(teamA);
      if loadedA.Err? {
        return Err(Rejected(loadedA.error));
      }
      var loadedB := LoadPlayers(teamB);
      if loadedB.Err? {
        return Err(Rejected(loadedB.error));
      }
      var command := Command(matchId, if reason == NO_ID then RANKED_MATCH else reason, ScoreA(outcome), now);
      RatableExactly(Book(before, repository.opening), calculator, teamA, teamB, outcome);
      r := RecordLoaded(command, teamA, teamB, loadedA.value, loadedB.value);
      if r.Ok? && matchId !in before.rated {
        RatesAreScores(before.players, repository.players, calculator, teamA, teamB, outcome);
      }
    }

    // From the players as loaded.
    method RecordLoaded(command: Command, ghost teamA: seq<Id>, ghost teamB: seq<Id>, a: seq<Player>, b: seq<Player>)
      returns (r: Result<seq<Change>, ServiceError>)
      requires repository.Valid() && command.matchId != NO_ID && command.reason != NO_ID
      requires |teamA| == 5 && |teamB| == 5 && UniquePlayers(teamA, teamB)
      requires Loaded(repository.players, teamA) == Ok(a) && Loaded(repository.players, teamB) == Ok(b)
      modifies repository
      ensures repository.Valid() && repository.opening == old(repository.opening)
      ensures Sum(RatingsOf(repository.players)) == Sum(RatingsOf(old(repository.players)))
      ensures r.Ok? <==>
                command.createdAt != ZERO_TIME
                && Ratable(old(repository.players), calculator, teamA, teamB, command.scoreA)
      ensures r.Err? ==> repository.State() == old(repository.State())
      ensures r.Ok? ==>
                command.matchId in repository.ratedMatchHistory
                && r.value == repository.ratedMatchHistory[command.matchId]
      ensures r.Ok? && command.matchId in old(repository.ratedMatchHistory) ==>
                repository.State() == old(repository.State())
      ensures r.Ok? && command.matchId !in old(repository.ratedMatchHistory) ==>
                && Rates(old(repository.players), repository.players, calculator, teamA, teamB, command.scoreA)
                && Recorded(old(repository.State()), repository.State(), r.value, command.matchId, teamA + teamB,
                            command.reason, command.createdAt)
    {
      LoadedAre(repository.players, teamA);
      LoadedAre(repository.players, teamB);
      ghost var book := Book(repository.State(), repository.opening);
      RatableIsEnough(book, calculator, command, teamA, teamB);
      var changes := ComputeEloChanges(command, a, b);
      if changes.Err? {
        return Err(InvalidRating(changes.error));
      }
      EloChangesCancel(calculator, command, a, b);
      ApplyConserves(book, calculator, command, a, b);
      FirstRecording(book, calculator, command, teamA, teamB);
      FirstRecord(book, calculator, command, teamA, teamB);
      var applied := repository.ApplyRatingChanges(command.matchId, changes.value);
      r := match applied case Err(e) => Err(Rejected(e)) case Ok(recorded) => Ok(recorded);
      ReadChangesApply(book, calculator, command, teamA, teamB);
    }

    method LoadPlayers(ids: seq<Id>) returns (r: Result<seq<Player>, LedgerError>)
      ensures r == Loaded(repository.players, ids)
    {
      var players: seq<Player> := [];
      for i := 0 to |ids|
        invariant Loaded(repository.players, ids[..i]) == Ok(players)
      {
        assert ids[..i + 1][..i] == ids[..i];
        LoadedStays(repository.players, ids, i + 1, |ids|);
        var player := repository.GetById(ids[i]);
        if player.Err? {
          assert ids[..|ids|] == ids;
          return Err(player.error);
        }
        players := players + [player.value];
      }
      assert ids[..|ids|] == ids;
      return Ok(players);
    }

    // eloChanges: the same delta for every player of a team.
    method ComputeEloChanges(command: Command, teamA: seq<Player>, teamB: seq<Player>)
      returns (r: Result<seq<Change>, EloError>)
      requires teamA != [] && teamB != []
      ensures r == EloChanges(calculator, command, teamA, teamB)
    {
      var averageA := Average(teamA);
      var averageB := Average(teamB);
      var pair := UpdatePair(calculator, averageA, averageB, command.scoreA);
      if pair.Err? {
        return Err(pair.error);
      }
      var first := ChangesOf(command, teamA, pair.value.deltaA);
      if first.Err? {
        return first;
      }
      var second := ChangesOf(command, teamB, pair.value.deltaB);
      if second.Err? {
        return second;
      }
      return Ok(first.value + second.value);
    }

    method Average(team: seq<Player>) returns (average: real)
      requires team != []
      ensures average == AverageRating(team)
    {
      var total := 0.0;
      for i := 0 to |team|
        invariant total == TotalRating(team[..i])
      {
        assert team[..i + 1][..i] == team[..i];
        total := total + team[i].state.rating;
      }
      assert team[..|team|] == team;
      return total / |team| as real;
    }

    method ChangesOf(command: Command, team: seq<Player>, delta: real) returns (r: Result<seq<Change>, EloError>)
      ensures r == TeamChanges(command, team, delta)
    {
      var changes: seq<Change> := [];
      for i := 0 to |team|
        invariant TeamChanges(command, team[..i], delta) == Ok(changes)
      {
        assert team[..i + 1][..i] == team[..i];
        ChangesStay(command, team, delta, i + 1, |team|);
        var p := team[i];
        var change := NewRatingChange(p.id, command.matchId, p.state, p.state.(rating := p.state.rating + delta), Elo,
                                      command.reason, command.createdAt);
        if change.Err? {
          assert team[..|team|] == team;
          return Err(EloError.Ledger(change.error));
        }
        changes := changes + [change.value];
      }
      assert team[..|team|] == team;
      return Ok(changes);
    }
  }

  lemma {:induction false} LoadedStays(players: map<Id, Player>, ids: seq<Id>, i: nat, n: nat)
    requires i <= n <= |ids|
    ensures Loaded(players, ids[..i]).Err? ==> Loaded(players, ids[..n]) == Loaded(players, ids[..i])
  {
    if i < n {
      assert ids[..n][..n - 1] == ids[..n - 1];
      LoadedStays(players, ids, i, n - 1);
    }
  }

  lemma {:induction false} ChangesStay(command: Command, team: seq<Player>, delta: real, i: nat, n: nat)
    requires i <= n <= |team|
    ensures TeamChanges(command, team[..i], delta).Err? ==>
              TeamChanges(command, team[..n], delta) == TeamChanges(command, team[..i], delta)
  {
    if i < n {
      assert team[..n][..n - 1] == team[..n - 1];
      ChangesStay(command, team, delta, i, n - 1);
    }
  }

  lemma {:induction false} LoadedAre(players: map<Id, Player>, ids: seq<Id>)
    requires Loaded(players, ids).Ok?
    ensures |Loaded(players, ids).value| == |ids|
    ensures forall i :: 0 <= i < |ids| ==> ids[i] in players && Loaded(players, ids).value[i] == players[ids[i]]
  {
    if ids != [] {
      LoadedAre(players, ids[..|ids| - 1]);
    }
  }

  lemma {:induction false} ChangesAre(command: Command, team: seq<Player>, delta: real)
    requires TeamChanges(command, team, delta).Ok?
    ensures |TeamChanges(command, team, delta).value| == |team|
    ensures forall i :: 0 <= i < |team| ==>
              var c := TeamChanges(command, team, delta).value[i];
              c.player == team[i].id && c.before == team[i].state
                && c.after == team[i].state.(rating := team[i].state.rating + delta) && OfCommand(c, command)
  {
    if team != [] {
      ChangesAre(command, team[..|team| - 1], delta);
    }
  }

  ghost predicate OfCommand(c: Change, command: Command) {
    && c.matchId == command.matchId && c.system == Elo && c.reason == command.reason
    && c.createdAt == command.createdAt
  }

  // What a match does to the players: the team's delta for each of its members, nothing for the others.
  ghost predicate Rates(players: map<Id, Player>, players': map<Id, Player>, c: Calculator, teamA: seq<Id>,
                        teamB: seq<Id>, scoreA: real)
  {
    var a, b := Loaded(players, teamA), Loaded(players, teamB);
    && a.Ok? && b.Ok? && a.value != [] && b.value != []
    && var pair := UpdatePair(c, AverageRating(a.value), AverageRating(b.value), scoreA);
       && pair.Ok? && players'.Keys == players.Keys
       && forall p :: p in players ==>
            var delta := if p in teamA then pair.value.deltaA else if p in teamB then pair.value.deltaB else 0.0;
            players'[p] == Moved(players[p], delta)
  }

  predicate Acceptable(matchId: Id, teamA: seq<Id>, teamB: seq<Id>, outcome: MatchOutcome, now: Time) {
    matchId != NO_ID && |teamA| == 5 && |teamB| == 5 && outcome != Unspecified && UniquePlayers(teamA, teamB)
      && now != ZERO_TIME
  }

  // The players are known and all their new ratings are positive.
  predicate Ratable(players: map<Id, Player>, c: Calculator, teamA: seq<Id>, teamB: seq<Id>, scoreA: real) {
    var a, b := Loaded(players, teamA), Loaded(players, teamB);
    && a.Ok? && b.Ok? && a.value != [] && b.value != []
    && var pair := UpdatePair(c, AverageRating(a.value), AverageRating(b.value), scoreA);
       && pair.Ok?
       && (forall i :: 0 <= i < |a.value| ==> a.value[i].state.rating + pair.value.deltaA > 0.0)
       && (forall i :: 0 <= i < |b.value| ==> b.value[i].state.rating + pair.value.deltaB > 0.0)
  }

  // Fit for a change of rating in a well-formed match.
  predicate Fit(p: Player, command: Command) {
    p.id != NO_ID && ValidState(p.state) && command.matchId != NO_ID && command.reason != NO_ID
  }

  lemma {:induction false} TeamChangesOk(command: Command, team: seq<Player>, delta: real)
    requires forall p :: p in team ==> Fit(p, command)
    ensures TeamChanges(command, team, delta).Ok? <==>
              team == [] || (command.createdAt != ZERO_TIME && forall i :: 0 <= i < |team| ==>
                             team[i].state.rating + delta > 0.0)
    ensures TeamChanges(command, team, delta).Ok? ==>
              forall change :: change in TeamChanges(command, team, delta).value ==> change.matchId == command.matchId
  {
    if team != [] {
      var n := |team| - 1;
      TeamChangesOk(command, team[..n], delta);
      assert Fit(team[n], command);
    }
  }

  lemma {:induction false} NoProblem(l: RatingLedger.Ledger, teamA: seq<Id>, teamB: seq<Id>, pair: PairResult, m: Id,
                                     changes: seq<Change>, n: nat)
    requires n <= |changes| == |teamA + teamB| && DistinctPlayers(changes)
    requires forall i :: 0 <= i < |changes| ==> ChangeOf(l, teamA, teamB, pair, changes, i) && changes[i].matchId == m
    ensures FirstProblem(l, m, changes, n).None?
  {
    if n > 0 {
      NoProblem(l, teamA, teamB, pair, m, changes, n - 1);
      assert ChangeOf(l, teamA, teamB, pair, changes, n - 1);
    }
  }

  lemma LoadedAreFit(b: Book, command: Command, ids: seq<Id>)
    requires Consistent(b) && Loaded(b.ledger.players, ids).Ok? && NO_ID !in ids
    requires command.matchId != NO_ID && command.reason != NO_ID
    ensures forall p :: p in Loaded(b.ledger.players, ids).value ==> Fit(p, command)
  {
    LoadedAre(b.ledger.players, ids);
    forall i | 0 <= i < |ids| ensures Fit(Loaded(b.ledger.players, ids).value[i], command) {
      assert ids[i] in ids && PlayerOk(b, ids[i]);
    }
  }

  // Teams as they were just read.
  predicate Read(b: Book, command: Command, teamA: seq<Id>, teamB: seq<Id>) {
    && UniquePlayers(teamA, teamB) && teamA != [] && teamB != [] && command.matchId != NO_ID && command.reason != NO_ID
    && Loaded(b.ledger.players, teamA).Ok? && Loaded(b.ledger.players, teamB).Ok?
    && Loaded(b.ledger.players, teamA).value != [] && Loaded(b.ledger.players, teamB).value != []
  }

  /** The changes can be computed iff no new rating falls to zero or below. */
  lemma RatableIsEnough(b: Book, c: Calculator, command: Command, teamA: seq<Id>, teamB: seq<Id>)
    requires Consistent(b) && Read(b, command, teamA, teamB)
    ensures EloChanges(c, command, Loaded(b.ledger.players, teamA).value,
                       Loaded(b.ledger.players, teamB).value).Ok? <==>
              command.createdAt != ZERO_TIME && Ratable(b.ledger.players, c, teamA, teamB, command.scoreA)
  {
    var loadedA, loadedB := Loaded(b.ledger.players, teamA).value, Loaded(b.ledger.players, teamB).value;
    assert forall id :: id in teamA || id in teamB ==> id in teamA + teamB;
    LoadedAreFit(b, command, teamA);
    LoadedAreFit(b, command, teamB);
    var result := UpdatePair(c, AverageRating(loadedA), AverageRating(loadedB), command.scoreA);
    if result.Ok? {
      TeamChangesOk(command, loadedA, result.value.deltaA);
      TeamChangesOk(command, loadedB, result.value.deltaB);
    }
  }

  /** What was just read of the players passes every check of the repository. */
  lemma ReadChangesApply(b: Book, c: Calculator, command: Command, teamA: seq<Id>, teamB: seq<Id>)
    requires Consistent(b) && Read(b, command, teamA, teamB)
    requires EloChanges(c, command, Loaded(b.ledger.players, teamA).value, Loaded(b.ledger.players, teamB).value).Ok?
    ensures Apply(b.ledger, command.matchId, EloChanges(c, command, Loaded(b.ledger.players, teamA).value,
                                                        Loaded(b.ledger.players, teamB).value).value).1.Ok?
  {
    var l := b.ledger;
    var loadedA, loadedB := Loaded(l.players, teamA).value, Loaded(l.players, teamB).value;
    var pair := UpdatePair(c, AverageRating(loadedA), AverageRating(loadedB), command.scoreA).value;
    var first, second := TeamChanges(command, loadedA, pair.deltaA).value,
                         TeamChanges(command, loadedB, pair.deltaB).value;
    forall p | p in l.players ensures l.players[p].id == p && ValidState(l.players[p].state) { assert PlayerOk(b, p); }
    OfOneMatch(b, command, teamA, teamB, pair);
    EloChangesAre(l, command, teamA, teamB, pair);
    DistinctChanges(l, teamA, teamB, pair, first + second);
    NoProblem(l, teamA, teamB, pair, command.matchId, first + second, |first + second|);
  }

  lemma OfOneMatch(b: Book, command: Command, teamA: seq<Id>, teamB: seq<Id>, pair: PairResult)
    requires Consistent(b) && Read(b, command, teamA, teamB)
    requires var first, second := TeamChanges(command, Loaded(b.ledger.players, teamA).value, pair.deltaA),
             TeamChanges(command, Loaded(b.ledger.players, teamB).value, pair.deltaB);
             first.Ok? && second.Ok?
    ensures var first, second := TeamChanges(command, Loaded(b.ledger.players, teamA).value, pair.deltaA).value,
            TeamChanges(command, Loaded(b.ledger.players, teamB).value, pair.deltaB).value;
            forall change :: change in first + second ==> change.matchId == command.matchId
  {
    assert forall id :: id in teamA || id in teamB ==> id in teamA + teamB;
    LoadedAreFit(b, command, teamA);
    LoadedAreFit(b, command, teamB);
    TeamChangesOk(command, Loaded(b.ledger.players, teamA).value, pair.deltaA);
    TeamChangesOk(command, Loaded(b.ledger.players, teamB).value, pair.deltaB);
  }

  function Moved(p: Player, delta: real): Player {
    p.(state := p.state.(rating := p.state.rating + delta))
  }

  // Nothing changed since the players were read: the changes apply as they are.
  lemma FirstRecording(b: Book, c: Calculator, command: Command, teamA: seq<Id>, teamB: seq<Id>)
    requires Consistent(b) && UniquePlayers(teamA, teamB) && teamA != [] && teamB != []
    requires Loaded(b.ledger.players, teamA).Ok? && Loaded(b.ledger.players, teamB).Ok?
    requires Loaded(b.ledger.players, teamA).value != [] && Loaded(b.ledger.players, teamB).value != []
    requires EloChanges(c, command, Loaded(b.ledger.players, teamA).value, Loaded(b.ledger.players, teamB).value).Ok?
    ensures var changes := EloChanges(c, command, Loaded(b.ledger.players, teamA).value,
                                      Loaded(b.ledger.players, teamB).value).value;
            command.matchId !in b.ledger.rated && Apply(b.ledger, command.matchId, changes).1.Ok? ==>
              Rates(b.ledger.players, Apply(b.ledger, command.matchId, changes).0.players, c, teamA, teamB,
                    command.scoreA)
  {
    var l := b.ledger;
    var loadedA, loadedB := Loaded(l.players, teamA).value, Loaded(l.players, teamB).value;
    var pair := UpdatePair(c, AverageRating(loadedA), AverageRating(loadedB), command.scoreA).value;
    var changes := EloChanges(c, command, loadedA, loadedB).value;
    forall p | p in l.players ensures l.players[p].id == p && ValidState(l.players[p].state) { assert PlayerOk(b, p); }
    EloChangesAre(l, command, teamA, teamB, pair);
    if command.matchId !in l.rated && Apply(l, command.matchId, changes).1.Ok? {
      FreshApply(l, teamA, teamB, pair, command.matchId, changes);
    }
  }

  // The changes are filed as they are.
  lemma FirstRecord(b: Book, c: Calculator, command: Command, teamA: seq<Id>, teamB: seq<Id>)
    requires Consistent(b) && UniquePlayers(teamA, teamB) && teamA != [] && teamB != []
    requires Loaded(b.ledger.players, teamA).Ok? && Loaded(b.ledger.players, teamB).Ok?
    requires Loaded(b.ledger.players, teamA).value != [] && Loaded(b.ledger.players, teamB).value != []
    requires EloChanges(c, command, Loaded(b.ledger.players, teamA).value, Loaded(b.ledger.players, teamB).value).Ok?
    ensures var changes := EloChanges(c, command, Loaded(b.ledger.players, teamA).value,
                                      Loaded(b.ledger.players, teamB).value).value;
            var applied := Apply(b.ledger, command.matchId, changes);
            command.matchId !in b.ledger.rated && applied.1.Ok? ==>
              Recorded(b.ledger, applied.0, applied.1.value, command.matchId, teamA + teamB, command.reason,
                       command.createdAt)
  {
    var l := b.ledger;
    var loadedA, loadedB := Loaded(l.players, teamA).value, Loaded(l.players, teamB).value;
    var pair := UpdatePair(c, AverageRating(loadedA), AverageRating(loadedB), command.scoreA).value;
    var changes := EloChanges(c, command, loadedA, loadedB).value;
    forall p | p in l.players ensures l.players[p].id == p && ValidState(l.players[p].state) { assert PlayerOk(b, p); }
    EloChangesAre(l, command, teamA, teamB, pair);
    ChangesAre(command, loadedA, pair.deltaA);
    ChangesAre(command, loadedB, pair.deltaB);
    assert forall i :: 0 <= i < |changes| ==> OfCommand(changes[i], command);
    if command.matchId !in l.rated && Apply(l, command.matchId, changes).1.Ok? {
      FreshRecord(l, teamA, teamB, pair, command, changes);
    }
  }

  lemma FreshRecord(l: RatingLedger.Ledger, teamA: seq<Id>, teamB: seq<Id>, pair: PairResult, command: Command,
                    changes: seq<Change>)
    requires |changes| == |teamA + teamB| && UniquePlayers(teamA, teamB)
    requires forall i :: 0 <= i < |changes| ==>
               ChangeOf(l, teamA, teamB, pair, changes, i) && OfCommand(changes[i], command)
    requires command.matchId !in l.rated && Apply(l, command.matchId, changes).1.Ok?
    ensures var applied := Apply(l, command.matchId, changes);
            Recorded(l, applied.0, applied.1.value, command.matchId, teamA + teamB, command.reason, command.createdAt)
  {
    var ids, l' := teamA + teamB, Apply(l, command.matchId, changes).0;
    CompleteIsSame(l, teamA, teamB, pair, changes);
    DistinctChanges(l, teamA, teamB, pair, changes);
    assert Apply(l, command.matchId, changes)
        == (RatingLedger.Ledger.Ledger(Rerated(l.players, changes), Logged(l.history, changes),
                                       l.rated[command.matchId := changes]),
            Ok(changes));
    forall i | 0 <= i < |ids|
      ensures ids[i] in l.players && ids[i] in l'.players
      ensures changes[i] == Change(ids[i], command.matchId, l.players[ids[i]].state, l'.players[ids[i]].state, Elo,
                                   command.reason, command.createdAt)
      ensures HistoryOf(l'.history, ids[i]) == HistoryOf(l.history, ids[i]) + [changes[i]]
    {
      assert ChangeOf(l, teamA, teamB, pair, changes, i);
      ReratedAt(l.players, changes, ids[i]);
      LoggedAt(l.history, changes, ids[i]);
    }
    forall p | p !in ids ensures HistoryOf(l'.history, p) == HistoryOf(l.history, p) {
      forall i | 0 <= i < |changes| ensures changes[i].player != p {
        assert ChangeOf(l, teamA, teamB, pair, changes, i);
      }
      LoggedAt(l.history, changes, p);
    }
  }

  lemma CompleteIsSame(l: RatingLedger.Ledger, teamA: seq<Id>, teamB: seq<Id>, pair: PairResult, changes: seq<Change>)
    requires |changes| == |teamA + teamB|
    requires forall i :: 0 <= i < |changes| ==> ChangeOf(l, teamA, teamB, pair, changes, i)
    ensures Complete(l, changes) == changes
  {
    forall i | 0 <= i < |changes| ensures Complete(l, changes)[i] == changes[i] {
      assert ChangeOf(l, teamA, teamB, pair, changes, i);
    }
  }

  lemma EloChangesAre(l: RatingLedger.Ledger, command: Command, teamA: seq<Id>, teamB: seq<Id>, pair: PairResult)
    requires Loaded(l.players, teamA).Ok? && Loaded(l.players, teamB).Ok?
    requires forall p :: p in l.players ==> l.players[p].id == p && ValidState(l.players[p].state)
    requires TeamChanges(command, Loaded(l.players, teamA).value, pair.deltaA).Ok?
             && TeamChanges(command, Loaded(l.players, teamB).value, pair.deltaB).Ok?
    ensures var changes := TeamChanges(command, Loaded(l.players, teamA).value, pair.deltaA).value
            + TeamChanges(command, Loaded(l.players, teamB).value, pair.deltaB).value;
            |changes| == |teamA + teamB| && forall i :: 0 <= i < |changes| ==>
                ChangeOf(l, teamA, teamB, pair, changes, i)
  {
    var loadedA, loadedB := Loaded(l.players, teamA).value, Loaded(l.players, teamB).value;
    LoadedAre(l.players, teamA);
    LoadedAre(l.players, teamB);
    ChangesAre(command, loadedA, pair.deltaA);
    ChangesAre(command, loadedB, pair.deltaB);
    var first, second := TeamChanges(command, loadedA, pair.deltaA).value,
                         TeamChanges(command, loadedB, pair.deltaB).value;
    var changes := first + second;
    forall i | 0 <= i < |changes| ensures ChangeOf(l, teamA, teamB, pair, changes, i) {
      if i < |teamA| {
        assert changes[i] == first[i] && (teamA + teamB)[i] == teamA[i];
      } else {
        assert changes[i] == second[i - |teamA|] && (teamA + teamB)[i] == teamB[i - |teamA|];
      }
    }
  }

  lemma FreshApply(l: RatingLedger.Ledger, teamA: seq<Id>, teamB: seq<Id>, pair: PairResult, m: Id,
                   changes: seq<Change>)
    requires |changes| == |teamA + teamB| && UniquePlayers(teamA, teamB)
    requires forall i :: 0 <= i < |changes| ==> ChangeOf(l, teamA, teamB, pair, changes, i)
    requires m !in l.rated && Apply(l, m, changes).1.Ok?
    ensures var players := Apply(l, m, changes).0.players;
            && players.Keys == l.players.Keys
            && forall p :: p in l.players ==>
                 players[p] == Moved(l.players[p], if p in teamA then pair.deltaA else if p in teamB then pair.deltaB
                                     else 0.0)
  {
    CompleteIsSame(l, teamA, teamB, pair, changes);
    DistinctChanges(l, teamA, teamB, pair, changes);
    forall p | p in l.players
      ensures Rerated(l.players, changes)[p]
              == Moved(l.players[p], if p in teamA then pair.deltaA else if p in teamB then pair.deltaB else 0.0)
    {
      ReratedPlayer(l, teamA, teamB, pair, changes, p);
    }
  }

  ghost predicate ChangeOf(l: RatingLedger.Ledger, teamA: seq<Id>, teamB: seq<Id>, pair: PairResult,
                           changes: seq<Change>, i: nat)
    requires i < |changes| == |teamA + teamB|
  {
    var id := (teamA + teamB)[i];
    && changes[i].player == id && id in l.players && changes[i].before == l.players[id].state
       && changes[i].before.deviation > 0.0
    && changes[i].after == Moved(l.players[id], if i < |teamA| then pair.deltaA else pair.deltaB).state
  }

  lemma DistinctChanges(l: RatingLedger.Ledger, teamA: seq<Id>, teamB: seq<Id>, pair: PairResult, changes: seq<Change>)
    requires |changes| == |teamA + teamB| && UniquePlayers(teamA, teamB)
    requires forall i :: 0 <= i < |changes| ==> ChangeOf(l, teamA, teamB, pair, changes, i)
    ensures DistinctPlayers(changes) && Rerated(l.players, changes).Keys == l.players.Keys
  {
    forall i, j | 0 <= i < j < |changes| ensures changes[i].player != changes[j].player {
      assert ChangeOf(l, teamA, teamB, pair, changes, i) && ChangeOf(l, teamA, teamB, pair, changes, j);
    }
    forall i | 0 <= i < |changes| ensures changes[i].player in l.players {
      assert ChangeOf(l, teamA, teamB, pair, changes, i);
    }
    ReratedAt(l.players, changes, NO_ID);
  }

  lemma ReratedPlayer(l: RatingLedger.Ledger, teamA: seq<Id>, teamB: seq<Id>, pair: PairResult, changes: seq<Change>,
                      p: Id)
    requires |changes| == |teamA + teamB| && UniquePlayers(teamA, teamB) && DistinctPlayers(changes) && p in l.players
    requires forall i :: 0 <= i < |changes| ==> ChangeOf(l, teamA, teamB, pair, changes, i)
    ensures p in Rerated(l.players, changes)
    ensures Rerated(l.players, changes)[p] == Moved(l.players[p], if p in teamA then pair.deltaA else if p in teamB
                                                    then pair.deltaB else 0.0)
  {
    forall i | 0 <= i < |changes| ensures changes[i].player in l.players {
      assert ChangeOf(l, teamA, teamB, pair, changes, i);
    }
    ReratedAt(l.players, changes, p);
    if i :| 0 <= i < |teamA| && teamA[i] == p {
      assert ChangeOf(l, teamA, teamB, pair, changes, i);
    } else if i :| 0 <= i < |teamB| && teamB[i] == p {
      assert (teamA + teamB)[|teamA| + i] == p;
      assert ChangeOf(l, teamA, teamB, pair, changes, |teamA| + i);
    } else {
      forall i | 0 <= i < |changes| ensures changes[i].player != p {
        assert ChangeOf(l, teamA, teamB, pair, changes, i);
        assert i < |teamA| ==> (teamA + teamB)[i] == teamA[i] && teamA[i] in teamA;
        assert i >= |teamA| ==> (teamA + teamB)[i] == teamB[i - |teamA|] && teamB[i - |teamA|] in teamB;
      }
    }
  }

  /* What it means for the players */

  predicate AllKnown(players: map<Id, Player>, ids: seq<Id>) {
    forall id :: id in ids ==> id in players
  }

  // The mean rating of five players; a team that is not one has none.
  function MeanOfFive(players: map<Id, Player>, ids: seq<Id>): real {
    if |ids| == 5 && AllKnown(players, ids) then
      (players[ids[0]].state.rating + players[ids[1]].state.rating + players[ids[2]].state.rating
       + players[ids[3]].state.rating + players[ids[4]].state.rating) / 5.0
    else 0.0
  }

  // What every player of team A gains and every player of team B loses.
  function Gain(c: Calculator, players: map<Id, Player>, teamA: seq<Id>, teamB: seq<Id>, outcome: MatchOutcome): real {
    var e := c.expected(MeanOfFive(players, teamA), MeanOfFive(players, teamB));
    match outcome
    case TeamAWin => c.kFactor * (1.0 - e)
    case TeamBWin => -(c.kFactor * e)
    case Draw => c.kFactor * (0.5 - e)
    case Unspecified => 0.0
  }

  predicate StayPositive(players: map<Id, Player>, teamA: seq<Id>, teamB: seq<Id>, gain: real)
    requires AllKnown(players, teamA + teamB)
  {
    && (forall i :: 0 <= i < |teamA| ==> (assert (teamA + teamB)[i] == teamA[i];
                                          players[teamA[i]].state.rating + gain > 0.0))
    && (forall i :: 0 <= i < |teamB| ==> (assert (teamA + teamB)[|teamA| + i] == teamB[i];
                                          players[teamB[i]].state.rating - gain > 0.0))
  }

  // Only ratings move, only those of the two teams, and in opposite directions.
  ghost predicate Scored(players: map<Id, Player>, players': map<Id, Player>, teamA: seq<Id>, teamB: seq<Id>,
                         gain: real)
  {
    && players'.Keys == players.Keys
    && forall p :: p in players ==>
         var moved := if p in teamA then gain else if p in teamB then -gain else 0.0;
         players'[p] == players[p].(state := players[p].state.(rating := players[p].state.rating + moved))
  }

  // One change per player, from the old state to the new one, is filed under the match and under the player.
  ghost predicate Recorded(l: Ledger, l': Ledger, changes: seq<Change>, m: Id, ids: seq<Id>, reason: Id, now: Time) {
    && |changes| == |ids| && l'.rated == l.rated[m := changes]
    && (forall i :: 0 <= i < |ids| ==>
          && ids[i] in l.players && ids[i] in l'.players
          && changes[i] == Change(ids[i], m, l.players[ids[i]].state, l'.players[ids[i]].state, Elo, reason, now)
          && HistoryOf(l'.history, ids[i]) == HistoryOf(l.history, ids[i]) + [changes[i]])
    && forall p :: p !in ids ==> HistoryOf(l'.history, p) == HistoryOf(l.history, p)
  }

  /** When a match is won, every winner gains and every loser loses. */
  lemma WinnersGain(c: Calculator, players: map<Id, Player>, players': map<Id, Player>, teamA: seq<Id>, teamB: seq<Id>,
                    outcome: MatchOutcome, p: Id)
    requires c.kFactor > 0.0 && forall x, y :: 0.0 < c.expected(x, y) < 1.0
    requires UniquePlayers(teamA, teamB) && p in players && outcome in {TeamAWin, TeamBWin}
    requires Scored(players, players', teamA, teamB, Gain(c, players, teamA, teamB, outcome))
    ensures p in (if outcome == TeamAWin then teamA else teamB) ==> players'[p].state.rating > players[p].state.rating
    ensures p in (if outcome == TeamAWin then teamB else teamA) ==> players'[p].state.rating < players[p].state.rating
  {
    GainHasSign(c, players, teamA, teamB, outcome);
    InOneTeam(teamA, teamB, p);
    Moves(players, players', teamA, teamB, Gain(c, players, teamA, teamB, outcome), p);
  }

  lemma Moves(players: map<Id, Player>, players': map<Id, Player>, teamA: seq<Id>, teamB: seq<Id>, gain: real, p: Id)
    requires Scored(players, players', teamA, teamB, gain) && p in players
    ensures p in teamA ==> players'[p].state.rating == players[p].state.rating + gain
    ensures p !in teamA && p in teamB ==> players'[p].state.rating == players[p].state.rating - gain
  {
  }

  lemma GainHasSign(c: Calculator, players: map<Id, Player>, teamA: seq<Id>, teamB: seq<Id>, outcome: MatchOutcome)
    requires c.kFactor > 0.0 && forall x, y :: 0.0 < c.expected(x, y) < 1.0
    ensures outcome == TeamAWin ==> Gain(c, players, teamA, teamB, outcome) > 0.0
    ensures outcome == TeamBWin ==> Gain(c, players, teamA, teamB, outcome) < 0.0
  {
    var e := c.expected(MeanOfFive(players, teamA), MeanOfFive(players, teamB));
    PositiveProduct(c.kFactor, e);
    PositiveProduct(c.kFactor, 1.0 - e);
  }

  lemma PositiveProduct(x: real, y: real)
    requires x > 0.0 && y > 0.0
    ensures x * y > 0.0
  {
  }

  lemma InOneTeam(teamA: seq<Id>, teamB: seq<Id>, p: Id)
    requires UniquePlayers(teamA, teamB)
    ensures !(p in teamA && p in teamB)
  {
    forall i, j | 0 <= i < |teamA| && 0 <= j < |teamB| ensures teamA[i] != teamB[j] {
      assert (teamA + teamB)[i] == teamA[i] && (teamA + teamB)[|teamA| + j] == teamB[j];
    }
  }

  lemma {:induction false} LoadedWhenKnown(players: map<Id, Player>, ids: seq<Id>)
    ensures Loaded(players, ids).Ok? <==> AllKnown(players, ids)
  {
    if ids != [] {
      var n := |ids| - 1;
      LoadedWhenKnown(players, ids[..n]);
      assert ids == ids[..n] + [ids[n]];
    }
  }

  lemma LoadedIffKnown(players: map<Id, Player>, teamA: seq<Id>, teamB: seq<Id>)
    ensures AllKnown(players, teamA + teamB) <==> Loaded(players, teamA).Ok? && Loaded(players, teamB).Ok?
  {
    LoadedWhenKnown(players, teamA);
    LoadedWhenKnown(players, teamB);
    forall id ensures id in teamA + teamB <==> id in teamA || id in teamB {}
  }

  lemma TotalOfFive(team: seq<Player>)
    requires |team| == 5
    ensures TotalRating(team) == team[0].state.rating + team[1].state.rating + team[2].state.rating
                                 + team[3].state.rating + team[4].state.rating
  {
    assert team[..4][..3] == team[..3] && team[..3][..2] == team[..2] && team[..2][..1] == team[..1];
    assert TotalRating(team[..1]) == team[0].state.rating;
    assert TotalRating(team[..2]) == TotalRating(team[..1]) + team[1].state.rating;
    assert TotalRating(team[..3]) == TotalRating(team[..2]) + team[2].state.rating;
    assert TotalRating(team[..4]) == TotalRating(team[..3]) + team[3].state.rating;
  }

  lemma AverageIsMean(players: map<Id, Player>, ids: seq<Id>)
    requires |ids| == 5 && AllKnown(players, ids)
    ensures Loaded(players, ids).Ok? && |Loaded(players, ids).value| == 5
    ensures AverageRating(Loaded(players, ids).value) == MeanOfFive(players, ids)
  {
    LoadedWhenKnown(players, ids);
    LoadedAre(players, ids);
    TotalOfFive(Loaded(players, ids).value);
  }

  lemma Products(k: real, e: real)
    ensures k * (0.0 - e) == -(k * e)
  {
  }

  lemma PairFor(c: Calculator, x: real, y: real, score: real)
    requires x > 0.0 && y > 0.0 && (score == 0.0 || score == 0.5 || score == 1.0)
    ensures UpdatePair(c, x, y, score).Ok?
    ensures UpdatePair(c, x, y, score).value.deltaA == c.kFactor * (score - c.expected(x, y))
    ensures UpdatePair(c, x, y, score).value.deltaB == -UpdatePair(c, x, y, score).value.deltaA
  {
    UpdateIsZeroSum(c, x, y, score);
    var pair := UpdatePair(c, x, y, score).value;
    assert pair.deltaA == c.kFactor * (score - c.expected(x, y)) && pair.deltaB == -pair.deltaA;
  }

  // The pair of deltas, for positive ratings.
  lemma PairIsGain(players: map<Id, Player>, c: Calculator, teamA: seq<Id>, teamB: seq<Id>, outcome: MatchOutcome)
    requires |teamA| == |teamB| == 5 && AllKnown(players, teamA) && AllKnown(players, teamB)
    requires outcome != Unspecified && MeanOfFive(players, teamA) > 0.0 && MeanOfFive(players, teamB) > 0.0
    ensures var pair := UpdatePair(c, MeanOfFive(players, teamA), MeanOfFive(players, teamB), ScoreA(outcome));
            && pair.Ok? && pair.value.deltaA == Gain(c, players, teamA, teamB, outcome)
            && pair.value.deltaB == -Gain(c, players, teamA, teamB, outcome)
  {
    var x, y := MeanOfFive(players, teamA), MeanOfFive(players, teamB);
    PairFor(c, x, y, ScoreA(outcome));
    GainIs(players, c, teamA, teamB, outcome);
  }

  lemma GainIs(players: map<Id, Player>, c: Calculator, teamA: seq<Id>, teamB: seq<Id>, outcome: MatchOutcome)
    requires outcome != Unspecified
    ensures Gain(c, players, teamA, teamB, outcome)
            == c.kFactor * (ScoreA(outcome) - c.expected(MeanOfFive(players, teamA), MeanOfFive(players, teamB)))
  {
    Products(c.kFactor, c.expected(MeanOfFive(players, teamA), MeanOfFive(players, teamB)));
  }

  lemma MeanIsPositive(b: Book, ids: seq<Id>)
    requires Consistent(b) && |ids| == 5 && AllKnown(b.ledger.players, ids)
    ensures MeanOfFive(b.ledger.players, ids) > 0.0
  {
    forall i | 0 <= i < 5 ensures b.ledger.players[ids[i]].state.rating > 0.0 {
      assert PlayerOk(b, ids[i]);
    }
  }

  // The exact condition, in terms of the gain.
  lemma RatableExactly(b: Book, c: Calculator, teamA: seq<Id>, teamB: seq<Id>, outcome: MatchOutcome)
    requires Consistent(b) && |teamA| == |teamB| == 5 && outcome != Unspecified
    requires AllKnown(b.ledger.players, teamA + teamB)
    ensures Ratable(b.ledger.players, c, teamA, teamB, ScoreA(outcome)) <==>
              StayPositive(b.ledger.players, teamA, teamB, Gain(c, b.ledger.players, teamA, teamB, outcome))
  {
    var players := b.ledger.players;
    assert forall id :: id in teamA || id in teamB ==> id in teamA + teamB;
    AverageIsMean(players, teamA);
    AverageIsMean(players, teamB);
    MeanIsPositive(b, teamA);
    MeanIsPositive(b, teamB);
    PairIsGain(players, c, teamA, teamB, outcome);
    LoadedAre(players, teamA);
    LoadedAre(players, teamB);
  }

  lemma RatesAreScores(players: map<Id, Player>, players': map<Id, Player>, c: Calculator, teamA: seq<Id>,
                       teamB: seq<Id>, outcome: MatchOutcome)
    requires |teamA| == |teamB| == 5 && AllKnown(players, teamA + teamB) && outcome != Unspecified
    requires Rates(players, players', c, teamA, teamB, ScoreA(outcome))
    ensures Scored(players, players', teamA, teamB, Gain(c, players, teamA, teamB, outcome))
  {
    assert forall id :: id in teamA || id in teamB ==> id in teamA + teamB;
    AverageIsMean(players, teamA);
    AverageIsMean(players, teamB);
    PairIsGain(players, c, teamA, teamB, outcome);
  }
}
