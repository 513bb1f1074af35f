/**
  Elo updates (internal/rating/elo/calculator.go) as the rating service applies them
  (internal/player/application/rating_service.go:122-149), over the reals: the population's total
  rating is conserved.  The expected score is an arbitrary function.
*/
module EloRatings {
  import opened Prelude
  import opened RatingLedger

  datatype EloError = InvalidInput | Ledger(error: LedgerError)

  datatype PairResult = PairResult(deltaA: real, deltaB: real)

  type ExpectedScore = (real, real) -> real

  datatype Calculator = Calculator(kFactor: real, expected: ExpectedScore)

  function UpdatePair(c: Calculator, ratingA: real, ratingB: real, scoreA: real): Result<PairResult, EloError> {
    if scoreA != 0.0 && scoreA != 0.5 && scoreA != 1.0 then Err(InvalidInput)
    else if ratingA <= 0.0 || ratingB <= 0.0 then Err(InvalidInput)
    else
      var expectedA := c.expected(ratingA, ratingB);
      var expectedB := 1.0 - expectedA;
      Ok(PairResult(c.kFactor * (scoreA - expectedA), c.kFactor * ((1.0 - scoreA) - expectedB)))
  }

  /** What one side gains the other loses, whatever the expected score. */
  lemma UpdateIsZeroSum(c: Calculator, ratingA: real, ratingB: real, scoreA: real)
    requires UpdatePair(c, ratingA, ratingB, scoreA).Ok?
    ensures UpdatePair(c, ratingA, ratingB, scoreA).value.deltaA + UpdatePair(c, ratingA, ratingB, scoreA).value.deltaB
            == 0.0
  {
    var e := c.expected(ratingA, ratingB);
    assert c.kFactor * (scoreA - e) + c.kFactor * ((1.0 - scoreA) - (1.0 - e)) == c.kFactor * 0.0;
  }

  function TotalRating(team: seq<Player>): real {
    if team == [] then 0.0 else TotalRating(team[..|team| - 1]) + team[|team| - 1].state.rating
  }

  function AverageRating(team: seq<Player>): real
    requires team != []
  {
    TotalRating(team) / |team| as real
  }

  datatype Command = Command(matchId: Id, reason: Id, scoreA: real, createdAt: Time)

  function TeamChanges(command: Command, team: seq<Player>, delta: real): Result<seq<Change>, EloError> {
    if team == [] then Ok([])
    else
      match TeamChanges(command, team[..|team| - 1], delta)
      case Err(e) => Err(e)
      case Ok(changes) =>
        var p := team[|team| - 1];
        match NewRatingChange(p.id, command.matchId, p.state, p.state.(rating := p.state.rating + delta), Elo,
                              command.reason, command.createdAt)
        case Err(e) => Err(EloError.Ledger(e))
        case Ok(change) => Ok(changes + [change])
  }

  function EloChanges(c: Calculator, command: Command, teamA: seq<Player>, teamB: seq<Player>)
    : Result<seq<Change>, EloError>
    requires teamA != [] && teamB != []
  {
    match UpdatePair(c, AverageRating(teamA), AverageRating(teamB), command.scoreA)
    case Err(e) => Err(e)
    case Ok(pair) =>
      match TeamChanges(command, teamA, pair.deltaA)
      case Err(e) => Err(e)
      case Ok(first) =>
        match TeamChanges(command, teamB, pair.deltaB)
        case Err(e) => Err(e)
        case Ok(second) => Ok(first + second)
  }

  function SumOfDeltas(changes: seq<Change>): real {
    if changes == [] then 0.0
    else
      var last := changes[|changes| - 1];
      SumOfDeltas(changes[..|changes| - 1]) + (last.after.rating - last.before.rating)
  }

  lemma {:induction false} SumOfConcat(a: seq<Change>, b: seq<Change>)
    ensures SumOfDeltas(a + b) == SumOfDeltas(a) + SumOfDeltas(b)
  {
    if b == [] {
      assert a + b == a;
    } else {
      assert (a + b)[..|a + b| - 1] == a + b[..|b| - 1];
      SumOfConcat(a, b[..|b| - 1]);
    }
  }

  lemma {:induction false} TeamSum(command: Command, team: seq<Player>, delta: real)
    requires TeamChanges(command, team, delta).Ok?
    ensures SumOfDeltas(TeamChanges(command, team, delta).value) == Repeated(|team|, delta)
    ensures AllValid(TeamChanges(command, team, delta).value)
  {
    if team != [] {
      var n := |team| - 1;
      TeamSum(command, team[..n], delta);
      var init, all := TeamChanges(command, team[..n], delta).value, TeamChanges(command, team, delta).value;
      LastChange(command, team, delta);
      OneMoreChange(init, all[|all| - 1], all);
    }
  }

  // The sum of n equal terms.
  function Repeated(n: nat, term: real): real {
    if n == 0 then 0.0 else Repeated(n - 1, term) + term
  }

  lemma {:induction false} RepeatedCancel(n: nat, a: real, b: real)
    requires a + b == 0.0
    ensures Repeated(n, a) + Repeated(n, b) == 0.0
  {
    if n > 0 {
      RepeatedCancel(n - 1, a, b);
    }
  }

  lemma LastChange(command: Command, team: seq<Player>, delta: real)
    requires team != [] && TeamChanges(command, team, delta).Ok?
    ensures TeamChanges(command, team[..|team| - 1], delta).Ok?
    ensures var all := TeamChanges(command, team, delta).value;
            && all != [] && all == TeamChanges(command, team[..|team| - 1], delta).value + [all[|all| - 1]]
            && ValidChange(all[|all| - 1]) && all[|all| - 1].after.rating - all[|all| - 1].before.rating == delta
  {
  }

  lemma OneMoreChange(init: seq<Change>, c: Change, all: seq<Change>)
    requires all == init + [c] && AllValid(init) && ValidChange(c)
    ensures SumOfDeltas(all) == SumOfDeltas(init) + (c.after.rating - c.before.rating) && AllValid(all)
  {
    assert all[..|all| - 1] == init;
  }

  /** Teams of the same size: the changes of a match add up to nothing. */
  lemma EloChangesCancel(c: Calculator, command: Command, teamA: seq<Player>, teamB: seq<Player>)
    requires |teamA| == |teamB| > 0 && EloChanges(c, command, teamA, teamB).Ok?
    ensures SumOfDeltas(EloChanges(c, command, teamA, teamB).value) == 0.0
    ensures AllValid(EloChanges(c, command, teamA, teamB).value)
  {
    var pair := UpdatePair(c, AverageRating(teamA), AverageRating(teamB), command.scoreA).value;
    UpdateIsZeroSum(c, AverageRating(teamA), AverageRating(teamB), command.scoreA);
    TeamSum(command, teamA, pair.deltaA);
    TeamSum(command, teamB, pair.deltaB);
    SumOfConcat(TeamChanges(command, teamA, pair.deltaA).value, TeamChanges(command, teamB, pair.deltaB).value);
    RepeatedCancel(|teamA|, pair.deltaA, pair.deltaB);
  }

  /* The population */

  ghost function Sum(m: map<Id, real>): real {
    if m == map[] then 0.0
    else
      assert m.Keys != {};
      var k :| k in m;
      m[k] + Sum(m - {k})
  }

  lemma {:induction false} SumWithout(m: map<Id, real>, k: Id)
    requires k in m
    ensures Sum(m) == m[k] + Sum(m - {k})
    decreases |m|
  {
    assert m.Keys != {} && m != map[];
    var first :| first in m && Sum(m) == m[first] + Sum(m - {first});
    if first != k {
      SumWithout(m - {first}, k);
      SumWithout(m - {k}, first);
      assert m - {first} - {k} == m - {k} - {first};
    }
  }

  lemma SumSet(m: map<Id, real>, k: Id, v: real)
    ensures Sum(m[k := v]) == Sum(m - {k}) + v
    ensures Sum(m[k := v]) == Sum(m) + v - if k in m then m[k] else 0.0
  {
    SumWithout(m[k := v], k);
    assert m[k := v] - {k} == m - {k};
    if k in m {
      SumWithout(m, k);
    } else {
      assert m - {k} == m;
    }
  }

  function RatingsOf(players: map<Id, Player>): map<Id, real> {
    map p | p in players :: players[p].state.rating
  }

  function OpeningRatings(opening: map<Id, RatingState>): map<Id, real> {
    map p | p in opening :: opening[p].rating
  }

  lemma {:induction false} ReratedSum(players: map<Id, Player>, full: seq<Change>)
    requires DistinctPlayers(full)
    requires forall i :: 0 <= i < |full| ==>
               full[i].player in players && full[i].before == players[full[i].player].state
    ensures Sum(RatingsOf(Rerated(players, full))) == Sum(RatingsOf(players)) + SumOfDeltas(full)
  {
    if full != [] {
      var n := |full| - 1;
      var before, c := Rerated(players, full[..n]), full[n];
      ReratedSum(players, full[..n]);
      ReratedAt(players, full[..n], c.player);
      SumSet(RatingsOf(before), c.player, c.after.rating);
      assert RatingsOf(Rerated(players, full)) == RatingsOf(before)[c.player := c.after.rating];
    }
  }

  lemma {:induction false} CompleteSum(l: Ledger, m: Id, changes: seq<Change>, n: nat)
    requires n <= |changes| && FirstProblem(l, m, changes, |changes|) == None
    ensures SumOfDeltas(Complete(l, changes)[..n]) == SumOfDeltas(changes[..n])
  {
    if n > 0 {
      NoProblem(l, m, changes, |changes|);
      CompleteSum(l, m, changes, n - 1);
      assert Problem(l, m, changes, n - 1) == None;
      assert Complete(l, changes)[..n][..n - 1] == Complete(l, changes)[..n - 1];
      assert changes[..n][..n - 1] == changes[..n - 1];
    }
  }

  /** Whatever was read of the players, and however stale it was, the match moves rating around but adds none. */
  lemma ApplyConserves(b: Book, c: Calculator, command: Command, teamA: seq<Player>, teamB: seq<Player>)
    requires Consistent(b) && |teamA| == |teamB| > 0 && EloChanges(c, command, teamA, teamB).Ok?
    ensures Sum(RatingsOf(Apply(b.ledger, command.matchId, EloChanges(c, command, teamA, teamB).value).0.players))
         == Sum(RatingsOf(b.ledger.players))
  {
    var l, m, changes := b.ledger, command.matchId, EloChanges(c, command, teamA, teamB).value;
    EloChangesCancel(c, command, teamA, teamB);
    if m != NO_ID && changes != [] && m !in l.rated && FirstProblem(l, m, changes, |changes|) == None {
      forall p | p in l.players ensures ValidState(l.players[p].state) { assert PlayerOk(b, p); }
      var full := Complete(l, changes);
      CompleteIsApplicable(l, m, changes);
      ReratedSum(l.players, full);
      CompleteSum(l, m, changes, |changes|);
      assert full[..|full|] == full && changes[..|changes|] == changes;
    }
  }

  /* Whole runs of Elo matches */

  datatype EloEvent =
    | NewPlayer(player: Player)
    | Touched(id: Id, banned: bool, latency: map<Id, int>)
    // A match is rated from what was read of its players at some earlier time.
    | Rated(command: Command, teamA: seq<Player>, teamB: seq<Player>)

  ghost predicate WellFormedElo(e: EloEvent) {
    match e
    case NewPlayer(p) => ValidState(p.state)
    case Rated(_, teamA, teamB) => |teamA| == |teamB| > 0
    case _ => true
  }

  function EloStep(c: Calculator, b: Book, e: EloEvent): Book {
    match e
    case NewPlayer(p) => Step(b, CreatePlayer(p))
    case Touched(p, banned, latency) => Step(b, TouchPlayer(p, banned, latency))
    case Rated(command, teamA, teamB) =>
      if teamA == [] || teamB == [] then b
      else
        match EloChanges(c, command, teamA, teamB)
        case Err(_) => b
        case Ok(changes) => Step(b, ApplyChanges(command.matchId, changes))
  }

  function EloRun(c: Calculator, events: seq<EloEvent>): Book {
    if events == [] then EMPTY else EloStep(c, EloRun(c, events[..|events| - 1]), events[|events| - 1])
  }

  /**
    In every run of Elo matches, with stale reads, retries and conflicts, the population's rating is what it
    opened with.
  */
  lemma {:induction false} TotalIsConserved(c: Calculator, events: seq<EloEvent>)
    requires forall i :: 0 <= i < |events| ==> WellFormedElo(events[i])
    ensures var b := EloRun(c, events);
            Consistent(b) && Sum(RatingsOf(b.ledger.players)) == Sum(OpeningRatings(b.opening))
  {
    if events == [] {
      EmptyIsConsistent();
      assert RatingsOf(map[]) == OpeningRatings(map[]);
    } else {
      TotalIsConserved(c, events[..|events| - 1]);
      StepConserves(c, EloRun(c, events[..|events| - 1]), events[|events| - 1]);
    }
  }

  lemma StepConserves(c: Calculator, b: Book, e: EloEvent)
    requires Consistent(b) && WellFormedElo(e) && Sum(RatingsOf(b.ledger.players)) == Sum(OpeningRatings(b.opening))
    ensures Consistent(EloStep(c, b, e))
    ensures Sum(RatingsOf(EloStep(c, b, e).ledger.players)) == Sum(OpeningRatings(EloStep(c, b, e).opening))
  {
    match e
    case NewPlayer(p) =>
      CreateKeeps(b, p);
      if p.id !in b.ledger.players {
        CreateConserves(b, p);
      }
    case Touched(p, banned, latency) =>
      TouchKeeps(b, p, banned, latency);
      assert RatingsOf(Touch(b.ledger, p, banned, latency).0.players) == RatingsOf(b.ledger.players);
    case Rated(command, teamA, teamB) =>
      if EloChanges(c, command, teamA, teamB).Ok? {
        EloChangesCancel(c, command, teamA, teamB);
        ApplyKeeps(b, command.matchId, EloChanges(c, command, teamA, teamB).value);
        ApplyConserves(b, c, command, teamA, teamB);
      }
  }

  lemma CreateConserves(b: Book, p: Player)
    requires Consistent(b) && p.id !in b.ledger.players
    ensures Sum(RatingsOf(b.ledger.players[p.id := p])) - Sum(RatingsOf(b.ledger.players))
         == Sum(OpeningRatings(b.opening[p.id := p.state])) - Sum(OpeningRatings(b.opening))
  {
    assert PlayerOk(b, p.id);
    SumSet(RatingsOf(b.ledger.players), p.id, p.state.rating);
    SumSet(OpeningRatings(b.opening), p.id, p.state.rating);
    OneMoreRating(b.ledger.players, p);
    OneMoreOpening(b.opening, p.id, p.state);
  }

  lemma OneMoreRating(players: map<Id, Player>, p: Player)
    ensures RatingsOf(players[p.id := p]) == RatingsOf(players)[p.id := p.state.rating]
  {
  }

  lemma OneMoreOpening(opening: map<Id, RatingState>, p: Id, state: RatingState)
    ensures OpeningRatings(opening[p := state]) == OpeningRatings(opening)[p := state.rating]
  {
  }
}
