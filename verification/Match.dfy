/**
  The match aggregate (internal/matchmaking/domain/match.go): its lifecycle, what NewMatch
  accepts, and the round trip through a snapshot.

  The match store hands out clones, so a match is a value and a transition returns the updated
  match or an error.
*/
module Matches {
  import opened Prelude
  import Tickets
  import Heroes

  datatype MatchState = Created | Allocating | Ready | Running | Finished | Failed

  datatype MatchError = InvalidMatch | IllegalMatchTransition

  datatype MatchPlayer = MatchPlayer(
    player: Id,
    ticket: Id,
    role: Tickets.Role,
    rating: real,
    hero: Id,
    proficiency: real,
    behavior: real)

  datatype MatchTeam = MatchTeam(id: Id, players: seq<MatchPlayer>)

  datatype MatchQuality = MatchQuality(total: real, predictedWinA: real, predictedWinB: real)

  datatype WinningTeam = A | B | Neither

  datatype MatchResult = MatchResult(
    winner: WinningTeam,
    duration: int,
    scoreA: int,
    scoreB: int,
    maxAdvantage: real,
    quality: real)

  datatype Match = Match(
    id: Id,
    mode: Id,
    teamA: MatchTeam,
    teamB: MatchTeam,
    state: MatchState,
    region: Id,
    address: Id,
    token: Id,
    policyVersion: Id,
    quality: MatchQuality,
    result: Option<MatchResult>,
    revision: int,
    createdAt: Time,
    updatedAt: Time)
  {
    function Players(): seq<MatchPlayer> {
      teamA.players + teamB.players
    }

    function Moved(to: MatchState, now: Time): Match {
      this.(state := to, revision := revision + 1, updatedAt := now)
    }

    function Transition(from: MatchState, to: MatchState, now: Time): Result<Match, MatchError> {
      if state != from then Err(IllegalMatchTransition) else Ok(Moved(to, now))
    }

    function StartAllocation(now: Time): Result<Match, MatchError> {
      Transition(Created, Allocating, now)
    }

    function MarkReady(server: Id, secret: Id, now: Time): Result<Match, MatchError> {
      if state != Allocating then Err(IllegalMatchTransition)
      else if server == NO_ID || secret == NO_ID then Err(InvalidMatch)
      else Ok(this.(address := server, token := secret).Moved(Ready, now))
    }

    function Start(now: Time): Result<Match, MatchError> {
      Transition(Ready, Running, now)
    }

    function Complete(outcome: MatchResult, now: Time): Result<Match, MatchError> {
      if state == Finished then Ok(this)
      else if state != Running then Err(IllegalMatchTransition)
      else if !ValidResult(outcome) then Err(InvalidMatch)
      else Ok(this.(result := Some(outcome)).Moved(Finished, now))
    }

    function Fail(now: Time): Result<Match, MatchError> {
      if state in {Created, Allocating, Ready, Running} then Ok(Moved(Failed, now)) else Err(IllegalMatchTransition)
    }
  }

  predicate ScoreInRange(score: real) {
    0.0 <= score <= 100.0
  }

  predicate Probability(value: real) {
    0.0 <= value <= 1.0
  }

  predicate ValidResult(r: MatchResult) {
    && r.winner != Neither && r.duration >= 0 && r.scoreA >= 0 && r.scoreB >= 0 && r.scoreA != r.scoreB
    && r.maxAdvantage >= 0.0 && ScoreInRange(r.quality)
  }

  predicate ValidPlayer(p: MatchPlayer) {
    && p.player != NO_ID && p.ticket != NO_ID && p.rating > 0.0
    && ScoreInRange(p.proficiency) && ScoreInRange(p.behavior) && ValidHero(p)
  }

  // Matches from before the heroes have none, and no proficiency.
  predicate ValidHero(p: MatchPlayer) {
    if p.hero == NO_ID then p.proficiency == 0.0 else Heroes.PlaysRole(p.hero, p.role)
  }

  // Five against five, with ten different players on ten different tickets.
  predicate ValidTeams(a: MatchTeam, b: MatchTeam) {
    && a.id != NO_ID && b.id != NO_ID && |a.players| == 5 && |b.players| == 5
    && var all := a.players + b.players;
       && (forall i :: 0 <= i < |all| ==> ValidPlayer(all[i]))
       && (forall i, j :: 0 <= i < j < |all| ==> all[i].player != all[j].player && all[i].ticket != all[j].ticket)
  }

  /** validateMatchTeams: one pass with two sets of what has been seen, accepting exactly the valid teams. */
  method ValidateMatchTeams(a: MatchTeam, b: MatchTeam) returns (ok: bool)
    ensures ok <==> ValidTeams(a, b)
  {
    if a.id == NO_ID || b.id == NO_ID || |a.players| != 5 || |b.players| != 5 {
      return false;
    }
    var all := a.players + b.players;
    var seenPlayers: set<Id> := {};
    var seenTickets: set<Id> := {};
    for i := 0 to |all|
      invariant forall k :: 0 <= k < i ==> ValidPlayer(all[k])
      invariant forall j, k :: 0 <= j < k < i ==> all[j].player != all[k].player && all[j].ticket != all[k].ticket
      invariant seenPlayers == set k | 0 <= k < i :: all[k].player
      invariant seenTickets == set k | 0 <= k < i :: all[k].ticket
    {
      if !ValidPlayer(all[i]) || all[i].player in seenPlayers || all[i].ticket in seenTickets {
        return false;
      }
      seenPlayers, seenTickets := seenPlayers + {all[i].player}, seenTickets + {all[i].ticket};
    }
    return true;
  }

  function NewMatch(id: Id, mode: Id, a: MatchTeam, b: MatchTeam, region: Id, policyVersion: Id, quality: MatchQuality,
                    createdAt: Time)
    : Result<Match, MatchError>
  {
    if id == NO_ID || mode == NO_ID || region == NO_ID || policyVersion == NO_ID || createdAt == ZERO_TIME
      then Err(InvalidMatch)
    else if !ValidTeams(a, b) then Err(InvalidMatch)
    else if !ScoreInRange(quality.total) || !Probability(quality.predictedWinA)
      || !Probability(quality.predictedWinB) then
      Err(InvalidMatch)
    else
      Ok(Match(id, mode, a, b, Created, region, NO_ID, NO_ID, policyVersion, quality, None, 1, createdAt, createdAt))
  }

  // A snapshot has the same fields as the aggregate, but nothing vouches for their values.
  type MatchSnapshot = Match

  function Snapshot(m: Match): MatchSnapshot {
    m
  }

  predicate ValidRestoredState(s: MatchSnapshot) {
    var hasAddress, hasToken := s.address != NO_ID, s.token != NO_ID;
    && hasAddress == hasToken
    && match s.state
       case Created => !hasAddress && s.result.None?
       case Allocating => !hasAddress && s.result.None?
       case Ready => hasAddress && s.result.None?
       case Running => hasAddress && s.result.None?
       case Finished => hasAddress && s.result.Some? && ValidResult(s.result.value)
       case Failed => s.result.None?
  }

  function RestoreMatch(s: MatchSnapshot): Result<Match, MatchError> {
    match NewMatch(s.id, s.mode, s.teamA, s.teamB, s.region, s.policyVersion, s.quality, s.createdAt)
    case Err(_) => Err(InvalidMatch)
    case Ok(m) =>
      if s.revision < 1 || s.updatedAt == ZERO_TIME || s.updatedAt < s.createdAt then Err(InvalidMatch)
      else if !ValidRestoredState(s) then Err(InvalidMatch)
      else Ok(m.(state := s.state, address := s.address, token := s.token, result := s.result,
                 revision := s.revision, updatedAt := s.updatedAt))
  }

  /* The lifecycle */

  datatype MatchEvent =
    | StartAllocationAt(now: Time)
    | MarkReadyAt(server: Id, secret: Id, now: Time)
    | StartAt(now: Time)
    | CompleteAt(outcome: MatchResult, now: Time)
    | FailAt(now: Time)

  function Apply(m: Match, e: MatchEvent): Result<Match, MatchError> {
    match e
    case StartAllocationAt(now) => m.StartAllocation(now)
    case MarkReadyAt(server, secret, now) => m.MarkReady(server, secret, now)
    case StartAt(now) => m.Start(now)
    case CompleteAt(outcome, now) => m.Complete(outcome, now)
    case FailAt(now) => m.Fail(now)
  }

  // The match after the events; one that is refused leaves it as it is.
  function Live(m: Match, events: seq<MatchEvent>): Match {
    if events == [] then m
    else
      var before := Live(m, events[..|events| - 1]);
      match Apply(before, events[|events| - 1])
      case Ok(after) => after
      case Err(_) => before
  }

  // The clock never goes back, and never shows the zero time.
  ghost predicate ClockFrom(start: Time, events: seq<MatchEvent>) {
    && (forall i :: 0 <= i < |events| ==> start <= events[i].now && events[i].now != ZERO_TIME)
    && (forall i, j :: 0 <= i < j < |events| ==> events[i].now <= events[j].now)
  }

  predicate Edge(from: MatchState, to: MatchState) {
    || (from == Created && to == Allocating)
    || (from == Allocating && to == Ready)
    || (from == Ready && to == Running)
    || (from == Running && to == Finished)
    || (to == Failed && from in {Created, Allocating, Ready, Running})
  }

  // One legal transition: the next revision, along an edge, with everything else kept except the
  // server on becoming ready and the result on finishing.
  ghost predicate Follows(a: Match, b: Match) {
    && b == a.(state := b.state, revision := a.revision + 1, updatedAt := b.updatedAt,
               address := b.address, token := b.token, result := b.result)
    && Edge(a.state, b.state)
    && (b.state != Ready ==> b.address == a.address && b.token == a.token)
    && (b.state == Ready ==> b.address != NO_ID && b.token != NO_ID)
    && (b.state != Finished ==> b.result == a.result)
    && (b.state == Finished ==> b.result.Some? && ValidResult(b.result.value))
  }

  /** Every operation takes one legal transition or does nothing. */
  lemma ApplyFollows(m: Match, e: MatchEvent)
    ensures Apply(m, e).Ok? ==>
              Follows(m, Apply(m, e).value)
              || (m.state == Finished && e.CompleteAt? && Apply(m, e).value == m)
  {
  }

  function Target(e: MatchEvent): MatchState {
    match e
    case StartAllocationAt(_) => Allocating
    case MarkReadyAt(_, _, _) => Ready
    case StartAt(_) => Running
    case CompleteAt(_, _) => Finished
    case FailAt(_) => Failed
  }

  // The operation's own argument is one that the aggregate takes.
  predicate Takes(e: MatchEvent) {
    && (e.MarkReadyAt? ==> e.server != NO_ID && e.secret != NO_ID)
    && (e.CompleteAt? ==> ValidResult(e.outcome))
  }

  // The version after an operation: its state, server and result are those that the operation brings.
  function Reached(m: Match, e: MatchEvent): Match {
    m.(state := Target(e), revision := m.revision + 1, updatedAt := e.now,
       address := if e.MarkReadyAt? then e.server else m.address,
       token := if e.MarkReadyAt? then e.secret else m.token,
       result := if e.CompleteAt? then Some(e.outcome) else m.result)
  }

  /**
    An operation is accepted iff the lifecycle leads from the match's state to the operation's and the
    argument is valid; completing a finished match again is accepted and changes nothing.
  */
  lemma ApplyExactly(m: Match, e: MatchEvent)
    ensures var again := m.state == Finished && e.CompleteAt?;
            && (Apply(m, e).Ok? <==> again || (Edge(m.state, Target(e)) && Takes(e)))
            && (Apply(m, e).Ok? ==> Apply(m, e).value == if again then m else Reached(m, e))
  {
    match e
    case StartAllocationAt(_) =>
    case MarkReadyAt(_, _, _) =>
    case StartAt(_) =>
    case CompleteAt(_, _) =>
    case FailAt(_) =>
  }

  // What NewMatch demands of the fields that never change, and the cross-field rules of the rest.
  ghost predicate Sound(m: Match) {
    && NewMatch(m.id, m.mode, m.teamA, m.teamB, m.region, m.policyVersion, m.quality, m.createdAt).Ok?
    && m.revision >= 1 && ValidRestoredState(m)
  }

  lemma NewIsSound(id: Id, mode: Id, a: MatchTeam, b: MatchTeam, region: Id, policyVersion: Id, quality: MatchQuality,
                   createdAt: Time)
    requires NewMatch(id, mode, a, b, region, policyVersion, quality, createdAt).Ok?
    ensures Sound(NewMatch(id, mode, a, b, region, policyVersion, quality, createdAt).value)
  {
  }

  lemma FollowsIsSound(a: Match, b: Match)
    requires Sound(a) && Follows(a, b)
    ensures Sound(b)
  {
  }

  lemma {:induction false} LiveIsSound(m: Match, events: seq<MatchEvent>)
    requires Sound(m) && m.updatedAt == m.createdAt && ClockFrom(m.createdAt, events)
    ensures Sound(Live(m, events))
    ensures m.createdAt == Live(m, events).createdAt <= Live(m, events).updatedAt
            && Live(m, events).updatedAt != ZERO_TIME
  {
    if events != [] {
      var init := events[..|events| - 1];
      LiveIsSound(m, init);
      ApplyFollows(Live(m, init), events[|events| - 1]);
      if Follows(Live(m, init), Live(m, events)) {
        FollowsIsSound(Live(m, init), Live(m, events));
      }
    }
  }

  /** Whatever a match has been through, restoring its snapshot gives that match back. */
  lemma RestoreSnapshot(id: Id, mode: Id, a: MatchTeam, b: MatchTeam, region: Id, policyVersion: Id,
                        quality: MatchQuality, createdAt: Time, events: seq<MatchEvent>)
    requires NewMatch(id, mode, a, b, region, policyVersion, quality, createdAt).Ok? && ClockFrom(createdAt, events)
    ensures var m := Live(NewMatch(id, mode, a, b, region, policyVersion, quality, createdAt).value, events);
            RestoreMatch(Snapshot(m)) == Ok(m)
  {
    NewIsSound(id, mode, a, b, region, policyVersion, quality, createdAt);
    LiveIsSound(NewMatch(id, mode, a, b, region, policyVersion, quality, createdAt).value, events);
  }

  /** Conversely a snapshot that is accepted is restored unchanged, and satisfies every rule of the aggregate. */
  lemma RestoreIsFaithful(s: MatchSnapshot)
    ensures RestoreMatch(s).Ok? <==> Sound(s) && s.updatedAt != ZERO_TIME && s.createdAt <= s.updatedAt
    ensures RestoreMatch(s).Ok? ==> RestoreMatch(s).value == s
  {
  }

  /** A result is recorded once: later events never change it. */
  lemma {:induction false} ResultIsFinal(m: Match, events: seq<MatchEvent>)
    requires m.state == Finished
    ensures Live(m, events) == m
  {
    if events != [] {
      ResultIsFinal(m, events[..|events| - 1]);
    }
  }
}
