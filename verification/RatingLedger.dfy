/**
  The rating ledger: rating changes (internal/player/domain/rating_change.go) and what the player
  repository does with them (internal/player/repository/memory/repository.go).

  A rating change goes through for all of its players or for none, a match is rated once, and the
  history of a player leads from the opening state to the current one.
*/
module RatingLedger {
  import opened Prelude

  datatype RatingState = RatingState(rating: real, deviation: real, volatility: real)

  datatype RatingSystem = Elo | Glicko2

  datatype Change = Change(player: Id, matchId: Id, before: RatingState, after: RatingState, system: RatingSystem,
                           reason: Id, createdAt: Time)

  datatype Player = Player(id: Id, state: RatingState, banned: bool, latency: map<Id, int>)

  datatype LedgerError = PlayerAlreadyExists | PlayerNotFound | RatingConflict | InvalidRatingChange | InvalidPlayer

  predicate ValidState(s: RatingState) {
    s.rating > 0.0 && s.deviation > 0.0 && s.volatility > 0.0
  }

  predicate HasUncertainty(before: RatingState, after: RatingState) {
    before.deviation != 0.0 || after.deviation != 0.0 || before.volatility != 0.0 || after.volatility != 0.0
  }

  function NewRatingChange(player: Id, matchId: Id, before: RatingState, after: RatingState, system: RatingSystem,
                           reason: Id, createdAt: Time)
    : Result<Change, LedgerError>
  {
    if player == NO_ID || matchId == NO_ID || reason == NO_ID || createdAt == ZERO_TIME then Err(InvalidRatingChange)
    else if before.rating <= 0.0 || after.rating <= 0.0 then Err(InvalidRatingChange)
    else if HasUncertainty(before, after) && (!ValidState(before) || !ValidState(after)) then Err(InvalidRatingChange)
    else Ok(Change(player, matchId, before, after, system, reason, createdAt))
  }

  predicate ValidChange(c: Change) {
    NewRatingChange(c.player, c.matchId, c.before, c.after, c.system, c.reason, c.createdAt).Ok?
  }

  datatype Ledger = Ledger(players: map<Id, Player>, history: map<Id, seq<Change>>, rated: map<Id, seq<Change>>)

  function HistoryOf(history: map<Id, seq<Change>>, p: Id): seq<Change> {
    if p in history then history[p] else []
  }

  // A change of the rating alone takes the uncertainty of the player as it is.
  function Completed(l: Ledger, c: Change): Change
    requires c.player in l.players
  {
    if c.before.deviation > 0.0 then c
    else
      var state := l.players[c.player].state;
      c.(before := state, after := state.(rating := c.after.rating))
  }

  // The first thing wrong with the i-th change.
  function Problem(l: Ledger, m: Id, changes: seq<Change>, i: nat): Option<LedgerError>
    requires i < |changes|
  {
    var c := changes[i];
    if c.matchId != m then Some(RatingConflict)
    else if exists j :: 0 <= j < i && changes[j].player == c.player then Some(RatingConflict)
    else if c.player !in l.players then Some(PlayerNotFound)
    else
      var state := l.players[c.player].state;
      if state.rating != c.before.rating then Some(RatingConflict)
      else if c.before.deviation <= 0.0 then None
      else if state.deviation != c.before.deviation || state.volatility != c.before.volatility then Some(RatingConflict)
      else None
  }

  function FirstProblem(l: Ledger, m: Id, changes: seq<Change>, n: nat): Option<LedgerError>
    requires n <= |changes|
  {
    if n == 0 then None
    else if FirstProblem(l, m, changes, n - 1).Some? then FirstProblem(l, m, changes, n - 1)
    else Problem(l, m, changes, n - 1)
  }

  function Complete(l: Ledger, changes: seq<Change>): (r: seq<Change>)
    ensures |r| == |changes|
  {
    seq(|changes|, i requires 0 <= i < |changes| => if changes[i].player in l.players then Completed(l, changes[i])
        else changes[i])
  }

  function Rerated(players: map<Id, Player>, changes: seq<Change>): map<Id, Player> {
    if changes == [] then players
    else
      var before, c := Rerated(players, changes[..|changes| - 1]), changes[|changes| - 1];
      if c.player in players then before[c.player := players[c.player].(state := c.after)] else before
  }

  function Logged(history: map<Id, seq<Change>>, changes: seq<Change>): map<Id, seq<Change>> {
    if changes == [] then history
    else
      var before, c := Logged(history, changes[..|changes| - 1]), changes[|changes| - 1];
      before[c.player := HistoryOf(before, c.player) + [c]]
  }

  function Apply(l: Ledger, m: Id, changes: seq<Change>): (Ledger, Result<seq<Change>, LedgerError>) {
    if m == NO_ID || changes == [] then (l, Err(RatingConflict))
    else if m in l.rated then (l, Ok(l.rated[m]))
    else if FirstProblem(l, m, changes, |changes|).Some? then (l, Err(FirstProblem(l, m, changes, |changes|).value))
    else
      var full := Complete(l, changes);
      (Ledger(Rerated(l.players, full), Logged(l.history, full), l.rated[m := full]), Ok(full))
  }

  function Create(l: Ledger, p: Player): (Ledger, Result<(), LedgerError>) {
    if p.id in l.players then (l, Err(PlayerAlreadyExists)) else (l.(players := l.players[p.id := p]), Ok(()))
  }

  // Ban and latency updates keep the rating.
  function Touch(l: Ledger, p: Id, banned: bool, latency: map<Id, int>): (Ledger, Result<(), LedgerError>) {
    if p !in l.players then (l, Err(PlayerNotFound))
    else (l.(players := l.players[p := l.players[p].(banned := banned, latency := latency)]), Ok(()))
  }

  /* The invariant; opening is the state each player was created with */

  datatype Book = Book(ledger: Ledger, opening: map<Id, RatingState>)

  // The changes lead from one state to the other.
  ghost predicate Leads(h: seq<Change>, from: RatingState, to: RatingState) {
    if h == [] then from == to
    else Leads(h[..|h| - 1], from, h[|h| - 1].before) && h[|h| - 1].after == to
  }

  ghost predicate DistinctMatches(h: seq<Change>) {
    forall i, j :: 0 <= i < j < |h| ==> h[i].matchId != h[j].matchId
  }

  ghost predicate DistinctPlayers(changes: seq<Change>) {
    forall i, j :: 0 <= i < j < |changes| ==> changes[i].player != changes[j].player
  }

  ghost predicate PlayerOk(b: Book, p: Id) {
    var l := b.ledger;
    && (p in l.players <==> p in b.opening)
    && (p in l.players ==>
         l.players[p].id == p && ValidState(l.players[p].state)
         && Leads(HistoryOf(l.history, p), b.opening[p], l.players[p].state))
    && (p !in l.players ==> HistoryOf(l.history, p) == [])
    && DistinctMatches(HistoryOf(l.history, p))
  }

  // The player's history and the match's record hold the same changes.
  ghost predicate RecordOk(b: Book, c: Change) {
    c in HistoryOf(b.ledger.history, c.player) <==> c.matchId in b.ledger.rated && c in b.ledger.rated[c.matchId]
  }

  ghost predicate MatchOk(b: Book, m: Id) {
    m in b.ledger.rated ==>
      && b.ledger.rated[m] != [] && DistinctPlayers(b.ledger.rated[m])
      && forall i {:trigger b.ledger.rated[m][i]} :: 0 <= i < |b.ledger.rated[m]| ==> b.ledger.rated[m][i].matchId == m
  }

  // Every change in a history belongs to that player.
  ghost predicate OwnOk(b: Book, p: Id) {
    forall i {:trigger HistoryOf(b.ledger.history, p)[i]} :: 0 <= i < |HistoryOf(b.ledger.history, p)| ==>
      HistoryOf(b.ledger.history, p)[i].player == p && HistoryOf(b.ledger.history, p)[i].matchId in b.ledger.rated
  }

  ghost predicate Consistent(b: Book) {
    && (forall p {:trigger PlayerOk(b, p)} :: PlayerOk(b, p))
    && (forall c {:trigger RecordOk(b, c)} :: RecordOk(b, c))
    && (forall m {:trigger MatchOk(b, m)} :: MatchOk(b, m))
    && (forall p {:trigger OwnOk(b, p)} :: OwnOk(b, p))
  }

  const EMPTY := Book(Ledger(map[], map[], map[]), map[])

  lemma EmptyIsConsistent()
    ensures Consistent(EMPTY)
  {
  }

  /* What applying changes does to one player */

  lemma {:induction false} ReratedAt(players: map<Id, Player>, changes: seq<Change>, p: Id)
    requires DistinctPlayers(changes) && forall i :: 0 <= i < |changes| ==> changes[i].player in players
    ensures Rerated(players, changes).Keys == players.Keys
    ensures (forall i :: 0 <= i < |changes| ==> changes[i].player != p) && p in players ==>
              Rerated(players, changes)[p] == players[p]
    ensures forall i :: 0 <= i < |changes| && changes[i].player == p ==>
              Rerated(players, changes)[p] == players[p].(state := changes[i].after)
  {
    if changes != [] {
      ReratedAt(players, changes[..|changes| - 1], p);
    }
  }

  lemma {:induction false} LoggedAt(history: map<Id, seq<Change>>, changes: seq<Change>, p: Id)
    requires DistinctPlayers(changes)
    ensures (forall i :: 0 <= i < |changes| ==> changes[i].player != p) ==>
              HistoryOf(Logged(history, changes), p) == HistoryOf(history, p)
    ensures forall i :: 0 <= i < |changes| && changes[i].player == p ==>
              HistoryOf(Logged(history, changes), p) == HistoryOf(history, p) + [changes[i]]
  {
    if changes != [] {
      LoggedAt(history, changes[..|changes| - 1], p);
    }
  }

  lemma {:induction false} NoProblem(l: Ledger, m: Id, changes: seq<Change>, n: nat)
    requires n <= |changes|
    ensures FirstProblem(l, m, changes, n) == None <==> forall i :: 0 <= i < n ==> Problem(l, m, changes, i) == None
  {
    if n > 0 {
      NoProblem(l, m, changes, n - 1);
    }
  }

  // Accepted changes, completed: of this match, of different players, from each player's current state.
  ghost predicate Applicable(l: Ledger, m: Id, changes: seq<Change>) {
    && changes != [] && DistinctPlayers(changes)
    && forall i {:trigger changes[i]} :: 0 <= i < |changes| ==>
         && changes[i].matchId == m && changes[i].player in l.players
         && changes[i].before == l.players[changes[i].player].state && ValidState(changes[i].after)
  }

  ghost predicate AllValid(changes: seq<Change>) {
    forall i {:trigger changes[i]} :: 0 <= i < |changes| ==> ValidChange(changes[i])
  }

  lemma CompleteIsApplicable(l: Ledger, m: Id, changes: seq<Change>)
    requires changes != [] && AllValid(changes) && FirstProblem(l, m, changes, |changes|) == None
    requires forall p :: p in l.players ==> ValidState(l.players[p].state)
    ensures Applicable(l, m, Complete(l, changes))
  {
    NoProblem(l, m, changes, |changes|);
    var full := Complete(l, changes);
    forall i {:trigger full[i]} | 0 <= i < |full|
      ensures full[i].matchId == m && full[i].player in l.players && full[i].player == changes[i].player
      ensures full[i].before == l.players[full[i].player].state && ValidState(full[i].after)
    {
      assert Problem(l, m, changes, i) == None;
    }
    forall i, j | 0 <= i < j < |full| ensures full[i].player != full[j].player {
      assert Problem(l, m, changes, j) == None;
    }
  }

  ghost predicate Commits(l: Ledger, l': Ledger, m: Id, full: seq<Change>) {
    l' == Ledger(Rerated(l.players, full), Logged(l.history, full), l.rated[m := full])
  }

  lemma ApplyKeeps(b: Book, m: Id, changes: seq<Change>)
    requires Consistent(b) && AllValid(changes)
    ensures Consistent(b.(ledger := Apply(b.ledger, m, changes).0))
  {
    var l := b.ledger;
    if m != NO_ID && changes != [] && m !in l.rated && FirstProblem(l, m, changes, |changes|) == None {
      forall p | p in l.players ensures ValidState(l.players[p].state) { assert PlayerOk(b, p); }
      CompleteIsApplicable(l, m, changes);
      CommitKeeps(b, b.(ledger := Apply(l, m, changes).0), m, Complete(l, changes));
    }
  }

  lemma CommitKeeps(b: Book, b': Book, m: Id, full: seq<Change>)
    requires Consistent(b) && m !in b.ledger.rated && Applicable(b.ledger, m, full)
    requires b'.opening == b.opening && Commits(b.ledger, b'.ledger, m, full)
    ensures Consistent(b')
  {
    forall p ensures PlayerOk(b', p) && OwnOk(b', p) { CommitPlayer(b, b', m, full, p); }
    forall c ensures RecordOk(b', c) { CommitRecord(b, b', m, full, c); }
    forall k ensures MatchOk(b', k) { assert MatchOk(b, k); }
  }

  lemma CommitPlayer(b: Book, b': Book, m: Id, full: seq<Change>, p: Id)
    requires Consistent(b) && m !in b.ledger.rated && Applicable(b.ledger, m, full)
    requires b'.opening == b.opening && Commits(b.ledger, b'.ledger, m, full)
    ensures PlayerOk(b', p) && OwnOk(b', p)
  {
    assert PlayerOk(b, p) && OwnOk(b, p);
    ReratedAt(b.ledger.players, full, p);
    LoggedAt(b.ledger.history, full, p);
    if i :| 0 <= i < |full| && full[i].player == p {
      OneMoreChange(b, b', m, full[i]);
    }
  }

  lemma OneMoreChange(b: Book, b': Book, m: Id, c: Change)
    requires PlayerOk(b, c.player) && OwnOk(b, c.player) && m !in b.ledger.rated && c.matchId == m
             && b'.opening == b.opening
    requires c.player in b.ledger.players && c.before == b.ledger.players[c.player].state && ValidState(c.after)
    requires c.player in b'.ledger.players && b'.ledger.players[c.player]
             == b.ledger.players[c.player].(state := c.after)
    requires HistoryOf(b'.ledger.history, c.player) == HistoryOf(b.ledger.history, c.player) + [c]
    requires m in b'.ledger.rated && forall k :: k in b.ledger.rated ==> k in b'.ledger.rated
    ensures PlayerOk(b', c.player) && OwnOk(b', c.player)
  {
    var h := HistoryOf(b.ledger.history, c.player);
    forall x | x in h ensures x.player == c.player && x.matchId in b.ledger.rated {
      var j :| 0 <= j < |h| && h[j] == x;
      assert HistoryOf(b.ledger.history, c.player)[j].player == c.player;
    }
    LeadsOneMore(h, c, b.opening[c.player]);
    NewMatchIsDistinct(h, c);
    OwnOneMore(h, c, b'.ledger.rated.Keys);
  }

  lemma LeadsOneMore(h: seq<Change>, c: Change, from: RatingState)
    requires Leads(h, from, c.before)
    ensures Leads(h + [c], from, c.after)
  {
    assert (h + [c])[..|h|] == h;
  }

  lemma NewMatchIsDistinct(h: seq<Change>, c: Change)
    requires DistinctMatches(h) && forall x :: x in h ==> x.matchId != c.matchId
    ensures DistinctMatches(h + [c])
  {
  }

  lemma OwnOneMore(h: seq<Change>, c: Change, rated: set<Id>)
    requires c.matchId in rated && forall x :: x in h ==> x.player == c.player && x.matchId in rated
    ensures forall i :: 0 <= i < |h + [c]| ==> (h + [c])[i].player == c.player && (h + [c])[i].matchId in rated
  {
  }

  lemma CommitRecord(b: Book, b': Book, m: Id, full: seq<Change>, c: Change)
    requires Consistent(b) && m !in b.ledger.rated && Applicable(b.ledger, m, full)
    requires Commits(b.ledger, b'.ledger, m, full)
    ensures RecordOk(b', c)
  {
    assert RecordOk(b, c) && MatchOk(b, c.matchId);
    LoggedAt(b.ledger.history, full, c.player);
    var h := HistoryOf(b.ledger.history, c.player);
    if c in full {
      var i :| 0 <= i < |full| && full[i] == c;
      assert HistoryOf(b'.ledger.history, c.player) == h + [c];
      assert c.matchId == m;
    } else if i :| 0 <= i < |full| && full[i].player == c.player {
      assert HistoryOf(b'.ledger.history, c.player) == h + [full[i]];
      assert c in h + [full[i]] <==> c in h;
    }
  }

  lemma CreateKeeps(b: Book, p: Player)
    requires Consistent(b) && ValidState(p.state)
    ensures Consistent(Book(Create(b.ledger, p).0, if p.id in b.ledger.players then b.opening
                            else b.opening[p.id := p.state]))
  {
    var b' := Book(Create(b.ledger, p).0, if p.id in b.ledger.players then b.opening else b.opening[p.id := p.state]);
    forall q ensures PlayerOk(b', q) && OwnOk(b', q) { assert PlayerOk(b, q) && OwnOk(b, q); }
    forall c ensures RecordOk(b', c) { assert RecordOk(b, c); }
    forall m ensures MatchOk(b', m) { assert MatchOk(b, m); }
  }

  lemma TouchKeeps(b: Book, p: Id, banned: bool, latency: map<Id, int>)
    requires Consistent(b)
    ensures Consistent(b.(ledger := Touch(b.ledger, p, banned, latency).0))
  {
    var b' := b.(ledger := Touch(b.ledger, p, banned, latency).0);
    forall q ensures PlayerOk(b', q) && OwnOk(b', q) { assert PlayerOk(b, q) && OwnOk(b, q); }
    forall c ensures RecordOk(b', c) { assert RecordOk(b, c); }
    forall m ensures MatchOk(b', m) { assert MatchOk(b, m); }
  }

  /* Whole runs */

  datatype Event =
    | CreatePlayer(player: Player)
    | TouchPlayer(id: Id, banned: bool, latency: map<Id, int>)
    | ApplyChanges(matchId: Id, changes: seq<Change>)

  // Players and changes only come into being valid.
  ghost predicate WellFormed(e: Event) {
    match e
    case CreatePlayer(p) => ValidState(p.state)
    case ApplyChanges(_, changes) => AllValid(changes)
    case _ => true
  }

  function Step(b: Book, e: Event): Book {
    match e
    case CreatePlayer(p) => Book(Create(b.ledger, p).0, if p.id in b.ledger.players then b.opening
                                 else b.opening[p.id := p.state])
    case TouchPlayer(p, banned, latency) => b.(ledger := Touch(b.ledger, p, banned, latency).0)
    case ApplyChanges(m, changes) => b.(ledger := Apply(b.ledger, m, changes).0)
  }

  function Run(events: seq<Event>): Book {
    if events == [] then EMPTY else Step(Run(events[..|events| - 1]), events[|events| - 1])
  }

  lemma {:induction false} RunIsConsistent(events: seq<Event>)
    requires forall i :: 0 <= i < |events| ==> WellFormed(events[i])
    ensures Consistent(Run(events))
  {
    if events == [] {
      EmptyIsConsistent();
    } else {
      var b, e := Run(events[..|events| - 1]), events[|events| - 1];
      RunIsConsistent(events[..|events| - 1]);
      match e
      case CreatePlayer(p) => CreateKeeps(b, p);
      case TouchPlayer(p, banned, latency) => TouchKeeps(b, p, banned, latency);
      case ApplyChanges(m, changes) => ApplyKeeps(b, m, changes);
    }
  }

  // Replaying a history from a state; a change that does not start where the last one ended is refused.
  function Replay(from: RatingState, h: seq<Change>): Option<RatingState> {
    if h == [] then Some(from)
    else
      match Replay(from, h[..|h| - 1])
      case None => None
      case Some(state) => if state == h[|h| - 1].before then Some(h[|h| - 1].after) else None
  }

  lemma {:induction false} LeadsIsReplay(h: seq<Change>, from: RatingState, to: RatingState)
    ensures Leads(h, from, to) <==> Replay(from, h) == Some(to)
  {
    if h != [] {
      LeadsIsReplay(h[..|h| - 1], from, h[|h| - 1].before);
    }
  }

  /** In every run, replaying a player's history from the opening state gives the current state. */
  lemma HistoryReplays(events: seq<Event>, p: Id)
    requires forall i :: 0 <= i < |events| ==> WellFormed(events[i])
    requires p in Run(events).ledger.players
    ensures var b := Run(events);
            p in b.opening && Replay(b.opening[p], HistoryOf(b.ledger.history, p)) == Some(b.ledger.players[p].state)
  {
    RunIsConsistent(events);
    var b := Run(events);
    assert PlayerOk(b, p);
    LeadsIsReplay(HistoryOf(b.ledger.history, p), b.opening[p], b.ledger.players[p].state);
  }

  /**
    In every run, a match changed each of its players exactly once, and its record and their histories tell
    the same.
  */
  lemma RatedOnce(events: seq<Event>, m: Id, p: Id)
    requires forall i :: 0 <= i < |events| ==> WellFormed(events[i])
    ensures var l := Run(events).ledger;
            && (forall i, j :: 0 <= i < j < |HistoryOf(l.history, p)| ==>
                HistoryOf(l.history, p)[i].matchId != HistoryOf(l.history, p)[j].matchId)
            && (forall c :: c in HistoryOf(l.history, p) && c.matchId == m <==>
                m in l.rated && c in l.rated[m] && c.player == p)
  {
    RunIsConsistent(events);
    var b := Run(events);
    assert PlayerOk(b, p) && OwnOk(b, p) && MatchOk(b, m);
    forall c ensures c in HistoryOf(b.ledger.history, p) && c.matchId == m <==>
        m in b.ledger.rated && c in b.ledger.rated[m] && c.player == p {
      assert RecordOk(b, c);
      if c in HistoryOf(b.ledger.history, p) {
        var i :| 0 <= i < |HistoryOf(b.ledger.history, p)| && HistoryOf(b.ledger.history, p)[i] == c;
        assert HistoryOf(b.ledger.history, p)[i].player == p;
      }
      if m in b.ledger.rated && c in b.ledger.rated[m] {
        var i :| 0 <= i < |b.ledger.rated[m]| && b.ledger.rated[m][i] == c;
        assert b.ledger.rated[m][i].matchId == m;
      }
    }
  }

  /** Applying again, with whatever changes, answers the first result and changes nothing. */
  lemma ApplyIsIdempotent(l: Ledger, m: Id, changes: seq<Change>, again: seq<Change>)
    requires Apply(l, m, changes).1.Ok? && again != []
    ensures Apply(Apply(l, m, changes).0, m, again) == Apply(l, m, changes)
  {
  }

  /* When changes are accepted, and what they change */

  // The change starts from the player's current state; one of the rating alone, from his current rating.
  predicate IsCurrent(l: Ledger, c: Change) {
    && c.player in l.players && c.before.rating == l.players[c.player].state.rating
    && (c.before.deviation > 0.0 ==> c.before == l.players[c.player].state)
  }

  // The change as it is filed: one of the rating alone carries the player's uncertainty over.
  function Filed(l: Ledger, c: Change): Change
    requires c.player in l.players
  {
    var state := l.players[c.player].state;
    if c.before.deviation > 0.0 then c
    else c.(before := state, after := RatingState(c.after.rating, state.deviation, state.volatility))
  }

  ghost predicate Acceptable(l: Ledger, m: Id, changes: seq<Change>) {
    DistinctPlayers(changes) && forall c :: c in changes ==> c.matchId == m && IsCurrent(l, c)
  }

  // Every change is filed under the match and with its player, who is in its final state; nobody else is touched.
  ghost predicate Files(l: Ledger, l': Ledger, m: Id, changes: seq<Change>)
    requires forall c :: c in changes ==> c.player in l.players
  {
    && l'.rated == l.rated[m := seq(|changes|, i requires 0 <= i < |changes| => Filed(l, changes[i]))]
    && l'.players.Keys == l.players.Keys
    && (forall c :: c in changes ==>
         && l'.players[c.player] == l.players[c.player].(state := Filed(l, c).after)
         && HistoryOf(l'.history, c.player) == HistoryOf(l.history, c.player) + [Filed(l, c)])
    && forall p :: (forall c :: c in changes ==> c.player != p) ==>
         && (p in l.players ==> l'.players[p] == l.players[p])
         && HistoryOf(l'.history, p) == HistoryOf(l.history, p)
  }

  lemma FiledIsCompleted(l: Ledger, changes: seq<Change>)
    requires forall c :: c in changes ==> c.player in l.players
    ensures Complete(l, changes) == seq(|changes|, i requires 0 <= i < |changes| => Filed(l, changes[i]))
  {
  }

  lemma ProblemExactly(l: Ledger, m: Id, changes: seq<Change>)
    ensures FirstProblem(l, m, changes, |changes|) == None <==> Acceptable(l, m, changes)
  {
    NoProblem(l, m, changes, |changes|);
    if Acceptable(l, m, changes) {
      forall i | 0 <= i < |changes| ensures Problem(l, m, changes, i) == None {
        assert changes[i] in changes;
      }
    }
    if FirstProblem(l, m, changes, |changes|) == None {
      forall i, j | 0 <= i < j < |changes| ensures changes[i].player != changes[j].player {
        assert Problem(l, m, changes, j) == None;
      }
      forall c | c in changes ensures c.matchId == m && IsCurrent(l, c) {
        var i :| 0 <= i < |changes| && changes[i] == c;
        assert Problem(l, m, changes, i) == None;
      }
    }
  }

  lemma CommitFiles(l: Ledger, m: Id, changes: seq<Change>)
    requires Acceptable(l, m, changes)
    ensures var full := Complete(l, changes);
            Files(l, Ledger(Rerated(l.players, full), Logged(l.history, full), l.rated[m := full]), m, changes)
  {
    FiledIsCompleted(l, changes);
    var full := Complete(l, changes);
    forall i | 0 <= i < |full| ensures full[i].player == changes[i].player && full[i].player in l.players {
      assert changes[i] in changes;
    }
    ReratedAt(l.players, full, NO_ID);
    forall c | c in changes
      ensures Rerated(l.players, full)[c.player] == l.players[c.player].(state := Filed(l, c).after)
      ensures HistoryOf(Logged(l.history, full), c.player) == HistoryOf(l.history, c.player) + [Filed(l, c)]
    {
      var i :| 0 <= i < |changes| && changes[i] == c;
      assert full[i] == Filed(l, c);
      ReratedAt(l.players, full, c.player);
      LoggedAt(l.history, full, c.player);
    }
    forall p | forall c :: c in changes ==> c.player != p
      ensures p in l.players ==> Rerated(l.players, full)[p] == l.players[p]
      ensures HistoryOf(Logged(l.history, full), p) == HistoryOf(l.history, p)
    {
      forall i | 0 <= i < |full| ensures full[i].player != p { assert changes[i] in changes; }
      ReratedAt(l.players, full, p);
      LoggedAt(l.history, full, p);
    }
  }

  /**
    The changes of a match that has been rated are not applied again.  Those of a new one are accepted iff they
    are all of this match, of different players and current, and then they are all filed.
  */
  lemma AppliesExactly(l: Ledger, m: Id, changes: seq<Change>)
    requires m != NO_ID && changes != []
    ensures var r := Apply(l, m, changes);
            && (m in l.rated ==> r == (l, Ok(l.rated[m])))
            && (m !in l.rated ==>
                  && (r.1.Ok? <==> Acceptable(l, m, changes))
                  && (r.1.Ok? ==> Files(l, r.0, m, changes) && r.1.value == r.0.rated[m])
                  && (r.1.Err? ==> r.0 == l))
  {
    ProblemExactly(l, m, changes);
    if Acceptable(l, m, changes) {
      CommitFiles(l, m, changes);
    }
  }
}
