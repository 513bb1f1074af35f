/**
  The in-memory player repository (internal/player/repository/memory/repository.go) and the rating
  service on top of it (internal/player/application/rating_service.go), updated in place.
*/
module PlayerRepositories {
  import opened Prelude
  import opened RatingLedger
  import opened EloRatings

  class Repository {
    var players: map<Id, Player>
    var ratingHistory: map<Id, seq<Change>>
    var ratedMatchHistory: map<Id, seq<Change>>
    ghost var opening: map<Id, RatingState>

    ghost function State(): RatingLedger.Ledger
      reads this
    {
      RatingLedger.Ledger.Ledger(players, ratingHistory, ratedMatchHistory)
    }

    ghost predicate Valid()
      reads this
    {
      Consistent(Book(State(), opening))
    }

    constructor ()
      ensures Valid() && State() == EMPTY.ledger && opening == map[]
    {
      players, ratingHistory, ratedMatchHistory, opening := map[], map[], map[], map[];
    }

    method CreatePlayer(p: Player) returns (r: Result<(), LedgerError>)
      requires Valid() && ValidState(p.state)
      modifies this
      ensures (State(), r) == Create(old(State()), p)
      ensures r.Ok? <==> p.id !in old(players)
      ensures players == if r.Ok? then old(players)[p.id := p] else old(players)
      ensures Valid()
    {
      CreateKeeps(Book(State(), opening), p);
      if p.id in players {
        return Err(PlayerAlreadyExists);
      }
      players := players[p.id := p];
      opening := opening[p.id := p.state];
      return Ok(());
    }

    method GetById(id: Id) returns (r: Result<Player, LedgerError>)
      ensures r == if id in players then Ok(players[id]) else Err(PlayerNotFound)
    {
      if id !in players {
        return Err(PlayerNotFound);
      }
      return Ok(players[id]);
    }

    method UpdatePlayer(id: Id, banned: bool, latency: map<Id, int>) returns (r: Result<(), LedgerError>)
      requires Valid()
      modifies this`players
      ensures (State(), r) == Touch(old(State()), id, banned, latency)
      ensures r.Ok? <==> id in old(players)
      ensures r.Err? ==> players == old(players)
      ensures r.Ok? ==> players == old(players)[id := old(players)[id].(banned := banned, latency := latency)]
      ensures Valid()
    {
      TouchKeeps(Book(State(), opening), id, banned, latency);
      if id !in players {
        return Err(PlayerNotFound);
      }
      players := players[id := players[id].(banned := banned, latency := latency)];
      return Ok(());
    }

    /** All changes are checked and staged before any is stored. */
    method ApplyRatingChanges(m: Id, changes: seq<Change>) returns (r: Result<seq<Change>, LedgerError>)
      requires Valid() && AllValid(changes)
      modifies this`players, this`ratingHistory, this`ratedMatchHistory
      ensures (State(), r) == Apply(old(State()), m, changes)
      ensures Valid()
    {
      ApplyKeeps(Book(State(), opening), m, changes);
      if m == NO_ID || |changes| == 0 {
        return Err(RatingConflict);
      }
      if m in ratedMatchHistory {
        return Ok(ratedMatchHistory[m]);
      }
      forall p | p in players ensures ValidState(players[p].state) { assert PlayerOk(Book(State(), opening), p); }
      var problem, updated, committed := Stage(m, changes);
      if problem.Some? {
        return Err(problem.value);
      }
      Commit(m, updated, committed);
      return Ok(committed);
    }

    method Commit(m: Id, updated: map<Id, Player>, committed: seq<Change>)
      requires Staged(players, committed, updated) && DistinctPlayers(committed)
      modifies this`players, this`ratingHistory, this`ratedMatchHistory
      ensures Commits(old(State()), State(), m, committed)
    {
      CommitPlayers(updated, committed);
      AppendHistory(committed);
      ratedMatchHistory := ratedMatchHistory[m := committed];
    }

    method Stage(m: Id, changes: seq<Change>)
      returns (problem: Option<LedgerError>, updated: map<Id, Player>, committed: seq<Change>)
      requires (forall p :: p in players ==> ValidState(players[p].state)) && AllValid(changes)
      ensures problem == FirstProblem(State(), m, changes, |changes|)
      ensures problem == None ==>
                committed == Complete(State(), changes) && DistinctPlayers(committed)
                && Staged(players, committed, updated)
    {
      problem, updated, committed := None, map[], [];
      for i := 0 to |changes|
        invariant problem == None && FirstProblem(State(), m, changes, i) == None
        invariant committed == Complete(State(), changes)[..i]
        invariant DistinctPlayers(committed) && Staged(players, committed, updated)
      {
        SeenPlayer(State(), changes, committed, i, updated);
        ProblemStays(State(), m, changes, i + 1, |changes|);
        var wrong, change := Check(m, changes, i, updated);
        if wrong.Some? {
          return wrong, map[], [];
        }
        StagedOneMore(players, committed, updated, change);
        OneLonger(Complete(State(), changes), i, change);
        committed := committed + [change];
        updated := updated[change.player := players[change.player].(state := change.after)];
      }
      assert Complete(State(), changes)[..|changes|] == Complete(State(), changes);
    }

    // One round of the loop: what is wrong with the change, or the change with its uncertainty filled in.
    method Check(m: Id, changes: seq<Change>, i: nat, updated: map<Id, Player>)
      returns (problem: Option<LedgerError>, change: Change)
      requires (forall p :: p in players ==> ValidState(players[p].state)) && AllValid(changes) && i < |changes|
      requires changes[i].player in updated <==> exists j :: 0 <= j < i && changes[j].player == changes[i].player
      ensures problem == Problem(State(), m, changes, i)
      ensures problem == None ==>
                change.player == changes[i].player && change.player in players
                && change.player !in updated
                && change == Completed(State(), changes[i])
    {
      change := changes[i];
      if change.matchId != m || change.player in updated {
        return Some(RatingConflict), change;
      }
      if change.player !in players {
        return Some(PlayerNotFound), change;
      }
      var player := players[change.player];
      if player.state.rating != change.before.rating {
        return Some(RatingConflict), change;
      }
      if change.before.deviation <= 0.0 {
        var full := NewRatingChange(change.player, change.matchId, player.state,
                                    player.state.(rating := change.after.rating),
                                    change.system, change.reason, change.createdAt);
        assert full.Ok?;
        return None, full.value;
      }
      if player.state.deviation != change.before.deviation || player.state.volatility != change.before.volatility {
        return Some(RatingConflict), change;
      }
      return None, change;
    }

    method CommitPlayers(updated: map<Id, Player>, ghost committed: seq<Change>)
      requires Staged(players, committed, updated) && DistinctPlayers(committed)
      modifies this`players
      ensures players == Rerated(old(players), committed)
    {
      var todo := updated.Keys;
      while todo != {}
        invariant todo <= updated.Keys && players.Keys == old(players).Keys
        invariant forall p :: p in players ==>
                    players[p] == if p in updated && p !in todo then updated[p] else old(players)[p]
      {
        var p :| p in todo;
        players := players[p := updated[p]];
        todo := todo - {p};
      }
      StagedIsRerated(old(players), committed, updated);
    }

    method AppendHistory(committed: seq<Change>)
      modifies this`ratingHistory
      ensures ratingHistory == Logged(old(ratingHistory), committed)
    {
      for i := 0 to |committed|
        invariant ratingHistory == Logged(old(ratingHistory), committed[..i])
      {
        assert committed[..i + 1][..i] == committed[..i];
        var c := committed[i];
        ratingHistory := ratingHistory[c.player := HistoryOf(ratingHistory, c.player) + [c]];
      }
      assert committed[..|committed|] == committed;
    }
  }

  // The staged players are exactly those of the changes, in their new states.
  ghost predicate Staged(players: map<Id, Player>, committed: seq<Change>, updated: map<Id, Player>) {
    && updated.Keys == (set c | c in committed :: c.player)
    && forall i {:trigger committed[i]} :: 0 <= i < |committed| ==>
         && committed[i].player in players && committed[i].player in updated
         && updated[committed[i].player] == players[committed[i].player].(state := committed[i].after)
  }

  lemma StagedOneMore(players: map<Id, Player>, committed: seq<Change>, updated: map<Id, Player>, change: Change)
    requires Staged(players, committed, updated) && DistinctPlayers(committed)
    requires change.player in players && change.player !in updated
    ensures Staged(players, committed + [change], updated[change.player :=
                                                          players[change.player].(state := change.after)])
    ensures DistinctPlayers(committed + [change])
  {
    var all := committed + [change];
    forall i {:trigger all[i]} | 0 <= i < |committed|
      ensures all[i].player in updated && all[i].player != change.player
    {
      assert committed[i] in committed;
    }
    assert (set c | c in all :: c.player) == (set c | c in committed :: c.player) + {change.player} by {
      assert change in all;
      forall c | c in committed ensures c in all {}
    }
  }

  lemma {:induction false} ProblemStays(l: RatingLedger.Ledger, m: Id, changes: seq<Change>, i: nat, n: nat)
    requires i <= n <= |changes|
    ensures FirstProblem(l, m, changes, i).Some? ==> FirstProblem(l, m, changes, n) == FirstProblem(l, m, changes, i)
  {
    if i < n {
      ProblemStays(l, m, changes, i, n - 1);
    }
  }

  lemma SeenPlayer(l: RatingLedger.Ledger, changes: seq<Change>, committed: seq<Change>, i: nat,
                   updated: map<Id, Player>)
    requires i < |changes| && committed == Complete(l, changes)[..i] && Staged(l.players, committed, updated)
    ensures changes[i].player in updated <==> exists j :: 0 <= j < i && changes[j].player == changes[i].player
  {
    if j :| 0 <= j < i && changes[j].player == changes[i].player {
      assert committed[j] in committed && committed[j].player == changes[j].player;
    }
    if changes[i].player in updated {
      var c :| c in committed && c.player == changes[i].player;
      var j :| 0 <= j < i && committed[j] == c;
      assert changes[j].player == changes[i].player;
    }
  }

  lemma StagedIsRerated(players: map<Id, Player>, committed: seq<Change>, updated: map<Id, Player>)
    requires Staged(players, committed, updated) && DistinctPlayers(committed)
    ensures Rerated(players, committed).Keys == players.Keys
    ensures forall p :: p in players ==> Rerated(players, committed)[p] == if p in updated then updated[p]
            else players[p]
  {
    ReratedAt(players, committed, NO_ID);
    forall p | p in players ensures Rerated(players, committed)[p] == if p in updated then updated[p] else players[p] {
      ReratedAt(players, committed, p);
    }
  }

  lemma OneLonger<T>(s: seq<T>, n: nat, x: T)
    requires n < |s| && s[n] == x
    ensures s[..n + 1] == s[..n] + [x]
  {
  }
}
