/**
  The in-memory match store (internal/matchmaking/repository/memory/match_store.go): a map of
  matches whose updates compare and set the revision.
*/
module MatchStores {
  import opened Prelude
  import opened Matches

  datatype MatchStoreError = MatchAlreadyExists | MatchNotFound | MatchRevisionConflict

  function Creating(matches: map<Id, Match>, m: Match): (map<Id, Match>, Result<(), MatchStoreError>) {
    if m.id in matches then (matches, Err(MatchAlreadyExists)) else (matches[m.id := m], Ok(()))
  }

  function Updating(matches: map<Id, Match>, m: Match): (map<Id, Match>, Result<(), MatchStoreError>) {
    if m.id !in matches then (matches, Err(MatchNotFound))
    else if m.revision != matches[m.id].revision + 1 then (matches, Err(MatchRevisionConflict))
    else (matches[m.id := m], Ok(()))
  }

  class MatchStore {
    var matches: map<Id, Match>

    constructor ()
      ensures matches == map[]
    {
      matches := map[];
    }

    method Create(m: Match) returns (r: Result<(), MatchStoreError>)
      modifies this
      ensures (matches, r) == Creating(old(matches), m)
    {
      if m.id in matches {
        return Err(MatchAlreadyExists);
      }
      matches := matches[m.id := m];
      return Ok(());
    }

    method Get(id: Id) returns (r: Result<Match, MatchStoreError>)
      ensures r == if id in matches then Ok(matches[id]) else Err(MatchNotFound)
    {
      if id !in matches {
        return Err(MatchNotFound);
      }
      return Ok(matches[id]);
    }

    method Update(m: Match) returns (r: Result<(), MatchStoreError>)
      modifies this
      ensures (matches, r) == Updating(old(matches), m)
    {
      if m.id !in matches {
        return Err(MatchNotFound);
      }
      var current := matches[m.id];
      if m.revision != current.revision + 1 {
        return Err(MatchRevisionConflict);
      }
      matches := matches[m.id := m];
      return Ok(());
    }
  }
}
