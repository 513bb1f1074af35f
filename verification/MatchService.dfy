/**
  MatchService (internal/matchmaking/application/match_service.go) over the stores themselves.
  As in the worker, the ghost field system follows every call as a step of the state machine.
*/
module MatchServices {
  import opened Prelude
  import opened TicketStoreSpec
  import opened StoreStability
  import opened MemoryTicketStore
  import opened Matches
  import opened MatchStores
  import opened Allocators
  import opened Saga
  import opened SagaInvariant
  import opened SagaSafety
  import opened Workers

  datatype ServiceError = Missing | WrongState | Rejected

  // The match has finished, or runs and can take the result.
  predicate CanComplete(m: Match, outcome: MatchResult) {
    || m.state == Finished
    || (&& m.state == Running && outcome.winner in {A, B} && outcome.duration >= 0
        && outcome.scoreA >= 0 && outcome.scoreB >= 0 && outcome.scoreA != outcome.scoreB
        && outcome.maxAdvantage >= 0.0 && 0.0 <= outcome.quality <= 100.0)
  }

  // When a match can be completed; one that has finished stays as it is.
  lemma CompletesOnce(matches: map<Id, Match>, m: Id, outcome: MatchResult, now: Time)
    requires m in matches
    ensures matches[m].Complete(outcome, now).Ok? <==> CanComplete(matches[m], outcome)
    ensures matches[m].state == Finished ==> matches[m].Complete(outcome, now) == Ok(matches[m])
    ensures matches[m := matches[m]] == matches
  {
  }

  // One step of the machine takes caller c to its next call.
  ghost predicate StepsTo(s: System, s': System, c: nat, call: Call) {
    Reachable(s') && c in s'.calls && s'.calls[c] == call && s'.capacities == s.capacities
  }

  lemma CallStartStep(s: System, c: nat, m: Id, now: Time) returns (s': System)
    requires Reachable(s) && c !in s.calls
    ensures StepsTo(s, s', c, StartCall(s.matches, m, now)) && s'.store == s.store && s'.matches == s.matches
            && s'.slots == s.slots
  {
    s' := Next(s, CallStart(c, m, now));
    NextIsReachable(s, CallStart(c, m, now));
  }

  lemma CallCompleteStep(s: System, c: nat, m: Id, outcome: MatchResult, now: Time) returns (s': System)
    requires Reachable(s) && c !in s.calls
    ensures StepsTo(s, s', c, CompleteCall(s.matches, m, outcome, now)) && s'.store == s.store
            && s'.matches == s.matches && s'.slots == s.slots
  {
    s' := Next(s, CallComplete(c, m, outcome, now));
    NextIsReachable(s, CallComplete(c, m, outcome, now));
  }

  lemma StoreStartStep(s: System, c: nat, copy: Match) returns (s': System)
    requires Reachable(s) && c in s.calls && s.calls[c] == StartUpdate(copy)
    ensures StepsTo(s, s', c, AfterStart(copy, Updating(s.matches, copy).1))
    ensures s'.store == s.store && s'.matches == Updating(s.matches, copy).0 && s'.slots == s.slots
  {
    s' := Next(s, Proceed(c));
    NextIsReachable(s, Proceed(c));
    assert s' == StoringStart(s, c, copy);
  }

  lemma StoreCompletionStep(s: System, c: nat, copy: Match) returns (s': System)
    requires Reachable(s) && c in s.calls && s.calls[c] == CompleteUpdate(copy)
    ensures StepsTo(s, s', c, AfterCompletion(copy, Updating(s.matches, copy).1))
    ensures s'.store == s.store && s'.matches == Updating(s.matches, copy).0 && s'.slots == s.slots
  {
    s' := Next(s, Proceed(c));
    NextIsReachable(s, Proceed(c));
    assert s' == StoringCompletion(s, c, copy);
  }

  lemma LookAgainStep(s: System, c: nat, m: Id) returns (s': System)
    requires Reachable(s) && c in s.calls && (s.calls[c] == StartAgain(m) || s.calls[c] == CompleteAgain(m))
    ensures var wanted := if s.calls[c].StartAgain? then Running else Finished;
            StepsTo(s, s', c, if m in s.matches && s.matches[m].state == wanted
                              then (if s.calls[c].StartAgain? then Started(s.matches[m]) else Freeing(s.matches[m]))
                              else Refused)
    ensures s'.store == s.store && s'.matches == s.matches && s'.slots == s.slots
  {
    s' := Next(s, Proceed(c));
    NextIsReachable(s, Proceed(c));
  }

  lemma FreePlayersStep(s: System, c: nat, copy: Match) returns (s': System)
    requires Reachable(s) && c in s.calls && s.calls[c] == Freeing(copy)
    ensures StepsTo(s, s', c, Releasing(copy))
    ensures s'.store == CompleteAssignedTickets(s.store, copy.id).0 && s'.matches == s.matches && s'.slots == s.slots
  {
    s' := Next(s, Proceed(c));
    NextIsReachable(s, Proceed(c));
    assert s' == FreeingPlayers(s, c, copy);
    ReachableIsSafe(s);
    assert CallOk(s, c) && EntryOk(s, copy.id);
  }

  lemma FreeServerStep(s: System, c: nat, copy: Match) returns (s': System)
    requires Reachable(s) && c in s.calls && s.calls[c] == Releasing(copy)
    ensures StepsTo(s, s', c, Completed(copy)) && s'.store == s.store && s'.matches == s.matches
            && s'.slots == s.slots - {copy.id}
  {
    s' := Next(s, Proceed(c));
    NextIsReachable(s, Proceed(c));
  }

  class MatchService {
    const repository: MatchStore
    const ticketCompleter: TicketStore
    const serverReleaser: LocalAllocator
    ghost var system: System

    constructor (repository: MatchStore, ticketCompleter: TicketStore, serverReleaser: LocalAllocator,
                 ghost system: System)
      ensures this.repository == repository && this.ticketCompleter == ticketCompleter
              && this.serverReleaser == serverReleaser
      ensures this.system == system
    {
      this.repository, this.ticketCompleter := repository, ticketCompleter;
      this.serverReleaser, this.system := serverReleaser, system;
    }

    ghost predicate Valid()
      reads this, repository, ticketCompleter, serverReleaser
    {
      Mirrors(system, ticketCompleter, repository, serverReleaser)
    }

    ghost predicate In(c: nat, call: Call)
      reads this
    {
      c in system.calls && system.calls[c] == call
    }

    /** Undisturbed, a match starts iff it is ready; a running one is reported as it is. */
    method StartMatch(ghost c: nat, m: Id, now: Time) returns (r: Result<Match, ServiceError>)
      requires Valid() && c !in system.calls
      modifies this`system, repository
      ensures Valid() && In(c, if r.Ok? then Started(r.value) else Refused)
      ensures r.Ok? <==> m in old(repository.matches) && old(repository.matches)[m].state in {Ready, Running}
      ensures r.Ok? ==> repository.matches == old(repository.matches)[m := r.value]
      ensures r.Ok? ==> var found := old(repository.matches)[m];
              r.value == if found.state == Running then found
              else found.(state := Running, revision := found.revision + 1, updatedAt := now)
      ensures r.Err? ==> repository.matches == old(repository.matches)
    {
      StoredUnder(m);
      var found := repository.Get(m);
      system := CallStartStep(system, c, m, now);
      if found.Err? {
        return Err(Missing);
      }
      if found.value.state == Running {
        return Ok(found.value);
      }
      r := StartReady(c, found.value, now);
    }

    // From a match as found that does not run yet.
    method StartReady(ghost c: nat, found: Match, now: Time) returns (r: Result<Match, ServiceError>)
      requires Valid() && In(c, StartCall(repository.matches, found.id, now))
      requires found.id in repository.matches && repository.matches[found.id] == found && found.state != Running
      modifies this`system, repository
      ensures Valid() && In(c, if r.Ok? then Started(r.value) else Refused)
      ensures r.Ok? <==> found.state == Ready
      ensures r.Ok? ==> r.value == found.(state := Running, revision := found.revision + 1, updatedAt := now)
      ensures r.Ok? ==> repository.matches == old(repository.matches)[found.id := r.value]
      ensures r.Err? ==> repository.matches == old(repository.matches)
    {
      var started := found.Start(now);
      if started.Err? {
        return Err(WrongState);
      }
      var updated := StoreStart(c, started.value);
      r := AnswerStart(c, started.value, updated);
    }

    method StoreStart(ghost c: nat, started: Match) returns (r: Result<(), MatchStoreError>)
      requires Valid() && In(c, StartUpdate(started))
      modifies this`system, repository
      ensures Valid() && In(c, AfterStart(started, r))
      ensures (repository.matches, r) == Updating(old(repository.matches), started)
    {
      r := repository.Update(started);
      system := StoreStartStep(system, c, started);
    }

    method AnswerStart(ghost c: nat, started: Match, updated: Result<(), MatchStoreError>)
      returns (r: Result<Match, ServiceError>)
      requires Valid() && In(c, AfterStart(started, updated))
      modifies this`system
      ensures Valid() && In(c, if r.Ok? then Started(r.value) else Refused)
      ensures updated.Ok? ==> r == Ok(started)
    {
      if updated.Err? {
        if updated.error == MatchRevisionConflict {
          r := LookAgain(c, started.id);
          return;
        }
        return Err(Rejected);
      }
      return Ok(started);
    }

    // After a conflict: another caller may have started the match.
    method LookAgain(ghost c: nat, m: Id) returns (r: Result<Match, ServiceError>)
      requires Valid() && In(c, StartAgain(m))
      modifies this`system
      ensures Valid() && In(c, if r.Ok? then Started(r.value) else Refused)
      ensures r.Ok? <==> m in repository.matches && repository.matches[m].state == Running
      ensures r.Ok? ==> repository.matches[m] == r.value
    {
      var current := repository.Get(m);
      system := LookAgainStep(system, c, m);
      return if current.Ok? && current.value.state == Running then Ok(current.value) else Err(Rejected);
    }

    /**
      Undisturbed, a running match ends with the given result if that is valid, and a finished one
      keeps the result it has; either way its players and its server are free afterwards.
    */
    method CompleteMatch(ghost c: nat, m: Id, outcome: MatchResult, now: Time) returns (r: Result<Match, ServiceError>)
      requires Valid() && c !in system.calls
      modifies this`system, repository, ticketCompleter, serverReleaser
      ensures Valid() && In(c, if r.Ok? then Completed(r.value) else Refused)
      ensures r.Ok? <==> m in old(repository.matches) && CanComplete(old(repository.matches)[m], outcome)
      ensures r.Ok? ==> repository.matches == old(repository.matches)[m := r.value]
      ensures r.Ok? ==> var found := old(repository.matches)[m];
              r.value == if found.state == Finished then found
              else found.(state := Finished, result := Some(outcome), revision := found.revision + 1, updatedAt := now)
      ensures r.Ok? ==> serverReleaser.allocations == old(serverReleaser.allocations) - {m}
      ensures r.Ok? ==> ticketCompleter.State() == CompleteAssignedTickets(old(ticketCompleter.State()), m).0
      ensures r.Ok? ==> forall p :: !Busy(ticketCompleter.State(), p, m)
      ensures r.Err? ==>
                repository.matches == old(repository.matches)
                && serverReleaser.allocations == old(serverReleaser.allocations)
                && ticketCompleter.State() == old(ticketCompleter.State())
    {
      StoredUnder(m);
      var found := repository.Get(m);
      system := CallCompleteStep(system, c, m, outcome, now);
      if found.Err? {
        return Err(Missing);
      }
      CompletesOnce(repository.matches, m, outcome, now);
      if found.value.state == Finished {
        FinishUp(c, found.value);
        return Ok(found.value);
      }
      r := CompleteRunning(c, found.value, outcome, now);
    }

    // From a match as found that has not finished yet.
    method CompleteRunning(ghost c: nat, found: Match, outcome: MatchResult, now: Time)
      returns (r: Result<Match, ServiceError>)
      requires Valid() && In(c, CompleteCall(repository.matches, found.id, outcome, now))
      requires found.id in repository.matches && repository.matches[found.id] == found && found.state != Finished
      modifies this`system, repository, ticketCompleter, serverReleaser
      ensures Valid() && In(c, if r.Ok? then Completed(r.value) else Refused)
      ensures r.Ok? <==> CanComplete(found, outcome)
      ensures r.Ok? ==> r.value == found.(state := Finished, result := Some(outcome), revision := found.revision + 1,
                                          updatedAt := now)
      ensures r.Ok? ==> repository.matches == old(repository.matches)[found.id := r.value]
      ensures r.Ok? ==> ticketCompleter.State() == CompleteAssignedTickets(old(ticketCompleter.State()), found.id).0
      ensures r.Ok? ==> forall p :: !Busy(ticketCompleter.State(), p, found.id)
      ensures r.Ok? ==> serverReleaser.allocations == old(serverReleaser.allocations) - {found.id}
      ensures r.Err? ==>
                repository.matches == old(repository.matches)
                && serverReleaser.allocations == old(serverReleaser.allocations)
                && ticketCompleter.State() == old(ticketCompleter.State())
    {
      var completed := found.Complete(outcome, now);
      if completed.Err? {
        return Err(WrongState);
      }
      var updated := StoreCompletion(c, completed.value);
      r := AnswerCompletion(c, completed.value, updated);
    }

    method StoreCompletion(ghost c: nat, completed: Match) returns (r: Result<(), MatchStoreError>)
      requires Valid() && In(c, CompleteUpdate(completed))
      modifies this`system, repository
      ensures Valid() && In(c, AfterCompletion(completed, r))
      ensures (repository.matches, r) == Updating(old(repository.matches), completed)
    {
      r := repository.Update(completed);
      system := StoreCompletionStep(system, c, completed);
    }

    method AnswerCompletion(ghost c: nat, completed: Match, updated: Result<(), MatchStoreError>)
      returns (r: Result<Match, ServiceError>)
      requires Valid() && In(c, AfterCompletion(completed, updated))
      modifies this`system, ticketCompleter, serverReleaser
      ensures Valid() && In(c, if r.Ok? then Completed(r.value) else Refused)
      ensures updated.Ok? ==> r == Ok(completed)
      ensures r.Ok? ==> serverReleaser.allocations == old(serverReleaser.allocations) - {r.value.id}
      ensures r.Ok? ==> ticketCompleter.State() == CompleteAssignedTickets(old(ticketCompleter.State()), r.value.id).0
      ensures r.Ok? ==> forall p :: !Busy(ticketCompleter.State(), p, r.value.id)
    {
      if updated.Err? {
        r := ResolveCompletionConflict(c, completed.id, updated.error);
        return;
      }
      FinishUp(c, completed);
      return Ok(completed);
    }

    method ResolveCompletionConflict(ghost c: nat, m: Id, cause: MatchStoreError)
      returns (r: Result<Match, ServiceError>)
      requires Valid() && In(c, if cause == MatchRevisionConflict then CompleteAgain(m) else Refused)
      modifies this`system, ticketCompleter, serverReleaser
      ensures Valid() && In(c, if r.Ok? then Completed(r.value) else Refused)
      ensures r.Ok? <==>
                cause == MatchRevisionConflict && m in repository.matches
                && repository.matches[m].state == Finished
      ensures r.Ok? ==> repository.matches[m] == r.value
      ensures r.Ok? ==> serverReleaser.allocations == old(serverReleaser.allocations) - {r.value.id}
      ensures r.Ok? ==> ticketCompleter.State() == CompleteAssignedTickets(old(ticketCompleter.State()), r.value.id).0
      ensures r.Ok? ==> forall p :: !Busy(ticketCompleter.State(), p, r.value.id)
    {
      if cause != MatchRevisionConflict {
        return Err(Rejected);
      }
      var current := repository.Get(m);
      system := LookAgainStep(system, c, m);
      if current.Err? || current.value.state != Finished {
        return Err(Rejected);
      }
      FinishUp(c, current.value);
      return Ok(current.value);
    }

    // Frees the players, then the server.
    method FinishUp(ghost c: nat, copy: Match)
      requires Valid() && In(c, Freeing(copy))
      modifies this`system, ticketCompleter, serverReleaser
      ensures Valid() && In(c, Completed(copy)) && system.matches == old(system.matches)
      ensures serverReleaser.allocations == old(serverReleaser.allocations) - {copy.id}
      ensures ticketCompleter.State() == CompleteAssignedTickets(old(ticketCompleter.State()), copy.id).0
      ensures forall p :: !Busy(ticketCompleter.State(), p, copy.id)
    {
      FreePlayers(c, copy);
      FreeServer(c, copy);
      CompletionsAgree(system, c, c);
    }

    method FreePlayers(ghost c: nat, copy: Match)
      requires Valid() && In(c, Freeing(copy))
      modifies this`system, ticketCompleter
      ensures Valid() && In(c, Releasing(copy)) && system.matches == old(system.matches)
      ensures ticketCompleter.State() == CompleteAssignedTickets(old(ticketCompleter.State()), copy.id).0
    {
      var _ := ticketCompleter.CompleteAssignedTickets(copy.id);
      system := FreePlayersStep(system, c, copy);
    }

    method FreeServer(ghost c: nat, copy: Match)
      requires Valid() && In(c, Releasing(copy))
      modifies this`system, serverReleaser
      ensures Valid() && In(c, Completed(copy)) && system.matches == old(system.matches)
      ensures serverReleaser.allocations == old(serverReleaser.allocations) - {copy.id}
    {
      serverReleaser.Release(copy.id);
      system := FreeServerStep(system, c, copy);
    }

    lemma StoredUnder(m: Id)
      requires Valid()
      ensures m in repository.matches ==> repository.matches[m].id == m
    {
      ReachableIsSafe(system);
      assert EntryOk(system, m);
    }
  }
}
