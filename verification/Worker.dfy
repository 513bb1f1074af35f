/**
  Worker.tryPool and filterEligibleTickets (internal/matchmaking/application/worker.go) over the
  stores themselves.  The ghost field system is the state machine's view of the stores: every
  call is one step of the machine, so an undisturbed tryPool is one of the runs that the machine
  interleaves, and ends the way the machine's attempts end.
*/
module Workers {
  import opened Prelude
  import T = Tickets
  import opened TicketStoreSpec
  import opened StoreStability
  import opened EligibleTickets
  import opened PoolAttempts
  import opened MemoryTicketStore
  import opened Matches
  import opened MatchStores
  import opened Allocators
  import opened Saga
  import opened SagaInvariant
  import opened SagaSafety
  import opened Calls = AttemptCalls

  datatype WorkerError =
    | NoMatchAvailable | CannotCancel | ReservationConflict | MatchRejected | NoServer | AssignmentConflict | NotStored

  // The stores are in a state that the machine can reach.
  ghost predicate Mirrors(system: System, queue: TicketStore, matches: MatchStore, allocator: LocalAllocator)
    reads queue, matches, allocator
  {
    && Reachable(system)
    && system.store == queue.State() && system.matches == matches.matches
    && system.slots == allocator.allocations && system.capacities == allocator.capacities
    && queue.Valid() && allocator.Valid()
  }

  class Worker {
    const queue: TicketStore
    const matches: MatchStore
    const allocator: LocalAllocator
    // The key under which a ticket is cancelled for an ineligible player.
    const keyOf: Id -> Id
    ghost var system: System

    constructor (queue: TicketStore, matches: MatchStore, allocator: LocalAllocator, keyOf: Id -> Id,
                 ghost system: System)
      ensures this.queue == queue && this.matches == matches && this.allocator == allocator && this.keyOf == keyOf
              && this.system == system
    {
      this.queue, this.matches, this.allocator, this.keyOf, this.system := queue, matches, allocator, keyOf, system;
    }

    ghost predicate Valid()
      reads this, queue, matches, allocator
    {
      Mirrors(system, queue, matches, allocator)
    }

    ghost predicate In(m: Id, p: Plan, phase: Phase)
      reads this
    {
      m in system.attempts && system.attempts[m] == Attempt(p, phase)
    }

    ghost method Tick(e: Event)
      requires Reachable(system)
      modifies this`system
      ensures system == Next(old(system), e) && Reachable(system)
    {
      NextIsReachable(system, e);
      system := Next(system, e);
    }

    method Reserve(m: Id, p: Plan, ghost token: Option<Id>) returns (ok: bool)
      requires Valid() && In(m, p, ToReserve)
      modifies this`system, queue
      ensures Valid() && In(m, p, if ok then ToCreate else GivenUp)
      ensures Outcome(system, m, token) == Outcome(old(system), m, token)
    {
      ghost var next := Calls.HoldTickets(system, m, p, token);
      var r := queue.ReserveAll(p.TicketIds(), p.reservation, p.expires, p.now);
      system := next;
      return r.Ok?;
    }

    method CreateMatch(m: Id, p: Plan, ghost token: Option<Id>) returns (ok: bool, copy: Match)
      requires Valid() && In(m, p, ToCreate)
      modifies this`system, matches
      ensures Valid() && In(m, p, if ok then ToStart(copy) else ToRelease)
      ensures Outcome(system, m, token) == Outcome(old(system), m, token)
    {
      copy := Match(m, p.mode, p.teamA, p.teamB, MatchState.Created, p.region, NO_ID, NO_ID, p.policyVersion,
                    p.quality, None, 1, p.now, p.now);
      var created := NewMatch(m, p.mode, p.teamA, p.teamB, p.region, p.policyVersion, p.quality, p.now);
      if created.Err? {
        system := Calls.CreateNothing(system, m, p, token);
        return false, copy;
      }
      ghost var next := Calls.CreateMatch(system, m, p, created.value, token);
      var r := matches.Create(created.value);
      system := next;
      return r.Ok?, created.value;
    }

    method StartAllocation(m: Id, p: Plan, copy: Match, ghost token: Option<Id>) returns (ok: bool, next: Match)
      requires Valid() && In(m, p, ToStart(copy))
      modifies this`system, matches
      ensures Valid() && In(m, p, if ok then ToAllocate(next) else ToRelease)
      ensures Outcome(system, m, token) == Outcome(old(system), m, token)
    {
      var started := copy.StartAllocation(p.now);
      if started.Err? {
        system := Calls.StartNothing(system, m, p, copy, token);
        return false, copy;
      }
      ghost var after := Calls.StartAllocation(system, m, p, copy, started.value, token);
      var r := matches.Update(started.value);
      system := after;
      return r.Ok?, started.value;
    }

    method AllocateServer(m: Id, p: Plan, copy: Match, token: Option<Id>) returns (r: Result<Slot, AllocationError>)
      requires Valid() && In(m, p, ToAllocate(copy))
      modifies this`system, allocator
      ensures Valid() && In(m, p, if r.Ok? then ToAssign(copy, r.value) else ToLookUp)
      ensures Outcome(system, m, token) == Outcome(old(system), m, token)
    {
      ghost var next := Calls.AllocateServer(system, m, p, copy, token);
      r := allocator.Allocate(copy.id, copy.region, token);
      system := next;
    }

    method AssignTickets(m: Id, p: Plan, copy: Match, slot: Slot, ghost token: Option<Id>)
      returns (ok: bool, ready: Match)
      requires Valid() && In(m, p, ToAssign(copy, slot))
      modifies this`system, queue
      ensures Valid() && In(m, p, if ok then ToPublish(ready) else ToFreeSlot)
      ensures Outcome(system, m, token) == Outcome(old(system), m, token)
    {
      var marked := copy.MarkReady(slot.address, slot.token, p.now);
      if marked.Err? {
        system := Calls.AssignNothing(system, m, p, copy, slot, token);
        return false, copy;
      }
      ghost var next := Calls.AssignTickets(system, m, p, copy, slot, marked.value, token);
      var r := queue.AssignAll(p.reservation, copy.id, p.now);
      system := next;
      return r.Ok?, marked.value;
    }

    method Publish(m: Id, p: Plan, copy: Match, ghost token: Option<Id>) returns (ok: bool)
      requires Valid() && In(m, p, ToPublish(copy))
      modifies this`system, matches
      ensures Valid() && ok && In(m, p, Succeeded)
      ensures Outcome(system, m, token) == Outcome(old(system), m, token)
      ensures copy.id == m && m in matches.matches && matches.matches[m] == copy && copy.state == Ready
    {
      ghost var next := Calls.Publish(system, m, p, copy, token);
      var r := matches.Update(copy);
      system := next;
      return r.Ok?;
    }

    method ReleaseAllocation(m: Id, p: Plan, ghost token: Option<Id>)
      requires Valid() && In(m, p, ToFreeSlot)
      modifies this`system, allocator
      ensures Valid() && In(m, p, ToLookUp)
      ensures Outcome(system, m, token) == Outcome(old(system), m, token)
    {
      allocator.Release(m);
      system := Calls.FreeSlot(system, m, p, token);
    }

    method FailStoredMatch(m: Id, p: Plan, ghost token: Option<Id>)
      requires Valid() && In(m, p, ToLookUp)
      modifies this`system, matches
      ensures Valid() && In(m, p, ToRelease)
      ensures Outcome(system, m, token) == Outcome(old(system), m, token)
    {
      var stored := matches.Get(m);
      system := Calls.LookUp(system, m, p, token);
      if stored.Err? {
        return;
      }
      var failed := stored.value.Fail(p.now);
      if failed.Err? {
        return;
      }
      StoreFailure(m, p, failed.value, token);
    }

    method StoreFailure(m: Id, p: Plan, failed: Match, ghost token: Option<Id>)
      requires Valid() && In(m, p, ToFail(failed))
      modifies this`system, matches
      ensures Valid() && In(m, p, ToRelease)
      ensures Outcome(system, m, token) == Outcome(old(system), m, token)
    {
      ghost var next := Calls.StoreFailure(system, m, p, failed, token);
      var _ := matches.Update(failed);
      system := next;
    }

    method ReleaseTickets(m: Id, p: Plan, ghost token: Option<Id>)
      requires Valid() && In(m, p, ToRelease)
      modifies this`system, queue
      ensures Valid() && In(m, p, GivenUp)
      ensures Outcome(system, m, token) == Outcome(old(system), m, token)
    {
      ghost var next := Calls.ReleaseHold(system, m, p, token);
      var _ := queue.ReleaseAll(p.reservation, p.now);
      system := next;
    }

    /**
      Keeps the tickets of eligible players, in order, and cancels the others' one by one; it gives
      up at the first refusal that is not due to the ticket's own state.
    */
    method FilterEligible(tickets: seq<T.Ticket>, eligible: set<Id>, now: Time)
      returns (r: Result<seq<T.Ticket>, WorkerError>)
      requires Valid() && InStore(queue.State(), tickets)
      modifies this`system, queue
      ensures Valid() && InStore(queue.State(), tickets) && system == old(system).(store := queue.State())
      ensures (queue.State(), r.Ok?) == Purged(old(queue.State()), tickets, eligible, keyOf, now)
      ensures forall q :: q in queue.reservations ==> q in old(queue.reservations)
      ensures r.Ok? ==> r.value == EligibleOnly(tickets, eligible)
    {
      var kept: seq<T.Ticket> := [];
      for i := 0 to |tickets|
        invariant Valid() && InStore(queue.State(), tickets) && system == old(system).(store := queue.State())
        invariant forall q :: q in queue.reservations ==> q in old(queue.reservations)
        invariant Purged(old(queue.State()), tickets[..i], eligible, keyOf, now) == (queue.State(), true)
        invariant kept == EligibleOnly(tickets[..i], eligible)
      {
        assert tickets[..i + 1][..i] == tickets[..i];
        if tickets[i].profile.player in eligible {
          kept := kept + [tickets[i]];
        } else {
          var failure := CancelIneligible(tickets, i, now);
          if failure == Some(TicketForbidden) {
            PurgeStops(old(queue.State()), tickets, i + 1, |tickets|, eligible, keyOf, now);
            assert tickets[..|tickets|] == tickets;
            return Err(CannotCancel);
          }
        }
      }
      assert tickets[..|tickets|] == tickets;
      return Ok(kept);
    }

    method CancelIneligible(tickets: seq<T.Ticket>, i: nat, now: Time) returns (failure: Option<StoreError>)
      requires Valid() && InStore(queue.State(), tickets) && i < |tickets|
      modifies this`system, queue
      ensures Valid() && InStore(queue.State(), tickets) && system == old(system).(store := queue.State())
      ensures var t := tickets[i].profile;
              var r := TicketStoreSpec.Cancel(old(queue.State()), t.id, t.player, keyOf(t.id), now);
              queue.State() == r.0 && failure == (if r.1.Ok? then None else Some(r.1.error))
      ensures forall q :: q in queue.reservations ==> q in old(queue.reservations)
    {
      var t := tickets[i].profile;
      CancelIsSteady(queue.State(), t.id, t.player, keyOf(t.id), now);
      StillInStore(queue.State(), TicketStoreSpec.Cancel(queue.State(), t.id, t.player, keyOf(t.id), now).0, tickets,
                   NO_ID, NO_ID);
      var cancelled := queue.Cancel(t.id, t.player, keyOf(t.id), now);
      Tick(CancelTicket(t.id, t.player, keyOf(t.id), now));
      return if cancelled.Ok? then None else Some(cancelled.error);
    }

    /**
      One attempt to make a match from a pool.  The engine's work is the function form; the ids are
      new.  Success leaves a ready match with a server and ten seated players; failure leaves no
      ticket held, no server taken, and no match that has not failed.  Undisturbed, the stores end
      up where the filters and the machine's attempt take them.
    */
    method TryPool(pool: T.PoolKey, limit: int, eligible: set<Id>, stillEligible: set<Id>,
                   form: seq<T.Ticket> -> Option<Lineup>,
                   reservation: Id, matchId: Id, token: Option<Id>, now: Time, expires: Time)
      returns (r: Result<Match, WorkerError>, ghost snapshot: seq<T.Ticket>)
      requires Valid()
      requires forall ts :: form(ts).Some? ==> DrawnFrom(form(ts).value, ts)
      requires reservation != NO_ID && reservation !in queue.reservations && matchId != NO_ID
               && matchId !in system.attempts
      requires forall k :: k in system.attempts ==> system.attempts[k].plan.reservation != reservation
      modifies this`system, queue, matches, allocator
      ensures Valid()
      ensures Lists(old(queue.tickets), TicketStoreSpec.QueueSnapshot(old(queue.State()), pool, limit), snapshot)
      ensures Concluded(old(system), system, ChosenLineup(old(queue.State()), snapshot, eligible, stillEligible, form,
                                                          keyOf, now),
                        pool, reservation, matchId, token, now, expires, r.Ok?)
      ensures r.Ok? ==> Success(matchId, r.value)
      ensures r.Err? ==> Failure(matchId, reservation)
    {
      var tickets := queue.QueueSnapshot(pool, limit);
      snapshot := tickets;
      if tickets == [] {
        Untouched(matchId, reservation);
        return Err(NoMatchAvailable), snapshot;
      }
      SnapshotInStore(pool, limit, tickets);
      r := TryTickets(pool, tickets, eligible, stillEligible, form, reservation, matchId, token, now, expires);
    }

    // From the snapshot on.
    method TryTickets(pool: T.PoolKey, tickets: seq<T.Ticket>, eligible: set<Id>, stillEligible: set<Id>,
                      form: seq<T.Ticket> -> Option<Lineup>, reservation: Id, matchId: Id, token: Option<Id>, now: Time,
                      expires: Time)
      returns (r: Result<Match, WorkerError>)
      requires Valid() && InStore(queue.State(), tickets)
      requires forall ts :: form(ts).Some? ==> DrawnFrom(form(ts).value, ts)
      requires reservation != NO_ID && reservation !in queue.reservations && matchId != NO_ID
               && matchId !in system.attempts
      requires forall k :: k in system.attempts ==> system.attempts[k].plan.reservation != reservation
      modifies this`system, queue, matches, allocator
      ensures Valid()
      ensures Concluded(old(system), system,
                        ChosenLineup(old(queue.State()), tickets, eligible, stillEligible, form, keyOf, now),
                        pool, reservation, matchId, token, now, expires, r.Ok?)
      ensures r.Ok? ==> Success(matchId, r.value)
      ensures r.Err? ==> Failure(matchId, reservation)
    {
      var candidates := FilterEligible(tickets, eligible, now);
      EligibleAreTickets(tickets, eligible);
      if candidates.Err? {
        Untouched(matchId, reservation);
        return Err(candidates.error);
      }
      ghost var mid := system;
      r := TryCandidates(pool, tickets, candidates.value, stillEligible, form, reservation, matchId, token, now,
                         expires);
      ConcludedFrom(old(system), mid, system, FormedLineup(mid.store, candidates.value, stillEligible, form, keyOf,
                                                           now),
                    pool, reservation, matchId, token, now, expires, r.Ok?);
    }

    // From the engine on.
    method TryCandidates(pool: T.PoolKey, ghost tickets: seq<T.Ticket>, candidates: seq<T.Ticket>,
                         stillEligible: set<Id>, form: seq<T.Ticket> -> Option<Lineup>, reservation: Id,
                         matchId: Id, token: Option<Id>, now: Time, expires: Time)
      returns (r: Result<Match, WorkerError>)
      requires Valid() && InStore(queue.State(), tickets) && forall t :: t in candidates ==> t in tickets
      requires forall ts :: form(ts).Some? ==> DrawnFrom(form(ts).value, ts)
      requires reservation != NO_ID && reservation !in queue.reservations && matchId != NO_ID
               && matchId !in system.attempts
      requires forall k :: k in system.attempts ==> system.attempts[k].plan.reservation != reservation
      modifies this`system, queue, matches, allocator
      ensures Valid()
      ensures Concluded(old(system), system, FormedLineup(old(queue.State()), candidates, stillEligible, form, keyOf,
                                                          now),
                        pool, reservation, matchId, token, now, expires, r.Ok?)
      ensures r.Ok? ==> Success(matchId, r.value)
      ensures r.Err? ==> Failure(matchId, reservation)
    {
      if candidates == [] {
        Untouched(matchId, reservation);
        return Err(NoMatchAvailable);
      }
      var formed := form(candidates);
      if formed.None? {
        Untouched(matchId, reservation);
        return Err(NoMatchAvailable);
      }
      SelectedInStore(queue.State(), formed.value, candidates, tickets);
      r := TryLineup(pool, formed.value, candidates, stillEligible, reservation, matchId, token, now, expires);
    }

    // From the lineup on.
    method TryLineup(pool: T.PoolKey, lineup: Lineup, ghost candidates: seq<T.Ticket>, stillEligible: set<Id>,
                     reservation: Id, matchId: Id, token: Option<Id>, now: Time, expires: Time)
      returns (r: Result<Match, WorkerError>)
      requires Valid() && DrawnFrom(lineup, candidates) && InStore(queue.State(), lineup.tickets)
      requires reservation != NO_ID && reservation !in queue.reservations && matchId != NO_ID
               && matchId !in system.attempts
      requires forall k :: k in system.attempts ==> system.attempts[k].plan.reservation != reservation
      modifies this`system, queue, matches, allocator
      ensures Valid()
      ensures Concluded(old(system), system, Confirmed(old(queue.State()), lineup, stillEligible, keyOf, now),
                        pool, reservation, matchId, token, now, expires, r.Ok?)
      ensures r.Ok? ==> Success(matchId, r.value)
      ensures r.Err? ==> Failure(matchId, reservation)
    {
      var selected := FilterEligible(lineup.tickets, stillEligible, now);
      if selected.Err? || |selected.value| != 10 {
        Untouched(matchId, reservation);
        return Err(if selected.Err? then selected.error else NoMatchAvailable);
      }
      var p := PlanFor(pool, lineup, reservation, now, expires);
      ghost var store := queue.State();
      BeginAttempt(matchId, p, lineup, candidates);
      ghost var begun := system;
      r := RunAttempt(matchId, p, token);
      AttemptSettles(old(system), store, begun, pool, lineup, reservation, matchId, token, now, expires);
    }

    ghost method BeginAttempt(m: Id, p: Plan, lineup: Lineup, candidates: seq<T.Ticket>)
      requires Valid() && DrawnFrom(lineup, candidates) && InStore(queue.State(), lineup.tickets)
      requires p.teamA == lineup.teamA && p.teamB == lineup.teamB
      requires p.reservation != NO_ID && p.reservation !in queue.reservations && m != NO_ID && m !in system.attempts
      requires forall k :: k in system.attempts ==> system.attempts[k].plan.reservation != p.reservation
      modifies this`system
      ensures Valid() && In(m, p, ToReserve) && system == Starting(old(system), old(system).store, m, p)
    {
      forall i | 0 <= i < |p.Players()| ensures Known(system.store, p.Players()[i]) {
        assert lineup.tickets[i] in candidates;
      }
      Tick(Begin(m, p));
    }

    /**
      The calls of Worker.tryPool from the reservation to the published match, with its compensation
      at each failure.  Undisturbed it does to the stores what the machine's attempt does, which says when it succeeds.
    */
    method RunAttempt(m: Id, p: Plan, token: Option<Id>) returns (r: Result<Match, WorkerError>)
      requires Valid() && In(m, p, ToReserve)
      modifies this`system, queue, matches, allocator
      ensures Valid() && system == Outcome(old(system), m, token)
      ensures r.Ok? <==> system.attempts[m].phase == Succeeded
      ensures r.Ok? ==> Success(m, r.value)
      ensures r.Err? ==> Failure(m, p.reservation)
    {
      var reserved := Reserve(m, p, token);
      if !reserved {
        GaveUp(m, p);
        AtTheEnd(system, m, token);
        return Err(WorkerError.ReservationConflict);
      }
      r := MakeMatch(m, p, token);
      AtTheEnd(system, m, token);
    }

    method MakeMatch(m: Id, p: Plan, token: Option<Id>) returns (r: Result<Match, WorkerError>)
      requires Valid() && In(m, p, ToCreate)
      modifies this`system, queue, matches, allocator
      ensures Valid() && In(m, p, if r.Ok? then Succeeded else GivenUp)
      ensures Outcome(system, m, token) == Outcome(old(system), m, token)
      ensures r.Ok? ==> Success(m, r.value)
      ensures r.Err? ==> Failure(m, p.reservation)
    {
      var created, first := CreateMatch(m, p, token);
      if !created {
        ReleaseTickets(m, p, token);
        GaveUp(m, p);
        return Err(MatchRejected);
      }
      var started, copy := StartAllocation(m, p, first, token);
      if !started {
        ReleaseTickets(m, p, token);
        GaveUp(m, p);
        return Err(NotStored);
      }
      r := Furnish(m, p, copy, token);
    }

    // The server, the tickets and the final update.
    method Furnish(m: Id, p: Plan, copy: Match, token: Option<Id>) returns (r: Result<Match, WorkerError>)
      requires Valid() && In(m, p, ToAllocate(copy))
      modifies this`system, queue, matches, allocator
      ensures Valid() && In(m, p, if r.Ok? then Succeeded else GivenUp)
      ensures Outcome(system, m, token) == Outcome(old(system), m, token)
      ensures r.Ok? ==> Success(m, r.value)
      ensures r.Err? ==> Failure(m, p.reservation)
    {
      var allocation := AllocateServer(m, p, copy, token);
      if allocation.Err? {
        FailStoredMatch(m, p, token);
        ReleaseTickets(m, p, token);
        GaveUp(m, p);
        return Err(NoServer);
      }
      var seated, ready := AssignTickets(m, p, copy, allocation.value, token);
      if !seated {
        ReleaseAllocation(m, p, token);
        FailStoredMatch(m, p, token);
        ReleaseTickets(m, p, token);
        GaveUp(m, p);
        return Err(AssignmentConflict);
      }
      var published := Publish(m, p, ready, token);
      LiveMatchesAreSeated(system, m);
      return if published then Ok(ready) else Err(NotStored);
    }

    ghost predicate Success(m: Id, copy: Match)
      reads queue, matches, allocator
    {
      && m in matches.matches && copy == matches.matches[m] && copy.state == Ready
      && m in allocator.allocations && |copy.Players()| == 10
      && forall i :: 0 <= i < 10 ==> Plays(queue.State(), copy.Players()[i], m)
    }

    ghost predicate Failure(m: Id, reservation: Id)
      reads queue, matches, allocator
    {
      && (forall id :: !Held(queue.State(), id, reservation)) && m !in allocator.allocations
      && (m in matches.matches ==> matches.matches[m].state == MatchState.Failed)
    }

    lemma GaveUp(m: Id, p: Plan)
      requires Valid() && In(m, p, GivenUp)
      ensures Failure(m, p.reservation)
    {
      GivingUpLeavesNothing(system, m);
    }

    // Before the attempt begins there is nothing to undo.
    lemma Untouched(m: Id, reservation: Id)
      requires Valid() && m !in system.attempts && reservation !in queue.reservations
      ensures Failure(m, reservation)
    {
      ReachableIsSafe(system);
      assert EntryOk(system, m);
      forall id ensures !Held(queue.State(), id, reservation) { assert TicketOk(queue.State(), id); }
    }

    lemma SnapshotInStore(pool: T.PoolKey, limit: int, tickets: seq<T.Ticket>)
      requires Valid() && Lists(queue.tickets, TicketStoreSpec.QueueSnapshot(queue.State(), pool, limit), tickets)
      ensures InStore(queue.State(), tickets)
    {
      forall i | 0 <= i < |tickets|
        ensures tickets[i].profile.id in queue.tickets
                && queue.tickets[tickets[i].profile.id].profile == tickets[i].profile
      {
        assert TicketOk(queue.State(), TicketStoreSpec.QueueSnapshot(queue.State(), pool, limit)[i]);
      }
    }
  }

  lemma SelectedInStore(s: Store, lineup: Lineup, candidates: seq<T.Ticket>, tickets: seq<T.Ticket>)
    requires DrawnFrom(lineup, candidates) && InStore(s, tickets) && forall t :: t in candidates ==> t in tickets
    ensures InStore(s, lineup.tickets)
  {
    forall i | 0 <= i < |lineup.tickets|
      ensures lineup.tickets[i].profile.id in s.tickets
              && s.tickets[lineup.tickets[i].profile.id].profile == lineup.tickets[i].profile
    {
      assert lineup.tickets[i] in candidates;
      var k :| 0 <= k < |tickets| && tickets[k] == lineup.tickets[i];
    }
  }
}
