/**
  What each call of a worker's attempt does to the stores (internal/matchmaking/application/worker.go:274-364),
  as the step of the machine that it is: the lemmas hand out the machine's next state.
*/
module AttemptCalls {
  import opened Prelude
  import opened TicketStoreSpec
  import opened Matches
  import opened MatchStores
  import opened Allocators
  import opened Saga
  import opened SagaInvariant
  import opened SagaSafety

  // The worker makes all its remaining calls.
  function Outcome(s: System, m: Id, token: Option<Id>): (s': System)
    requires m in s.attempts
    ensures m in s'.attempts && Remaining(s'.attempts[m].phase) == 0
    decreases Remaining(s.attempts[m].phase)
  {
    if Remaining(s.attempts[m].phase) == 0 then s else Outcome(Work(s, m, token), m, token)
  }

  ghost predicate Is(s: System, m: Id, p: Plan, phase: Phase) {
    Reachable(s) && m in s.attempts && s.attempts[m] == Attempt(p, phase)
  }

  lemma OneCall(s: System, m: Id, token: Option<Id>)
    requires m in s.attempts && Remaining(s.attempts[m].phase) > 0
    ensures Outcome(s, m, token) == Outcome(Work(s, m, token), m, token)
    ensures Work(s, m, token).attempts[m].plan == s.attempts[m].plan
    ensures Reachable(s) ==> Reachable(Work(s, m, token))
  {
    if Reachable(s) {
      NextIsReachable(s, Advance(m, token));
    }
  }

  lemma AtTheEnd(s: System, m: Id, token: Option<Id>)
    requires m in s.attempts && (s.attempts[m].phase == Succeeded || s.attempts[m].phase == GivenUp)
    ensures Outcome(s, m, token) == s
  {
  }

  lemma PhaseFacts(s: System, m: Id, p: Plan, phase: Phase)
    requires Is(s, m, p, phase)
    ensures PhaseOk(s, m, p, phase) && m != NO_ID && p.reservation != NO_ID && Inv(s.store)
    ensures m in s.matches ==> s.matches[m].id == m && OfPlan(s.matches[m], m, p)
  {
    ReachableIsSafe(s);
    assert EntryOk(s, m);
  }

  // One call further on, with the end of the attempt still the same.
  ghost predicate Called(s: System, next: System, m: Id, p: Plan, phase: Phase, token: Option<Id>) {
    && m in s.attempts && Is(next, m, p, phase) && next.capacities == s.capacities
    && Outcome(next, m, token) == Outcome(s, m, token)
  }

  // The given step is the next one.
  lemma Advanced(s: System, next: System, m: Id, p: Plan, phase: Phase, phase': Phase, token: Option<Id>)
    requires Is(s, m, p, phase) && Remaining(phase) > 0 && next == Work(s, m, token)
    requires next.attempts[m].phase == phase' && next.capacities == s.capacities
    ensures Called(s, next, m, p, phase', token)
  {
    OneCall(s, m, token);
  }

  lemma HoldTickets(s: System, m: Id, p: Plan, token: Option<Id>) returns (next: System)
    requires Is(s, m, p, ToReserve)
    ensures var r := ReserveAll(s.store, p.TicketIds(), p.reservation, p.expires, p.now);
            && Called(s, next, m, p, if r.1.Ok? then ToCreate else GivenUp, token)
            && next.store == r.0 && next.matches == s.matches && next.slots == s.slots
  {
    var r := ReserveAll(s.store, p.TicketIds(), p.reservation, p.expires, p.now);
    next := Reserving(s, m);
    Advanced(s, next, m, p, ToReserve, if r.1.Ok? then ToCreate else GivenUp, token);
  }

  lemma CreateNothing(s: System, m: Id, p: Plan, token: Option<Id>) returns (next: System)
    requires Is(s, m, p, ToCreate)
    requires NewMatch(m, p.mode, p.teamA, p.teamB, p.region, p.policyVersion, p.quality, p.now).Err?
    ensures Called(s, next, m, p, ToRelease, token)
    ensures next.store == s.store && next.matches == s.matches && next.slots == s.slots
  {
    next := CreatingMatch(s, m);
    Advanced(s, next, m, p, ToCreate, ToRelease, token);
  }

  lemma CreateMatch(s: System, m: Id, p: Plan, copy: Match, token: Option<Id>) returns (next: System)
    requires Is(s, m, p, ToCreate)
    requires NewMatch(m, p.mode, p.teamA, p.teamB, p.region, p.policyVersion, p.quality, p.now) == Ok(copy)
    ensures var r := Creating(s.matches, copy);
            && Called(s, next, m, p, if r.1.Ok? then ToStart(copy) else ToRelease, token)
            && next.store == s.store && next.matches == r.0 && next.slots == s.slots
  {
    next := CreatingMatch(s, m);
    var r := Creating(s.matches, copy);
    Advanced(s, next, m, p, ToCreate, if r.1.Ok? then ToStart(copy) else ToRelease, token);
  }

  lemma StartNothing(s: System, m: Id, p: Plan, copy: Match, token: Option<Id>) returns (next: System)
    requires Is(s, m, p, ToStart(copy)) && copy.StartAllocation(p.now).Err?
    ensures Called(s, next, m, p, ToRelease, token)
    ensures next.store == s.store && next.matches == s.matches && next.slots == s.slots
  {
    next := StartingAllocation(s, m, copy);
    Advanced(s, next, m, p, ToStart(copy), ToRelease, token);
  }

  lemma StartAllocation(s: System, m: Id, p: Plan, copy: Match, started: Match, token: Option<Id>)
    returns (next: System)
    requires Is(s, m, p, ToStart(copy)) && copy.StartAllocation(p.now) == Ok(started)
    ensures var r := Updating(s.matches, started);
            && Called(s, next, m, p, if r.1.Ok? then ToAllocate(started) else ToRelease, token)
            && next.store == s.store && next.matches == r.0 && next.slots == s.slots
  {
    StartedTo(s, m, p, copy, started, token);
    if Updating(s.matches, started).1.Ok? {
      next := s.Stored(started).At(m, ToAllocate(started));
      Advanced(s, next, m, p, ToStart(copy), ToAllocate(started), token);
    } else {
      next := s.At(m, ToRelease);
      Advanced(s, next, m, p, ToStart(copy), ToRelease, token);
    }
  }

  lemma StartedTo(s: System, m: Id, p: Plan, copy: Match, started: Match, token: Option<Id>)
    requires m in s.attempts && s.attempts[m] == Attempt(p, ToStart(copy)) && copy.StartAllocation(p.now) == Ok(started)
    ensures Work(s, m, token) ==
            if Updating(s.matches, started).1.Ok? then s.Stored(started).At(m, ToAllocate(started))
              else s.At(m, ToRelease)
  {
  }

  lemma AllocateServer(s: System, m: Id, p: Plan, copy: Match, token: Option<Id>) returns (next: System)
    requires Is(s, m, p, ToAllocate(copy))
    ensures var r := Allocators.Allocating(s.slots, s.capacities, copy.id, copy.region, token);
            && Called(s, next, m, p, if r.1.Ok? then ToAssign(copy, r.1.value) else ToLookUp, token)
            && next.store == s.store && next.matches == s.matches && next.slots == r.0
  {
    var r := Allocators.Allocating(s.slots, s.capacities, copy.id, copy.region, token);
    var phase' := if r.1.Ok? then ToAssign(copy, r.1.value) else ToLookUp;
    AllocatedTo(s, m, copy, token, r.0, r.1);
    next := s.(slots := r.0).At(m, phase');
    Advanced(s, next, m, p, ToAllocate(copy), phase', token);
  }

  lemma AllocatedTo(s: System, m: Id, copy: Match, token: Option<Id>, slots: map<Id, Slot>,
                    r: Result<Slot, AllocationError>)
    requires m in s.attempts && s.attempts[m].phase == ToAllocate(copy)
    requires (slots, r) == Allocators.Allocating(s.slots, s.capacities, copy.id, copy.region, token)
    ensures Work(s, m, token) == s.(slots := slots).At(m, if r.Ok? then ToAssign(copy, r.value) else ToLookUp)
  {
    RefusedChangesNothing(s.slots, s.capacities, copy.id, copy.region, token);
  }

  lemma RefusedChangesNothing(slots: map<Id, Slot>, capacities: map<Id, int>, m: Id, region: Id, token: Option<Id>)
    ensures var r := Allocators.Allocating(slots, capacities, m, region, token); r.1.Err? ==> r.0 == slots
  {
  }

  lemma AssignNothing(s: System, m: Id, p: Plan, copy: Match, slot: Slot, token: Option<Id>) returns (next: System)
    requires Is(s, m, p, ToAssign(copy, slot)) && copy.MarkReady(slot.address, slot.token, p.now).Err?
    ensures Called(s, next, m, p, ToFreeSlot, token)
    ensures next.store == s.store && next.matches == s.matches && next.slots == s.slots
  {
    next := Assigning(s, m, copy, slot);
    Advanced(s, next, m, p, ToAssign(copy, slot), ToFreeSlot, token);
  }

  lemma AssignTickets(s: System, m: Id, p: Plan, copy: Match, slot: Slot, ready: Match, token: Option<Id>)
    returns (next: System)
    requires Is(s, m, p, ToAssign(copy, slot)) && copy.MarkReady(slot.address, slot.token, p.now) == Ok(ready)
    ensures Called(s, next, m, p,
                   if p.reservation in s.store.reservations && copy.id != NO_ID then ToPublish(ready)
                     else ToFreeSlot, token)
    ensures next.store == AssignAll(s.store, p.reservation, copy.id, p.now).0 && next.matches == s.matches
            && next.slots == s.slots
  {
    PhaseFacts(s, m, p, ToAssign(copy, slot));
    AssignKeepsInv(s.store, p.reservation, copy.id, p.now);
    next := Assigning(s, m, copy, slot);
    Advanced(s, next, m, p, ToAssign(copy, slot), next.attempts[m].phase, token);
  }

  // The last update is never refused.
  lemma Publish(s: System, m: Id, p: Plan, copy: Match, token: Option<Id>) returns (next: System)
    requires Is(s, m, p, ToPublish(copy))
    ensures Called(s, next, m, p, Succeeded, token)
    ensures Updating(s.matches, copy) == (next.matches, Ok(())) && next.store == s.store && next.slots == s.slots
    ensures copy.id == m && m in next.matches && next.matches[m] == copy && copy.state == Ready
  {
    PhaseFacts(s, m, p, ToPublish(copy));
    ReachableIsSafe(s);
    PublishingIsSafe(s, m);
    next := Publishing(s, m, copy);
    Advanced(s, next, m, p, ToPublish(copy), Succeeded, token);
  }

  lemma FreeSlot(s: System, m: Id, p: Plan, token: Option<Id>) returns (next: System)
    requires Is(s, m, p, ToFreeSlot)
    ensures Called(s, next, m, p, ToLookUp, token)
    ensures next.store == s.store && next.matches == s.matches && next.slots == s.slots - {m}
  {
    next := FreeingSlot(s, m);
    Advanced(s, next, m, p, ToFreeSlot, ToLookUp, token);
  }

  lemma LookUp(s: System, m: Id, p: Plan, token: Option<Id>) returns (next: System)
    requires Is(s, m, p, ToLookUp)
    ensures Called(s, next, m, p,
                   if m in s.matches && s.matches[m].Fail(p.now).Ok? then ToFail(s.matches[m].Fail(p.now).value)
                     else ToRelease, token)
    ensures next.store == s.store && next.matches == s.matches && next.slots == s.slots
  {
    var failed := if m in s.matches then s.matches[m].Fail(p.now) else Err(IllegalMatchTransition);
    var phase' := if failed.Ok? then ToFail(failed.value) else ToRelease;
    next := s.At(m, phase');
    LookedUp(s, m, p, failed, token);
    if failed.Ok? {
      Advanced(s, next, m, p, ToLookUp, ToFail(failed.value), token);
    } else {
      Advanced(s, next, m, p, ToLookUp, ToRelease, token);
    }
  }

  lemma LookedUp(s: System, m: Id, p: Plan, failed: Result<Match, MatchError>, token: Option<Id>)
    requires m in s.attempts && s.attempts[m] == Attempt(p, ToLookUp)
    requires failed == if m in s.matches then s.matches[m].Fail(p.now) else Err(IllegalMatchTransition)
    ensures Work(s, m, token) == s.At(m, if failed.Ok? then ToFail(failed.value) else ToRelease)
  {
  }

  lemma StoreFailure(s: System, m: Id, p: Plan, failed: Match, token: Option<Id>) returns (next: System)
    requires Is(s, m, p, ToFail(failed))
    ensures Called(s, next, m, p, ToRelease, token)
    ensures next.store == s.store && next.matches == Updating(s.matches, failed).0 && next.slots == s.slots
  {
    next := FailingMatch(s, m, failed);
    Advanced(s, next, m, p, ToFail(failed), ToRelease, token);
  }

  lemma ReleaseHold(s: System, m: Id, p: Plan, token: Option<Id>) returns (next: System)
    requires Is(s, m, p, ToRelease)
    ensures Called(s, next, m, p, GivenUp, token)
    ensures next.store == ReleaseAll(s.store, p.reservation, p.now).0 && next.matches == s.matches
            && next.slots == s.slots
  {
    next := ReleasingHold(s, m);
    Advanced(s, next, m, p, ToRelease, GivenUp, token);
  }
}
