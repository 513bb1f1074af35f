/**
  Matchmaking as a state machine: workers (Worker.tryPool in
  internal/matchmaking/application/worker.go), callers that start and complete matches
  (internal/matchmaking/application/match_service.go), players and the recovery of expired
  holds, interleaved over the in-memory ticket store, match store and allocator.

  Every mutex-protected call is one step; what a worker or caller computes on its own copy
  before or after the call happens in the same step.  A step that does not apply changes nothing.
*/
module Saga {
  import opened Prelude
  import Tickets
  import opened TicketStoreSpec
  import opened Matches
  import opened MatchStores
  import opened Allocators

  // What a worker has decided before its first change to a store.
  datatype Plan = Plan(
    reservation: Id,
    mode: Id,
    teamA: MatchTeam,
    teamB: MatchTeam,
    region: Id,
    policyVersion: Id,
    quality: MatchQuality,
    now: Time,
    expires: Time)
  {
    function Players(): seq<MatchPlayer> {
      teamA.players + teamB.players
    }

    function TicketIds(): seq<Id> {
      seq(|Players()|, i requires 0 <= i < |Players()| => Players()[i].ticket)
    }
  }

  // The next call of an attempt; copy is the worker's own match.
  datatype Phase =
    | ToReserve
    | ToCreate
    | ToStart(copy: Match)
    | ToAllocate(copy: Match)
    | ToAssign(copy: Match, slot: Slot)
    | ToPublish(copy: Match)
    | Succeeded
    // Compensation, in the order of Worker.tryPool.
    | ToFreeSlot
    | ToLookUp
    | ToFail(copy: Match)
    | ToRelease
    | GivenUp
    // The last update has no compensation: the attempt ends as it stands.
    | Lost

  datatype Attempt = Attempt(plan: Plan, phase: Phase)

  // The next call of StartMatch or CompleteMatch.
  datatype Call =
    | StartUpdate(copy: Match)
    | StartAgain(id: Id)
    | Started(copy: Match)
    | CompleteUpdate(copy: Match)
    | CompleteAgain(id: Id)
    | Freeing(copy: Match)
    | Releasing(copy: Match)
    | Completed(copy: Match)
    | Refused

  // Attempts are known by the id of their match.  History and finisher are observations: every
  // version a match ever had, and the caller that finished it.
  datatype System = System(
    store: Store,
    matches: map<Id, Match>,
    slots: map<Id, Slot>,
    capacities: map<Id, int>,
    attempts: map<Id, Attempt>,
    calls: map<nat, Call>,
    history: map<Id, seq<Match>>,
    finisher: map<Id, nat>)
  {
    function At(m: Id, phase: Phase): System
      requires m in attempts
    {
      this.(attempts := attempts[m := attempts[m].(phase := phase)])
    }

    function Answer(c: nat, call: Call): System {
      this.(calls := calls[c := call])
    }

    // A version that the match store has accepted.
    function Stored(m: Match): System {
      this.(matches := matches[m.id := m],
            history := history[m.id := (if m.id in history then history[m.id] else []) + [m]])
    }
  }

  function Initial(capacities: map<Id, int>): System {
    System(EMPTY, map[], map[], capacities, map[], map[], map[], map[])
  }

  datatype Event =
    | CreateTicket(ticket: Tickets.Ticket, key: Id)
    | CancelTicket(id: Id, player: Id, key: Id, now: Time)
    | Recover(now: Time)
    | Begin(m: Id, plan: Plan)
    | Advance(m: Id, token: Option<Id>)
    | CallStart(c: nat, m: Id, now: Time)
    | CallComplete(c: nat, m: Id, outcome: MatchResult, now: Time)
    | Proceed(c: nat)

  // The generated ids are new, and the players were read from tickets in the store.
  ghost predicate CanBegin(s: System, m: Id, p: Plan) {
    && m != NO_ID && m !in s.attempts && p.reservation != NO_ID
    && p.reservation !in s.store.reservations
    && (forall k :: k in s.attempts ==> s.attempts[k].plan.reservation != p.reservation)
    && forall i :: 0 <= i < |p.Players()| ==> Known(s.store, p.Players()[i])
  }

  ghost predicate Known(s: Store, p: MatchPlayer) {
    p.ticket in s.tickets && s.tickets[p.ticket].profile.player == p.player
  }

  ghost function Next(s: System, e: Event): System {
    match e
    case CreateTicket(t, key) => if t.Restorable() then s.(store := CreateQueued(s.store, t, key).0) else s
    case CancelTicket(id, player, key, now) => s.(store := TicketStoreSpec.Cancel(s.store, id, player, key, now).0)
    case Recover(now) => s.(store := RecoverExpired(s.store, now))
    case Begin(m, plan) => if CanBegin(s, m, plan) then s.(attempts := s.attempts[m := Attempt(plan, ToReserve)]) else s
    case Advance(m, token) => if m in s.attempts then Work(s, m, token) else s
    case CallStart(c, m, now) => if c in s.calls then s else s.Answer(c, StartCall(s.matches, m, now))
    case CallComplete(c, m, outcome, now) => if c in s.calls then s
                                             else s.Answer(c, CompleteCall(s.matches, m, outcome, now))
    case Proceed(c) => if c in s.calls then Proceeding(s, c) else s
  }

  // How many calls the worker still has to make at most.
  function Remaining(phase: Phase): nat {
    match phase
    case ToReserve => 10
    case ToCreate => 9
    case ToStart(_) => 8
    case ToAllocate(_) => 7
    case ToAssign(_, _) => 6
    case ToFreeSlot => 4
    case ToLookUp => 3
    case ToFail(_) => 2
    case ToRelease => 1
    case ToPublish(_) => 1
    case _ => 0
  }

  ghost predicate VersionsKept(s: System, s': System) {
    forall k :: k in s.history ==> k in s'.history && s.history[k] <= s'.history[k]
  }

  // The worker comes closer to its end; the other attempts, the callers and the versions there are stay.
  ghost predicate GetsOn(s: System, s': System, m: Id)
    requires m in s.attempts
  {
    && m in s'.attempts && s'.attempts == s.attempts[m := s.attempts[m].(phase := s'.attempts[m].phase)]
    && Remaining(s'.attempts[m].phase) < Remaining(s.attempts[m].phase)
    && VersionsKept(s, s') && s'.calls == s.calls && s'.finisher == s.finisher
  }

  lemma StoredGetsOn(s: System, m: Id, version: Match, phase: Phase)
    requires m in s.attempts && Remaining(phase) < Remaining(s.attempts[m].phase)
    ensures GetsOn(s, s.Stored(version).At(m, phase), m)
  {
  }

  // The next call is one of the match store.
  predicate StoresMatch(phase: Phase) {
    phase.ToCreate? || phase.ToStart? || phase.ToPublish? || phase.ToFail?
  }

  // Worker.tryPool, one call at a time.
  function Work(s: System, m: Id, token: Option<Id>): (s': System)
    requires m in s.attempts
    ensures s' == s || GetsOn(s, s', m)
    ensures Remaining(s.attempts[m].phase) > 0 ==> GetsOn(s, s', m)
    ensures !StoresMatch(s.attempts[m].phase) ==> s'.matches == s.matches
  {
    match s.attempts[m].phase
    case ToReserve => Reserving(s, m)
    case ToCreate => CreatingMatch(s, m)
    case ToStart(copy) => StartingAllocation(s, m, copy)
    case ToAllocate(copy) => AllocatingServer(s, m, copy, token)
    case ToAssign(copy, slot) => Assigning(s, m, copy, slot)
    case ToPublish(copy) => Publishing(s, m, copy)
    case ToFreeSlot => FreeingSlot(s, m)
    case ToLookUp => LookingUp(s, m)
    case ToFail(copy) => FailingMatch(s, m, copy)
    case ToRelease => ReleasingHold(s, m)
    case _ => s
  }

  function Reserving(s: System, m: Id): (s': System)
    requires m in s.attempts && s.attempts[m].phase == ToReserve
    ensures GetsOn(s, s', m) && s'.matches == s.matches
  {
    var p := s.attempts[m].plan;
    var r := ReserveAll(s.store, p.TicketIds(), p.reservation, p.expires, p.now);
    s.(store := r.0).At(m, if r.1.Ok? then ToCreate else GivenUp)
  }

  function CreatingMatch(s: System, m: Id): (s': System)
    requires m in s.attempts && s.attempts[m].phase == ToCreate
    ensures GetsOn(s, s', m)
  {
    var p := s.attempts[m].plan;
    match NewMatch(m, p.mode, p.teamA, p.teamB, p.region, p.policyVersion, p.quality, p.now)
    case Err(_) => s.At(m, ToRelease)
    case Ok(copy) => if Creating(s.matches, copy).1.Ok? then
                       StoredGetsOn(s, m, copy, ToStart(copy)); s.Stored(copy).At(m, ToStart(copy))
                     else s.At(m, ToRelease)
  }

  function StartingAllocation(s: System, m: Id, copy: Match): (s': System)
    requires m in s.attempts && s.attempts[m].phase == ToStart(copy)
    ensures GetsOn(s, s', m)
  {
    match copy.StartAllocation(s.attempts[m].plan.now)
    case Err(_) => s.At(m, ToRelease)
    case Ok(next) => if Updating(s.matches, next).1.Ok? then
                       StoredGetsOn(s, m, next, ToAllocate(next)); s.Stored(next).At(m, ToAllocate(next))
                     else s.At(m, ToRelease)
  }

  function AllocatingServer(s: System, m: Id, copy: Match, token: Option<Id>): (s': System)
    requires m in s.attempts && s.attempts[m].phase == ToAllocate(copy)
    ensures GetsOn(s, s', m) && s'.matches == s.matches
  {
    var r := Allocators.Allocating(s.slots, s.capacities, copy.id, copy.region, token);
    match r.1
    case Err(_) => s.At(m, ToLookUp)
    case Ok(slot) => s.(slots := r.0).At(m, ToAssign(copy, slot))
  }

  function Assigning(s: System, m: Id, copy: Match, slot: Slot): (s': System)
    requires m in s.attempts && s.attempts[m].phase == ToAssign(copy, slot)
    ensures GetsOn(s, s', m) && s'.matches == s.matches
  {
    var p := s.attempts[m].plan;
    match copy.MarkReady(slot.address, slot.token, p.now)
    case Err(_) => s.At(m, ToFreeSlot)
    case Ok(ready) =>
      var r := AssignAll(s.store, p.reservation, copy.id, p.now);
      s.(store := r.0).At(m, if r.1.Ok? then ToPublish(ready) else ToFreeSlot)
  }

  function Publishing(s: System, m: Id, copy: Match): (s': System)
    requires m in s.attempts && s.attempts[m].phase == ToPublish(copy)
    ensures GetsOn(s, s', m)
  {
    if Updating(s.matches, copy).1.Ok? then s.Stored(copy).At(m, Succeeded) else s.At(m, Lost)
  }

  function FreeingSlot(s: System, m: Id): (s': System)
    requires m in s.attempts && s.attempts[m].phase == ToFreeSlot
    ensures GetsOn(s, s', m) && s'.matches == s.matches
  {
    s.(slots := s.slots - {m}).At(m, ToLookUp)
  }

  // failStoredMatch gives up silently, and the compensation goes on.
  function LookingUp(s: System, m: Id): (s': System)
    requires m in s.attempts && s.attempts[m].phase == ToLookUp
    ensures GetsOn(s, s', m) && s'.matches == s.matches
  {
    if m !in s.matches then s.At(m, ToRelease)
    else
      match s.matches[m].Fail(s.attempts[m].plan.now)
      case Err(_) => s.At(m, ToRelease)
      case Ok(copy) => s.At(m, ToFail(copy))
  }

  function FailingMatch(s: System, m: Id, copy: Match): (s': System)
    requires m in s.attempts && s.attempts[m].phase == ToFail(copy)
    ensures GetsOn(s, s', m)
  {
    (if Updating(s.matches, copy).1.Ok? then s.Stored(copy) else s).At(m, ToRelease)
  }

  function ReleasingHold(s: System, m: Id): (s': System)
    requires m in s.attempts && s.attempts[m].phase == ToRelease
    ensures GetsOn(s, s', m) && s'.matches == s.matches
  {
    var p := s.attempts[m].plan;
    s.(store := ReleaseAll(s.store, p.reservation, p.now).0).At(m, GivenUp)
  }

  // What a caller does after its first read of the match.
  function StartCall(matches: map<Id, Match>, m: Id, now: Time): Call {
    if m !in matches then Refused
    else if matches[m].state == Running then Started(matches[m])
    else
      match matches[m].Start(now)
      case Err(_) => Refused
      case Ok(copy) => StartUpdate(copy)
  }

  function CompleteCall(matches: map<Id, Match>, m: Id, outcome: MatchResult, now: Time): Call {
    if m !in matches then Refused
    else if matches[m].state == Finished then Freeing(matches[m])
    else
      match matches[m].Complete(outcome, now)
      case Err(_) => Refused
      case Ok(copy) => CompleteUpdate(copy)
  }

  // What it does after its update was accepted or refused.
  function AfterStart(copy: Match, updated: Result<(), MatchStoreError>): Call {
    match updated
    case Ok(_) => Started(copy)
    case Err(e) => if e == MatchRevisionConflict then StartAgain(copy.id) else Refused
  }

  function AfterCompletion(copy: Match, updated: Result<(), MatchStoreError>): Call {
    match updated
    case Ok(_) => Freeing(copy)
    case Err(e) => if e == MatchRevisionConflict then CompleteAgain(copy.id) else Refused
  }

  // Only the caller's next call changes, and a completion is prepared nowhere but in the first call.
  ghost predicate GoesOn(s: System, s': System, c: nat) {
    && s'.attempts == s.attempts && VersionsKept(s, s')
    && c in s'.calls && s'.calls == s.calls[c := s'.calls[c]]
    && (s'.calls[c].CompleteUpdate? ==> c in s.calls && s'.calls[c] == s.calls[c])
  }

  ghost predicate SameMatches(s: System, s': System) {
    s'.matches == s.matches && s'.finisher == s.finisher
  }

  function Proceeding(s: System, c: nat): (s': System)
    requires c in s.calls
    ensures GoesOn(s, s', c)
    ensures !s.calls[c].StartUpdate? && !s.calls[c].CompleteUpdate? ==> SameMatches(s, s')
  {
    match s.calls[c]
    case StartUpdate(copy) => StoringStart(s, c, copy)
    case StartAgain(m) => StartingAgain(s, c, m)
    case CompleteUpdate(copy) => StoringCompletion(s, c, copy)
    case CompleteAgain(m) => CompletingAgain(s, c, m)
    case Freeing(copy) => FreeingPlayers(s, c, copy)
    case Releasing(copy) => ReleasingServer(s, c, copy)
    case _ => s
  }

  function StartingAgain(s: System, c: nat, m: Id): (s': System)
    ensures GoesOn(s, s', c) && SameMatches(s, s')
  {
    s.Answer(c, if m in s.matches && s.matches[m].state == Running then Started(s.matches[m]) else Refused)
  }

  function CompletingAgain(s: System, c: nat, m: Id): (s': System)
    ensures GoesOn(s, s', c) && SameMatches(s, s')
  {
    s.Answer(c, if m in s.matches && s.matches[m].state == Finished then Freeing(s.matches[m]) else Refused)
  }

  function ReleasingServer(s: System, c: nat, copy: Match): (s': System)
    ensures GoesOn(s, s', c) && SameMatches(s, s')
  {
    s.(slots := s.slots - {copy.id}).Answer(c, Completed(copy))
  }

  function StoringStart(s: System, c: nat, copy: Match): (s': System)
    ensures GoesOn(s, s', c)
  {
    var updated := Updating(s.matches, copy).1;
    (if updated.Ok? then s.Stored(copy) else s).Answer(c, AfterStart(copy, updated))
  }

  function StoringCompletion(s: System, c: nat, copy: Match): (s': System)
    ensures GoesOn(s, s', c)
  {
    var updated := Updating(s.matches, copy).1;
    (if updated.Ok? then s.Stored(copy).(finisher := s.finisher[copy.id := c])
     else s).Answer(c, AfterCompletion(copy, updated))
  }

  function FreeingPlayers(s: System, c: nat, copy: Match): (s': System)
    ensures GoesOn(s, s', c) && SameMatches(s, s')
  {
    var r := CompleteAssignedTickets(s.store, copy.id);
    s.(store := r.0).Answer(c, if r.1.Ok? then Releasing(copy) else Refused)
  }

  // The system after a run.
  ghost function Run(s: System, events: seq<Event>): System {
    if events == [] then s else Next(Run(s, events[..|events| - 1]), events[|events| - 1])
  }
}
