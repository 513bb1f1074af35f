/**
  What becomes of a worker's attempt that nobody disturbs
  (internal/matchmaking/application/worker.go:274-364): when exactly it succeeds, and that a failed
  one puts everything back.
*/
module UndisturbedAttempts {
  import opened Prelude
  import Tickets
  import opened TicketStoreSpec
  import opened Matches
  import opened MatchStores
  import opened Allocators
  import opened Saga
  import opened SagaInvariant
  import opened SagaSafety
  import opened AttemptCalls

  /* Compensation */

  // The attempt's own match is as given.
  predicate OwnIs(matches: map<Id, Match>, m: Id, own: Option<Match>) {
    if own.Some? then m in matches && matches[m] == own.value else m !in matches
  }

  // The slot is given back and the tickets are released; of the matches only the attempt's own changes.
  ghost predicate PutBack(s: System, s': System, m: Id, p: Plan, own: Option<Match>) {
    && m in s'.attempts && s'.attempts[m].phase == GivenUp
    && s'.store == ReleaseAll(s.store, p.reservation, p.now).0
    && s'.slots == s.slots - {m} && s'.matches - {m} == s.matches - {m} && OwnIs(s'.matches, m, own)
  }

  // The match after it has failed.
  function Broken(copy: Match, now: Time): Match {
    copy.(state := MatchState.Failed, revision := copy.revision + 1, updatedAt := now)
  }

  // A call that leaves the store and the others' matches and slots alone does not count.
  ghost predicate SameButOwn(s: System, next: System, m: Id) {
    next.store == s.store && next.slots - {m} == s.slots - {m} && next.matches - {m} == s.matches - {m}
  }

  lemma PutBackAfter(s: System, next: System, s': System, m: Id, p: Plan, own: Option<Match>)
    requires SameButOwn(s, next, m) && PutBack(next, s', m, p, own)
    ensures PutBack(s, s', m, p, own)
  {
  }

  lemma AchievedAfter(s: System, next: System, s': System, m: Id, p: Plan, slots: map<Id, Slot>, ready: Match)
    requires SameButOwn(s, next, m) && Achieved(next, s', m, p, slots, ready)
    ensures Achieved(s, s', m, p, slots, ready)
  {
  }

  lemma UpdatesOwn(matches: map<Id, Match>, copy: Match)
    ensures Updating(matches, copy).0 - {copy.id} == matches - {copy.id}
    ensures Creating(matches, copy).0 - {copy.id} == matches - {copy.id}
  {
  }

  lemma FromRelease(s: System, m: Id, p: Plan, token: Option<Id>, own: Option<Match>)
    requires Is(s, m, p, ToRelease) && m !in s.slots && OwnIs(s.matches, m, own)
    ensures PutBack(s, Outcome(s, m, token), m, p, own)
  {
    var next := ReleaseHold(s, m, p, token);
    AtTheEnd(next, m, token);
  }

  lemma FromFail(s: System, m: Id, p: Plan, copy: Match, token: Option<Id>)
    requires Is(s, m, p, ToFail(copy)) && m !in s.slots && copy.id == m
    ensures PutBack(s, Outcome(s, m, token), m, p, Some(copy))
  {
    PhaseFacts(s, m, p, ToFail(copy));
    var next := StoreFailure(s, m, p, copy, token);
    UpdatesOwn(s.matches, copy);
    FromRelease(next, m, p, token, Some(copy));
    PutBackAfter(s, next, Outcome(s, m, token), m, p, Some(copy));
  }

  lemma FromLookUp(s: System, m: Id, p: Plan, copy: Match, token: Option<Id>)
    requires Is(s, m, p, ToLookUp) && m !in s.slots && OwnIs(s.matches, m, Some(copy))
    ensures PutBack(s, Outcome(s, m, token), m, p, Some(Broken(copy, p.now)))
  {
    PhaseFacts(s, m, p, ToLookUp);
    var next := LookUp(s, m, p, token);
    FromFail(next, m, p, Broken(copy, p.now), token);
    PutBackAfter(s, next, Outcome(s, m, token), m, p, Some(Broken(copy, p.now)));
  }

  lemma FromFreeSlot(s: System, m: Id, p: Plan, copy: Match, token: Option<Id>)
    requires Is(s, m, p, ToFreeSlot) && OwnIs(s.matches, m, Some(copy))
    ensures PutBack(s, Outcome(s, m, token), m, p, Some(Broken(copy, p.now)))
  {
    var next := FreeSlot(s, m, p, token);
    FromLookUp(next, m, p, copy, token);
    PutBackAfter(s, next, Outcome(s, m, token), m, p, Some(Broken(copy, p.now)));
  }

  /* The way forward */

  // The match is stored as it was made ready, its tickets are assigned and it has the slot.
  ghost predicate Achieved(s: System, s': System, m: Id, p: Plan, slots: map<Id, Slot>, ready: Match) {
    && m in s'.attempts && s'.attempts[m].phase == Succeeded
    && s'.store == AssignAll(s.store, p.reservation, m, p.now).0
    && s'.slots == slots && s'.matches - {m} == s.matches - {m}
    && m in s'.matches && s'.matches[m] == ready
  }

  lemma FromPublish(s: System, m: Id, p: Plan, copy: Match, token: Option<Id>)
    requires Is(s, m, p, ToPublish(copy))
    ensures var s' := Outcome(s, m, token);
            && s'.attempts[m].phase == Succeeded && s'.store == s.store && s'.slots == s.slots
            && s'.matches - {m} == s.matches - {m} && m in s'.matches && s'.matches[m] == copy
  {
    PhaseFacts(s, m, p, ToPublish(copy));
    var next := Publish(s, m, p, copy, token);
    UpdatesOwn(s.matches, copy);
    AtTheEnd(next, m, token);
  }

  // The slot that the allocator hands out has everything that a ready match needs.
  predicate Usable(slot: Slot) {
    slot.address != NO_ID && slot.token != NO_ID
  }

  lemma ReadyWhenUsable(s: System, m: Id, p: Plan, copy: Match, slot: Slot)
    requires Is(s, m, p, ToAssign(copy, slot))
    ensures copy.id == m != NO_ID && (copy.MarkReady(slot.address, slot.token, p.now).Ok? <==> Usable(slot))
  {
    PhaseFacts(s, m, p, ToAssign(copy, slot));
  }

  // The match at the slot, with the next revision.
  function Readied(copy: Match, slot: Slot, now: Time): Match {
    copy.(state := Ready, address := slot.address, token := slot.token, revision := copy.revision + 1, updatedAt := now)
  }

  lemma FromUsable(s: System, m: Id, p: Plan, copy: Match, slot: Slot, token: Option<Id>)
    requires Is(s, m, p, ToAssign(copy, slot)) && p.reservation in s.store.reservations && Usable(slot)
    ensures Achieved(s, Outcome(s, m, token), m, p, s.slots, Readied(copy, slot, p.now))
  {
    ReadyWhenUsable(s, m, p, copy, slot);
    var ready := copy.MarkReady(slot.address, slot.token, p.now).value;
    var next := AssignTickets(s, m, p, copy, slot, ready, token);
    FromPublish(next, m, p, ready, token);
  }

  lemma FromUnusable(s: System, m: Id, p: Plan, copy: Match, slot: Slot, token: Option<Id>)
    requires Is(s, m, p, ToAssign(copy, slot)) && !Usable(slot)
    ensures PutBack(s, Outcome(s, m, token), m, p, Some(Broken(copy, p.now)))
  {
    PhaseFacts(s, m, p, ToAssign(copy, slot));
    ReadyWhenUsable(s, m, p, copy, slot);
    var next := AssignNothing(s, m, p, copy, slot, token);
    FromFreeSlot(next, m, p, copy, token);
    PutBackAfter(s, next, Outcome(s, m, token), m, p, Some(Broken(copy, p.now)));
  }

  // What comes of an attempt that has its hold, depending on whether it gets a slot to use.
  ghost predicate Ends(s: System, s': System, m: Id, p: Plan, usable: bool, slots: map<Id, Slot>, ready: Match,
                       own: Option<Match>)
  {
    if usable then Achieved(s, s', m, p, slots, ready) else PutBack(s, s', m, p, own)
  }

  lemma EndsAfter(s: System, next: System, s': System, m: Id, p: Plan, usable: bool, slots: map<Id, Slot>,
                  ready: Match, own: Option<Match>)
    requires SameButOwn(s, next, m) && Ends(next, s', m, p, usable, slots, ready, own)
    ensures Ends(s, s', m, p, usable, slots, ready, own)
  {
    if usable {
      AchievedAfter(s, next, s', m, p, slots, ready);
    } else {
      PutBackAfter(s, next, s', m, p, own);
    }
  }

  lemma AllocatesOwn(s: System, m: Id, p: Plan, copy: Match, token: Option<Id>)
    requires Is(s, m, p, ToAllocate(copy))
    ensures copy.id == m && m !in s.slots && OwnIs(s.matches, m, Some(copy))
    ensures Allocators.Allocating(s.slots, s.capacities, m, copy.region, token).0 - {m} == s.slots
  {
    PhaseFacts(s, m, p, ToAllocate(copy));
  }

  // What becomes of the match if the allocation succeeds.
  function ReadyAt(copy: Match, r: Result<Slot, AllocationError>, now: Time): Match {
    if r.Ok? then Readied(copy, r.value, now) else copy
  }

  lemma FromAllocate(s: System, m: Id, p: Plan, copy: Match, token: Option<Id>)
    requires Is(s, m, p, ToAllocate(copy)) && p.reservation in s.store.reservations
    ensures var r := Allocators.Allocating(s.slots, s.capacities, m, copy.region, token);
            Ends(s, Outcome(s, m, token), m, p, r.1.Ok? && Usable(r.1.value), r.0, ReadyAt(copy, r.1, p.now),
                 Some(Broken(copy, p.now)))
  {
    AllocatesOwn(s, m, p, copy, token);
    var r := Allocators.Allocating(s.slots, s.capacities, m, copy.region, token);
    var next := AllocateServer(s, m, p, copy, token);
    match r.1
    case Err(_) => FromLookUp(next, m, p, copy, token);
    case Ok(slot) =>
      if Usable(slot) {
        FromUsable(next, m, p, copy, slot, token);
      } else {
        FromUnusable(next, m, p, copy, slot, token);
      }
    EndsAfter(s, next, Outcome(s, m, token), m, p, r.1.Ok? && Usable(r.1.value), r.0, ReadyAt(copy, r.1, p.now),
              Some(Broken(copy, p.now)));
  }

  function Allocated(copy: Match, now: Time): Match {
    copy.(state := MatchState.Allocating, revision := copy.revision + 1, updatedAt := now)
  }

  lemma StartsAllocation(s: System, m: Id, p: Plan, copy: Match)
    requires Is(s, m, p, ToStart(copy))
    ensures copy.id == m && copy.StartAllocation(p.now).Ok?
    ensures copy.StartAllocation(p.now).value == Allocated(copy, p.now)
            && Updating(s.matches, Allocated(copy, p.now)).1.Ok?
  {
    PhaseFacts(s, m, p, ToStart(copy));
  }

  lemma FromStart(s: System, m: Id, p: Plan, copy: Match, token: Option<Id>)
    requires Is(s, m, p, ToStart(copy)) && p.reservation in s.store.reservations
    ensures var r := Allocators.Allocating(s.slots, s.capacities, m, copy.region, token);
            Ends(s, Outcome(s, m, token), m, p, r.1.Ok? && Usable(r.1.value), r.0,
                 ReadyAt(Allocated(copy, p.now), r.1, p.now), Some(Broken(Allocated(copy, p.now), p.now)))
  {
    StartsAllocation(s, m, p, copy);
    var started := Allocated(copy, p.now);
    var next := StartAllocation(s, m, p, copy, started, token);
    UpdatesOwn(s.matches, started);
    FromAllocate(next, m, p, started, token);
    var r := Allocators.Allocating(s.slots, s.capacities, m, copy.region, token);
    EndsAfter(s, next, Outcome(s, m, token), m, p, r.1.Ok? && Usable(r.1.value), r.0,
              ReadyAt(started, r.1, p.now), Some(Broken(started, p.now)));
  }

  // The match can be made and there is a server for it.
  predicate Supplied(s: System, m: Id, p: Plan, token: Option<Id>) {
    NewMatch(m, p.mode, p.teamA, p.teamB, p.region, p.policyVersion, p.quality, p.now).Ok? && HasServer(s, p, token)
  }

  predicate HasServer(s: System, p: Plan, token: Option<Id>) {
    CapacityOf(s.capacities, p.region) > |SlotsIn(s.slots, p.region)| && token.Some? && token.value != NO_ID
  }

  // The slots with the server that the attempt is given.
  function WithServer(s: System, m: Id, p: Plan, token: Option<Id>): map<Id, Slot> {
    if token.Some? then s.slots[m := Slot(p.region, AddressOf(p.region), token.value)] else s.slots
  }

  lemma ServerIsUsable(s: System, m: Id, p: Plan, token: Option<Id>)
    requires m !in s.slots && m != NO_ID && p.region != NO_ID
    ensures var r := Allocators.Allocating(s.slots, s.capacities, m, p.region, token);
            (r.1.Ok? && Usable(r.1.value) <==> HasServer(s, p, token))
              && (HasServer(s, p, token) ==> r.0 == WithServer(s, m, p, token)
                                             && r.1 == Ok(Slot(p.region, AddressOf(p.region), token.value)))
  {
  }

  lemma CreatesOwn(s: System, m: Id, p: Plan, copy: Match)
    requires Is(s, m, p, ToCreate)
    requires NewMatch(m, p.mode, p.teamA, p.teamB, p.region, p.policyVersion, p.quality, p.now) == Ok(copy)
    ensures m !in s.slots && m != NO_ID && copy.id == m && copy.region == p.region != NO_ID
            && Creating(s.matches, copy).1.Ok?
    ensures copy == Match(m, p.mode, p.teamA, p.teamB, MatchState.Created, p.region, NO_ID, NO_ID, p.policyVersion,
                          p.quality, None, 1, p.now, p.now)
  {
    PhaseFacts(s, m, p, ToCreate);
  }

  // The ready match of a plan, in its third revision.
  function ReadyMatch(m: Id, p: Plan, token: Option<Id>): Match {
    Match(m, p.mode, p.teamA, p.teamB, Ready, p.region, AddressOf(p.region),
          if token.Some? then token.value else NO_ID, p.policyVersion, p.quality, None, 3, p.now, p.now)
  }

  // The match of a plan that could not be served, in the same revision.
  function FailedMatch(m: Id, p: Plan): Match {
    Match(m, p.mode, p.teamA, p.teamB, MatchState.Failed, p.region, NO_ID, NO_ID, p.policyVersion, p.quality, None, 3,
          p.now, p.now)
  }

  predicate CanBeMade(m: Id, p: Plan) {
    NewMatch(m, p.mode, p.teamA, p.teamB, p.region, p.policyVersion, p.quality, p.now).Ok?
  }

  // What a failed attempt that had its hold leaves.
  function Leftover(m: Id, p: Plan): Option<Match> {
    if CanBeMade(m, p) then Some(FailedMatch(m, p)) else None
  }

  // With the match stored, the rest depends on the server.
  lemma FromStored(s: System, m: Id, p: Plan, copy: Match, token: Option<Id>)
    requires Is(s, m, p, ToCreate) && p.reservation in s.store.reservations
    requires NewMatch(m, p.mode, p.teamA, p.teamB, p.region, p.policyVersion, p.quality, p.now) == Ok(copy)
    ensures Ends(s, Outcome(s, m, token), m, p, HasServer(s, p, token), WithServer(s, m, p, token),
                 ReadyMatch(m, p, token), Some(FailedMatch(m, p)))
  {
    CreatesOwn(s, m, p, copy);
    var next := CreateMatch(s, m, p, copy, token);
    UpdatesOwn(s.matches, copy);
    FromStart(next, m, p, copy, token);
    ServerIsUsable(s, m, p, token);
    EndsAfter(s, next, Outcome(s, m, token), m, p, HasServer(s, p, token), WithServer(s, m, p, token),
              ReadyMatch(m, p, token), Some(FailedMatch(m, p)));
  }

  lemma FromCreate(s: System, m: Id, p: Plan, token: Option<Id>)
    requires Is(s, m, p, ToCreate) && p.reservation in s.store.reservations
    ensures Ends(s, Outcome(s, m, token), m, p, Supplied(s, m, p, token), WithServer(s, m, p, token),
                 ReadyMatch(m, p, token), Leftover(m, p))
  {
    match NewMatch(m, p.mode, p.teamA, p.teamB, p.region, p.policyVersion, p.quality, p.now)
    case Ok(copy) => FromStored(s, m, p, copy, token);
    case Err(_) =>
      PhaseFacts(s, m, p, ToCreate);
      var next := CreateNothing(s, m, p, token);
      FromRelease(next, m, p, token, None);
      PutBackAfter(s, next, Outcome(s, m, token), m, p, None);
  }

  // What an attempt needs: its ten tickets still wait, the hold would not be over at once, the
  // match is valid, and the region has a server left for which a token can be made.
  ghost predicate Feasible(s: System, m: Id, p: Plan, token: Option<Id>) {
    CanHold(s, p) && Supplied(s, m, p, token)
  }

  ghost predicate CanHold(s: System, p: Plan) {
    p.TicketIds() != [] && Distinct(p.TicketIds()) && AllQueued(s.store, p.TicketIds())
    && p.now < p.expires && p.expires != ZERO_TIME
  }

  // The first call.
  ghost function Hold(s: System, p: Plan): (Store, Result<(), StoreError>) {
    ReserveAll(s.store, p.TicketIds(), p.reservation, p.expires, p.now)
  }

  lemma Unheld(s: System, m: Id, p: Plan)
    requires Is(s, m, p, ToReserve)
    ensures p.reservation !in s.store.reservations && m !in s.slots && m !in s.matches && Inv(s.store)
    ensures Hold(s, p).1.Ok? ==> p.reservation in Hold(s, p).0.reservations
    ensures Hold(s, p).1.Err? ==> Hold(s, p).0 == s.store
  {
    PhaseFacts(s, m, p, ToReserve);
  }

  // What the first call comes to, and the end of the attempt then.
  lemma FromReserve(s: System, m: Id, p: Plan, token: Option<Id>)
    requires Is(s, m, p, ToReserve) && Hold(s, p).1.Ok?
    ensures Ends(s.(store := Hold(s, p).0), Outcome(s, m, token), m, p, Supplied(s, m, p, token),
                 WithServer(s, m, p, token), ReadyMatch(m, p, token), Leftover(m, p))
  {
    Unheld(s, m, p);
    var held := s.(store := Hold(s, p).0);
    var next := HoldTickets(s, m, p, token);
    FromCreate(next, m, p, token);
    EndsAfter(held, next, Outcome(s, m, token), m, p, Supplied(s, m, p, token), WithServer(s, m, p, token),
              ReadyMatch(m, p, token), Leftover(m, p));
  }

  lemma FromRefusal(s: System, m: Id, p: Plan, token: Option<Id>)
    requires Is(s, m, p, ToReserve) && Hold(s, p).1.Err?
    ensures var s' := Outcome(s, m, token);
            s'.attempts[m].phase == GivenUp && s'.store == s.store && s'.slots == s.slots && s'.matches == s.matches
  {
    Unheld(s, m, p);
    var next := HoldTickets(s, m, p, token);
    AtTheEnd(next, m, token);
  }

  lemma HoldsExactly(s: System, m: Id, p: Plan)
    requires Is(s, m, p, ToReserve)
    ensures Hold(s, p).1.Ok? <==> CanHold(s, p)
  {
    PhaseFacts(s, m, p, ToReserve);
    ReserveExactly(s.store, p.TicketIds(), p.reservation, p.expires, p.now);
  }

  /** An undisturbed attempt succeeds iff it is feasible. */
  lemma SucceedsExactly(s: System, m: Id, p: Plan, token: Option<Id>)
    requires Is(s, m, p, ToReserve)
    ensures Outcome(s, m, token).attempts[m].phase == Succeeded <==> Feasible(s, m, p, token)
  {
    HoldsExactly(s, m, p);
    if Hold(s, p).1.Ok? {
      FromReserve(s, m, p, token);
    } else {
      FromRefusal(s, m, p, token);
    }
  }

  /**
    A feasible attempt takes its tickets from waiting over held to assigned and its slot, and stores
    the plan's match, ready; no other match, ticket or slot is touched.
  */
  lemma SuccessMakesMatch(s: System, m: Id, p: Plan, token: Option<Id>)
    requires Is(s, m, p, ToReserve) && Feasible(s, m, p, token)
    ensures var s' := Outcome(s, m, token);
            && s'.store == AssignAll(ReserveAll(s.store, p.TicketIds(), p.reservation, p.expires, p.now).0,
                                     p.reservation, m, p.now).0
            && s'.slots == s.slots[m := Slot(p.region, AddressOf(p.region), token.value)]
            && s'.matches - {m} == s.matches && m in s'.matches && s'.matches[m] == ReadyMatch(m, p, token)
  {
    HoldsExactly(s, m, p);
    Unheld(s, m, p);
    FromReserve(s, m, p, token);
  }

  // The same store, but for when its tickets were last updated if they were held.
  ghost predicate Restored(s: Store, s': Store, p: Plan, held: bool) {
    && s' == s.(tickets := s'.tickets) && s'.tickets.Keys == s.tickets.Keys
    && forall id :: id in s.tickets ==>
         s'.tickets[id] == if held && id in p.TicketIds() then s.tickets[id].(updatedAt := p.now) else s.tickets[id]
  }

  lemma ReleasedStore(s: Store, p: Plan, after: Store)
    requires Inv(s) && p.reservation !in s.reservations
    requires var r := ReserveAll(s, p.TicketIds(), p.reservation, p.expires, p.now);
             r.1.Ok? && after == ReleaseAll(r.0, p.reservation, p.now).0
    ensures Restored(s, after, p, true)
  {
    ReserveThenRelease(s, p.TicketIds(), p.reservation, p.expires, p.now, p.now);
  }

  // An attempt that holds its tickets puts them back.
  lemma HeldIsUndone(s: System, m: Id, p: Plan, token: Option<Id>)
    requires Is(s, m, p, ToReserve) && Hold(s, p).1.Ok? && !Supplied(s, m, p, token)
    ensures Undone(s, Outcome(s, m, token), m, p)
  {
    Unheld(s, m, p);
    FromReserve(s, m, p, token);
    ReleasedStore(s.store, p, Outcome(s, m, token).store);
    PutBackIsUndone(s, Hold(s, p).0, Outcome(s, m, token), m, p);
  }

  ghost predicate Undone(s: System, s': System, m: Id, p: Plan) {
    && s'.slots == s.slots && s'.matches - {m} == s.matches && OwnIs(s'.matches, m, Leftover(m, p))
    && Restored(s.store, s'.store, p, true)
  }

  lemma PutBackIsUndone(s: System, held: Store, s': System, m: Id, p: Plan)
    requires PutBack(s.(store := held), s', m, p, Leftover(m, p)) && m !in s.slots && m !in s.matches
    requires Restored(s.store, s'.store, p, true)
    ensures Undone(s, s', m, p)
  {
  }

  /**
    A failed attempt leaves the stores as they were, but for the update times of its tickets and its own failed
    match: if it could hold its tickets, they were updated, and if the match could be made as well, it has failed.
  */
  lemma FailurePutsBack(s: System, m: Id, p: Plan, token: Option<Id>)
    requires Is(s, m, p, ToReserve) && !Feasible(s, m, p, token)
    ensures var s' := Outcome(s, m, token);
            && s'.slots == s.slots && s'.matches - {m} == s.matches
            && OwnIs(s'.matches, m, if CanHold(s, p) && CanBeMade(m, p) then Some(FailedMatch(m, p)) else None)
            && Restored(s.store, s'.store, p, CanHold(s, p))
  {
    HoldsExactly(s, m, p);
    if Hold(s, p).1.Ok? {
      HeldIsUndone(s, m, p, token);
    } else {
      Unheld(s, m, p);
      FromRefusal(s, m, p, token);
    }
  }
}
