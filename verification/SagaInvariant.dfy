/**
  The invariant of the matchmaking saga, and the proof that every step of every worker and
  caller keeps it.
*/
module SagaInvariant {
  import opened Prelude
  import Tickets
  import opened TicketStoreSpec
  import opened StoreStability
  import opened Matches
  import opened MatchStores
  import opened Allocators
  import opened Saga

  /* Versions */

  // Every version a match had: created by NewMatch, then one legal transition at a time.
  ghost predicate Chain(h: seq<Match>) {
    && h != [] && h[0].state == MatchState.Created && Sound(h[0])
    && (forall i :: 0 <= i < |h| ==> h[i].revision == i + 1)
    && (forall i {:trigger h[i]} :: 0 < i < |h| ==> Follows(h[i - 1], h[i]))
  }

  ghost predicate OfPlan(x: Match, m: Id, p: Plan) {
    && x.id == m && x.mode == p.mode && x.teamA == p.teamA && x.teamB == p.teamB && x.region == p.region
    && x.policyVersion == p.policyVersion && x.quality == p.quality && x.createdAt == p.now
  }

  /* One attempt with its match, its slot and its reservation */

  ghost predicate NothingStored(s: System, m: Id) {
    m !in s.matches && m !in s.slots
  }

  ghost predicate StoredAs(s: System, copy: Match, state: MatchState) {
    copy.id in s.matches && s.matches[copy.id] == copy && copy.state == state
  }

  // The match has a slot, and carries its address and token.
  ghost predicate Served(slots: map<Id, Slot>, copy: Match) {
    copy.id in slots && copy.address == slots[copy.id].address && copy.token == slots[copy.id].token
  }

  // The hold may have expired, but if it is there it is the one that was taken.
  ghost predicate HoldOk(s: System, p: Plan) {
    p.reservation in s.store.reservations ==> s.store.reservations[p.reservation] == p.TicketIds()
  }

  ghost predicate NoHold(s: System, p: Plan) {
    p.reservation !in s.store.reservations
  }

  ghost predicate AllSeated(s: Store, p: Plan, m: Id) {
    forall i {:trigger p.Players()[i]} :: 0 <= i < |p.Players()| ==> Seated(s, p.Players()[i].ticket, m)
  }

  ghost predicate AllKnown(s: Store, p: Plan) {
    forall i {:trigger p.Players()[i]} :: 0 <= i < |p.Players()| ==> Known(s, p.Players()[i])
  }

  ghost predicate Undone(s: System, m: Id) {
    m !in s.slots && (m in s.matches ==> s.matches[m].state == MatchState.Failed)
  }

  ghost predicate Waiting(s: System, m: Id) {
    m in s.matches && s.matches[m].state == MatchState.Allocating
  }

  ghost predicate PhaseOk(s: System, m: Id, p: Plan, phase: Phase) {
    match phase
    case ToReserve => NothingStored(s, m) && NoHold(s, p)
    case ToCreate => NothingStored(s, m) && HoldOk(s, p)
    case ToStart(copy) => copy.id == m && StoredAs(s, copy, MatchState.Created) && m !in s.slots && HoldOk(s, p)
    case ToAllocate(copy) => copy.id == m && StoredAs(s, copy, MatchState.Allocating) && m !in s.slots && HoldOk(s, p)
    case ToAssign(copy, slot) =>
      copy.id == m && StoredAs(s, copy, MatchState.Allocating) && m in s.slots && s.slots[m] == slot && HoldOk(s, p)
    case ToPublish(copy) =>
      && copy.id == m && Waiting(s, m) && Follows(s.matches[m], copy) && copy.state == Ready
      && Served(s.slots, copy) && NoHold(s, p) && AllSeated(s.store, p, m)
    case Succeeded =>
      && NoHold(s, p) && m in s.matches && s.matches[m].state in {Ready, Running, Finished}
      && (s.matches[m].state != Finished ==> Served(s.slots, s.matches[m]) && AllSeated(s.store, p, m))
    case ToFreeSlot => Waiting(s, m) && HoldOk(s, p)
    case ToLookUp => Waiting(s, m) && m !in s.slots && HoldOk(s, p)
    case ToFail(copy) =>
      copy.id == m && Waiting(s, m) && Follows(s.matches[m], copy) && copy.state == MatchState.Failed && m !in s.slots
        && HoldOk(s, p)
    case ToRelease => Undone(s, m) && HoldOk(s, p)
    case GivenUp => Undone(s, m) && NoHold(s, p)
    case Lost => false
  }

  ghost predicate HistoryOk(s: System, m: Id) {
    && (m in s.matches <==> m in s.history)
    && (m in s.matches ==>
          && m in s.attempts && OfPlan(s.matches[m], m, s.attempts[m].plan) && Sound(s.matches[m])
          && Chain(s.history[m]) && s.history[m][|s.history[m]| - 1] == s.matches[m])
  }

  ghost predicate EntryOk(s: System, m: Id) {
    && HistoryOk(s, m)
    && (m in s.slots ==> m in s.matches && s.slots[m].region == s.matches[m].region)
    && (m in s.attempts ==>
          && m != NO_ID && s.attempts[m].plan.reservation != NO_ID
          && AllKnown(s.store, s.attempts[m].plan)
          && PhaseOk(s, m, s.attempts[m].plan, s.attempts[m].phase))
  }

  /* One caller */

  // The caller's copy is a legal next version of one that was stored.
  ghost predicate Proposes(s: System, copy: Match) {
    && copy.id in s.history && 2 <= copy.revision <= |s.history[copy.id]| + 1
    && Follows(s.history[copy.id][copy.revision - 2], copy)
  }

  ghost predicate FinishedAs(s: System, copy: Match) {
    copy.id in s.matches && s.matches[copy.id] == copy && copy.state == Finished
  }

  ghost predicate CallOk(s: System, c: nat) {
    c in s.calls ==>
      match s.calls[c]
      case StartUpdate(copy) => Proposes(s, copy) && copy.state == Running
      case Started(copy) => copy.id in s.history && copy in s.history[copy.id] && copy.state == Running
      case CompleteUpdate(copy) => Proposes(s, copy) && copy.state == Finished
      case Freeing(copy) => FinishedAs(s, copy)
      case Releasing(copy) => FinishedAs(s, copy) && Freed(s.store, copy.id)
      case Completed(copy) => FinishedAs(s, copy) && Freed(s.store, copy.id) && copy.id !in s.slots
      case _ => true
  }

  // A slot that a finished match still holds is about to be released by the caller that finished it.
  ghost predicate SlotOwned(s: System, m: Id) {
    m in s.slots && m in s.matches && s.matches[m].state == Finished ==>
      && m in s.finisher && s.finisher[m] in s.calls
      && s.calls[s.finisher[m]] in {Freeing(s.matches[m]), Releasing(s.matches[m])}
  }

  ghost predicate Apart(s: System, a: Id, b: Id) {
    a in s.attempts && b in s.attempts && a != b ==> s.attempts[a].plan.reservation != s.attempts[b].plan.reservation
  }

  ghost predicate Safe(s: System) {
    && Inv(s.store)
    && (forall m {:trigger EntryOk(s, m)} :: EntryOk(s, m))
    && (forall c {:trigger CallOk(s, c)} :: CallOk(s, c))
    && (forall m {:trigger SlotOwned(s, m)} :: SlotOwned(s, m))
    && (forall a, b {:trigger Apart(s, a, b)} :: Apart(s, a, b))
    && (forall r {:trigger WithinCapacity(s.slots, s.capacities, r)} :: WithinCapacity(s.slots, s.capacities, r))
  }

  /* What a step leaves alone */

  ghost predicate SameEntry(s: System, s': System, m: Id) {
    && (m in s.attempts <==> m in s'.attempts) && (m in s.attempts ==> s'.attempts[m] == s.attempts[m])
    && (m in s.matches <==> m in s'.matches) && (m in s.matches ==> s'.matches[m] == s.matches[m])
    && (m in s.slots <==> m in s'.slots) && (m in s.slots ==> s'.slots[m] == s.slots[m])
    && (m in s.history <==> m in s'.history) && (m in s.history ==> s'.history[m] == s.history[m])
  }

  lemma KeepEntry(s: System, s': System, m: Id, r: Id, k: Id)
    requires EntryOk(s, m) && SameEntry(s, s', m) && Steady(s.store, s'.store, r, k) && Other(m, k)
    requires m in s.attempts ==> Other(s.attempts[m].plan.reservation, r)
    ensures EntryOk(s', m)
  {
    if m in s.attempts {
      var p := s.attempts[m].plan;
      KnownStays(s.store, s'.store, p, r, k);
      if AllSeated(s.store, p, m) {
        forall i | 0 <= i < |p.Players()| ensures Seated(s'.store, p.Players()[i].ticket, m) {
          assert Seated(s.store, p.Players()[i].ticket, m);
        }
      }
      assert NoHold(s, p) ==> NoHold(s', p);
      assert HoldOk(s, p) ==> HoldOk(s', p);
      assert PhaseOk(s', m, p, s.attempts[m].phase);
    }
  }

  lemma KnownStays(s: Store, s': Store, p: Plan, r: Id, k: Id)
    requires AllKnown(s, p) && Steady(s, s', r, k)
    ensures AllKnown(s', p)
  {
    forall i | 0 <= i < |p.Players()| ensures Known(s', p.Players()[i]) {
      assert Known(s, p.Players()[i]);
      assert SameProfile(s.tickets, s'.tickets, p.Players()[i].ticket);
    }
  }

  // Versions are only added, and what is settled about a finished match stays settled.
  ghost predicate Grows(s: System, s': System, m: Id) {
    && (m in s.history ==> m in s'.history && s.history[m] <= s'.history[m])
    && (m in s.matches && s.matches[m].state == Finished ==>
          && m in s'.matches && s'.matches[m] == s.matches[m]
          && (m !in s.slots ==> m !in s'.slots)
          && (Freed(s.store, m) ==> Freed(s'.store, m)))
  }

  lemma KeepCall(s: System, s': System, c: nat)
    requires CallOk(s, c) && c in s.calls && c in s'.calls && s'.calls[c] == s.calls[c]
    requires forall m {:trigger Grows(s, s', m)} :: Grows(s, s', m)
    ensures CallOk(s', c)
  {
    match s.calls[c]
    case StartUpdate(copy) => assert Grows(s, s', copy.id);
    case Started(copy) => assert Grows(s, s', copy.id);
    case CompleteUpdate(copy) => assert Grows(s, s', copy.id);
    case Freeing(copy) => assert Grows(s, s', copy.id);
    case Releasing(copy) => assert Grows(s, s', copy.id);
    case Completed(copy) => assert Grows(s, s', copy.id);
    case _ =>
  }

  lemma KeepSlotOwned(s: System, s': System, m: Id)
    requires SlotOwned(s, m) && Grows(s, s', m) && s'.finisher == s.finisher
    requires m in s.matches && m in s'.matches && s'.matches[m].state == Finished ==> s.matches[m].state == Finished
    requires m in s'.matches && s'.matches[m].state == Finished ==> m in s.matches
    requires forall c :: c in s.calls ==>
               c in s'.calls
               && (s.calls[c].Freeing? || s.calls[c].Releasing? ==> s'.calls[c] == s.calls[c])
    ensures SlotOwned(s', m)
  {
  }

  /* Steps that only touch the ticket store */

  lemma StoreStep(s: System, store: Store)
    requires Safe(s) && Inv(store) && Steady(s.store, store, NO_ID, NO_ID)
    ensures Safe(s.(store := store))
  {
    var s' := s.(store := store);
    forall m ensures EntryOk(s', m) && Grows(s, s', m) {
      assert EntryOk(s, m);
      KeepEntry(s, s', m, NO_ID, NO_ID);
    }
    Others(s, s');
    KeepApart(s, s');
  }

  lemma KeepApart(s: System, s': System)
    requires forall a, b {:trigger Apart(s, a, b)} :: Apart(s, a, b)
    requires s'.attempts.Keys == s.attempts.Keys && forall k :: k in s.attempts ==>
               s'.attempts[k].plan == s.attempts[k].plan
    ensures forall a, b {:trigger Apart(s', a, b)} :: Apart(s', a, b)
  {
    forall a, b ensures Apart(s', a, b) { assert Apart(s, a, b); }
  }

  // A step of the attempt for match m: nobody else's entries change, and its own end up well.
  lemma WorkerStep(s: System, s': System, m: Id, phase: Phase)
    requires Safe(s) && m in s.attempts
    requires s' == s.(store := s'.store, matches := s'.matches, slots := s'.slots, attempts := s'.attempts,
                      history := s'.history)
    requires s'.attempts == s.attempts[m := s.attempts[m].(phase := phase)]
    requires forall k :: k != m ==> SameEntry(s, s', k)
    requires Inv(s'.store) && Steady(s.store, s'.store, s.attempts[m].plan.reservation, m)
    requires EntryOk(s', m) && Grows(s, s', m)
    requires m in s'.matches && s'.matches[m].state == Finished ==> m in s.matches && s.matches[m].state == Finished
    requires forall r {:trigger WithinCapacity(s'.slots, s'.capacities, r)} ::
             WithinCapacity(s'.slots, s'.capacities, r)
    ensures Safe(s')
  {
    assert EntryOk(s, m);
    forall k ensures EntryOk(s', k) && Grows(s, s', k) {
      if k != m {
        assert EntryOk(s, k) && Apart(s, m, k) && SameEntry(s, s', k);
        KeepEntry(s, s', k, s.attempts[m].plan.reservation, m);
      }
    }
    forall k | k in s'.matches && s'.matches[k].state == Finished
      ensures k in s.matches && s.matches[k].state == Finished
    {
      assert k != m ==> SameEntry(s, s', k);
    }
    Others(s, s');
    KeepApart(s, s');
  }

  // The clauses that a step which answers no call, and finishes no match, cannot break.
  lemma Others(s: System, s': System)
    requires Safe(s) && s'.calls == s.calls && s'.finisher == s.finisher && s'.capacities == s.capacities
    requires forall m {:trigger Grows(s, s', m)} :: Grows(s, s', m)
    requires forall m :: m in s'.matches && s'.matches[m].state == Finished ==>
               m in s.matches && s.matches[m].state == Finished
    ensures forall c :: CallOk(s', c)
    ensures forall m :: SlotOwned(s', m)
  {
    forall c ensures CallOk(s', c) {
      assert CallOk(s, c);
      if c in s.calls {
        KeepCall(s, s', c);
      }
    }
    forall m ensures SlotOwned(s', m) {
      assert SlotOwned(s, m) && Grows(s, s', m);
      KeepSlotOwned(s, s', m);
    }
  }

  lemma ChainGrows(h: seq<Match>, x: Match)
    requires Chain(h) && Follows(h[|h| - 1], x)
    ensures Chain(h + [x])
  {
    var h' := h + [x];
    forall i {:trigger h'[i]} | 0 < i < |h'| ensures Follows(h'[i - 1], h'[i]) {
      if i < |h| {
        assert Follows(h[i - 1], h[i]);
      }
    }
  }

  // A legal next version of the stored match passes the revision check, and its history goes on.
  lemma NextVersion(s: System, m: Id, x: Match)
    requires HistoryOk(s, m) && m in s.matches && x.id == m && Follows(s.matches[m], x)
    ensures Updating(s.matches, x).1.Ok?
    ensures HistoryOk(s.Stored(x), m)
    ensures s.history[m] <= s.Stored(x).history[m]
  {
    ChainGrows(s.history[m], x);
    FollowsIsSound(s.matches[m], x);
  }

  // A worker's update changes its own match only.
  lemma VersionLeavesOthers(s: System, m: Id, copy: Match, phase: Phase)
    requires m in s.attempts && copy.id == m
    ensures var s' := s.Stored(copy).At(m, phase);
            && (forall k :: k != m ==> SameEntry(s, s', k))
            && s'.attempts == s.attempts[m := s.attempts[m].(phase := phase)]
            && s'.store == s.store && s'.slots == s.slots
  {
  }

  /* The worker's steps */

  lemma ReservingIsSafe(s: System, m: Id)
    requires Safe(s) && m in s.attempts && s.attempts[m].phase.ToReserve?
    ensures Safe(Reserving(s, m))
  {
    var p := s.attempts[m].plan;
    assert EntryOk(s, m);
    var r := ReserveAll(s.store, p.TicketIds(), p.reservation, p.expires, p.now);
    ReserveIsSteady(s.store, p.TicketIds(), p.reservation, p.expires, p.now);
    ReserveKeepsInv(s.store, p.TicketIds(), p.reservation, p.expires, p.now);
    KnownStays(s.store, r.0, p, p.reservation, NO_ID);
    WorkerStep(s, Reserving(s, m), m, if r.1.Ok? then ToCreate else GivenUp);
  }

  // The worker moves on without a change to the stores.
  lemma MovingOn(s: System, m: Id, phase: Phase)
    requires Safe(s) && m in s.attempts && PhaseOk(s, m, s.attempts[m].plan, phase)
    ensures Safe(s.At(m, phase))
  {
    assert EntryOk(s, m);
    assert PhaseOk(s.At(m, phase), m, s.attempts[m].plan, phase);
    WorkerStep(s, s.At(m, phase), m, phase);
  }

  lemma CreatingIsSafe(s: System, m: Id)
    requires Safe(s) && m in s.attempts && s.attempts[m].phase.ToCreate?
    ensures Safe(CreatingMatch(s, m))
  {
    var p := s.attempts[m].plan;
    assert EntryOk(s, m);
    match NewMatch(m, p.mode, p.teamA, p.teamB, p.region, p.policyVersion, p.quality, p.now)
    case Err(_) => MovingOn(s, m, ToRelease);
    case Ok(copy) => FirstVersion(s, m, copy);
  }

  lemma FirstVersion(s: System, m: Id, copy: Match)
    requires Safe(s) && m in s.attempts && s.attempts[m].phase.ToCreate?
    requires OfPlan(copy, m, s.attempts[m].plan) && Sound(copy) && copy.state == MatchState.Created
             && copy.revision == 1
    ensures Creating(s.matches, copy).1.Ok? && Safe(s.Stored(copy).At(m, ToStart(copy)))
  {
    assert EntryOk(s, m);
    var s' := s.Stored(copy).At(m, ToStart(copy));
    assert m !in s.matches && m !in s.history;
    FirstHistory(s, m, copy);
    WorkerStep(s, s', m, ToStart(copy));
  }

  lemma FirstHistory(s: System, m: Id, copy: Match)
    requires m in s.attempts && s.attempts[m].phase.ToCreate? && m !in s.matches && m !in s.history
    requires PhaseOk(s, m, s.attempts[m].plan, ToCreate)
    requires OfPlan(copy, m, s.attempts[m].plan) && Sound(copy) && copy.state == MatchState.Created
             && copy.revision == 1
    ensures var s' := s.Stored(copy).At(m, ToStart(copy));
            HistoryOk(s', m) && PhaseOk(s', m, s.attempts[m].plan, ToStart(copy))
  {
    assert s.Stored(copy).At(m, ToStart(copy)).history[m] == [copy] && Chain([copy]);
  }

  lemma StartingIsSafe(s: System, m: Id)
    requires Safe(s) && m in s.attempts && s.attempts[m].phase.ToStart?
    ensures Safe(StartingAllocation(s, m, s.attempts[m].phase.copy))
  {
    assert EntryOk(s, m);
    var next := s.attempts[m].phase.copy.StartAllocation(s.attempts[m].plan.now).value;
    NextVersion(s, m, next);
    var s' := s.Stored(next).At(m, ToAllocate(next));
    assert HistoryOk(s', m);
    WorkerStep(s, s', m, ToAllocate(next));
  }

  lemma AllocatingIsSafe(s: System, m: Id, token: Option<Id>)
    requires Safe(s) && m in s.attempts && s.attempts[m].phase.ToAllocate?
    ensures Safe(AllocatingServer(s, m, s.attempts[m].phase.copy, token))
  {
    assert EntryOk(s, m);
    var copy := s.attempts[m].phase.copy;
    var r := Allocators.Allocating(s.slots, s.capacities, m, copy.region, token);
    forall region ensures WithinCapacity(r.0, s.capacities, region) {
      AllocateWithin(s.slots, s.capacities, m, copy.region, token, region);
    }
    match r.1
    case Err(_) => MovingOn(s, m, ToLookUp);
    case Ok(slot) => AllocatedIsSafe(s, m, copy, r.0, slot);
  }

  lemma AllocatedIsSafe(s: System, m: Id, copy: Match, slots: map<Id, Slot>, slot: Slot)
    requires Safe(s) && m in s.attempts && s.attempts[m].phase == ToAllocate(copy)
    requires slots == s.slots[m := slot] && slot.region == copy.region
    requires forall region {:trigger WithinCapacity(slots, s.capacities, region)} ::
             WithinCapacity(slots, s.capacities, region)
    ensures Safe(s.(slots := slots).At(m, ToAssign(copy, slot)))
  {
    assert EntryOk(s, m);
    WorkerStep(s, s.(slots := slots).At(m, ToAssign(copy, slot)), m, ToAssign(copy, slot));
  }

  lemma AssigningIsSafe(s: System, m: Id)
    requires Safe(s) && m in s.attempts && s.attempts[m].phase.ToAssign?
    ensures Safe(Assigning(s, m, s.attempts[m].phase.copy, s.attempts[m].phase.slot))
  {
    assert EntryOk(s, m);
    var p := s.attempts[m].plan;
    var copy, slot := s.attempts[m].phase.copy, s.attempts[m].phase.slot;
    match copy.MarkReady(slot.address, slot.token, p.now)
    case Err(_) => MovingOn(s, m, ToFreeSlot);
    case Ok(ready) =>
      if AssignAll(s.store, p.reservation, m, p.now).1.Ok? {
        AssigningSeats(s, m, ready);
      } else {
        MovingOn(s, m, ToFreeSlot);
      }
  }

  lemma AssigningSeats(s: System, m: Id, ready: Match)
    requires Safe(s) && m in s.attempts && s.attempts[m].phase.ToAssign?
    requires ready.id == m && Follows(s.attempts[m].phase.copy, ready) && ready.state == Ready
    requires ready.address == s.attempts[m].phase.slot.address && ready.token == s.attempts[m].phase.slot.token
    requires AssignAll(s.store, s.attempts[m].plan.reservation, m, s.attempts[m].plan.now).1.Ok?
    ensures var store := AssignAll(s.store, s.attempts[m].plan.reservation, m, s.attempts[m].plan.now).0;
            Safe(s.(store := store).At(m, ToPublish(ready)))
  {
    assert EntryOk(s, m);
    var p := s.attempts[m].plan;
    var store := AssignAll(s.store, p.reservation, m, p.now).0;
    var s' := s.(store := store).At(m, ToPublish(ready));
    AssignIsSteady(s.store, p.reservation, m, p.now);
    AssignKeepsInv(s.store, p.reservation, m, p.now);
    KnownStays(s.store, store, p, p.reservation, m);
    SeatsOfPlan(s, store, m, p);
    SeatedEntry(s, s', m, p, ready);
    WorkerStep(s, s', m, ToPublish(ready));
  }

  lemma SeatedEntry(s: System, s': System, m: Id, p: Plan, ready: Match)
    requires m in s.attempts && s.attempts[m].plan == p && s.attempts[m].phase.ToAssign? && EntryOk(s, m)
    requires s' == s.(store := s'.store).At(m, ToPublish(ready))
    requires ready.id == m && Follows(s.attempts[m].phase.copy, ready) && ready.state == Ready
    requires ready.address == s.attempts[m].phase.slot.address && ready.token == s.attempts[m].phase.slot.token
    requires NoHold(s', p) && AllSeated(s'.store, p, m) && AllKnown(s'.store, p)
    ensures EntryOk(s', m) && Grows(s, s', m)
    ensures forall k :: k != m ==> SameEntry(s, s', k)
  {
    assert PhaseOk(s', m, p, ToPublish(ready));
  }

  lemma SeatsOfPlan(s: System, store: Store, m: Id, p: Plan)
    requires p.reservation in s.store.reservations && HoldOk(s, p)
    requires forall id :: id in s.store.reservations[p.reservation] ==> Seated(store, id, m)
    ensures AllSeated(store, p, m)
  {
    forall i | 0 <= i < |p.Players()| ensures Seated(store, p.Players()[i].ticket, m) {
      assert p.TicketIds()[i] in p.TicketIds();
    }
  }

  /** The update that has no compensation cannot fail. */
  lemma PublishingIsSafe(s: System, m: Id)
    requires Safe(s) && m in s.attempts && s.attempts[m].phase.ToPublish?
    ensures Safe(Publishing(s, m, s.attempts[m].phase.copy))
    ensures Publishing(s, m, s.attempts[m].phase.copy).attempts[m].phase == Succeeded
  {
    assert EntryOk(s, m);
    var copy := s.attempts[m].phase.copy;
    NextVersion(s, m, copy);
    var s' := s.Stored(copy).At(m, Succeeded);
    assert HistoryOk(s', m);
    WorkerStep(s, s', m, Succeeded);
  }

  lemma FreeingSlotIsSafe(s: System, m: Id)
    requires Safe(s) && m in s.attempts && s.attempts[m].phase.ToFreeSlot?
    ensures Safe(FreeingSlot(s, m))
  {
    assert EntryOk(s, m);
    forall region ensures WithinCapacity(s.slots - {m}, s.capacities, region) {
      ReleaseWithin(s.slots, s.capacities, m, region);
    }
    WorkerStep(s, s.(slots := s.slots - {m}).At(m, ToLookUp), m, ToLookUp);
  }

  lemma LookingUpIsSafe(s: System, m: Id)
    requires Safe(s) && m in s.attempts && s.attempts[m].phase.ToLookUp?
    ensures Safe(LookingUp(s, m))
  {
    assert EntryOk(s, m);
    var copy := s.matches[m].Fail(s.attempts[m].plan.now).value;
    WorkerStep(s, s.At(m, ToFail(copy)), m, ToFail(copy));
  }

  lemma FailingIsSafe(s: System, m: Id)
    requires Safe(s) && m in s.attempts && s.attempts[m].phase.ToFail?
    ensures Safe(FailingMatch(s, m, s.attempts[m].phase.copy))
  {
    assert EntryOk(s, m);
    var copy := s.attempts[m].phase.copy;
    NextVersion(s, m, copy);
    var s' := s.Stored(copy).At(m, ToRelease);
    VersionLeavesOthers(s, m, copy, ToRelease);
    FailedEntry(s, s', m, copy);
    WorkerStep(s, s', m, ToRelease);
  }

  lemma FailedEntry(s: System, s': System, m: Id, copy: Match)
    requires m in s.attempts && s.attempts[m].phase == ToFail(copy) && EntryOk(s, m)
    requires s' == s.Stored(copy).At(m, ToRelease) && HistoryOk(s.Stored(copy), m)
    ensures EntryOk(s', m) && Grows(s, s', m)
  {
    assert HistoryOk(s', m);
  }

  lemma ReleasingIsSafe(s: System, m: Id)
    requires Safe(s) && m in s.attempts && s.attempts[m].phase.ToRelease?
    ensures Safe(ReleasingHold(s, m))
  {
    assert EntryOk(s, m);
    var p := s.attempts[m].plan;
    var store := ReleaseAll(s.store, p.reservation, p.now).0;
    ReleaseIsSteady(s.store, p.reservation, p.now);
    ReleaseKeepsInv(s.store, p.reservation, p.now);
    KnownStays(s.store, store, p, p.reservation, NO_ID);
    WorkerStep(s, s.(store := store).At(m, GivenUp), m, GivenUp);
  }

  lemma WorkIsSafe(s: System, m: Id, token: Option<Id>)
    requires Safe(s) && m in s.attempts
    ensures Safe(Work(s, m, token))
  {
    match s.attempts[m].phase
    case ToReserve => ReservingIsSafe(s, m);
    case ToCreate => CreatingIsSafe(s, m);
    case ToStart(_) => StartingIsSafe(s, m);
    case ToAllocate(_) => AllocatingIsSafe(s, m, token);
    case ToAssign(_, _) => AssigningIsSafe(s, m);
    case ToPublish(_) => PublishingIsSafe(s, m);
    case ToFreeSlot => FreeingSlotIsSafe(s, m);
    case ToLookUp => LookingUpIsSafe(s, m);
    case ToFail(_) => FailingIsSafe(s, m);
    case ToRelease => ReleasingIsSafe(s, m);
    case _ =>
  }
}
