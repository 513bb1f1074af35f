/**
  TicketStore itself (internal/matchmaking/repository/memory/ticket_store.go): six maps updated
  in place.  Each method is one critical section of the mutex and is proved to do what its
  specification says; reads return clones, that is, values.
*/
module MemoryTicketStore {
  import opened Prelude
  import opened Sorting
  import opened Tickets
  import Spec = TicketStoreSpec
  import opened TicketStoreSpec
  import opened QueueReads

  class TicketStore {
    var tickets: map<Id, Ticket>
    var activeByPlayer: map<Id, Id>
    var createIdempotency: map<ScopedKey, Id>
    var cancelIdempotency: map<ScopedKey, Id>
    var pools: map<PoolKey, seq<Id>>
    var reservations: map<Id, seq<Id>>

    ghost function State(): Store
      reads this
    {
      Store(tickets, activeByPlayer, createIdempotency, cancelIdempotency, pools, reservations)
    }

    ghost predicate Valid()
      reads this
    {
      Inv(State())
    }

    constructor ()
      ensures Valid() && State() == EMPTY
    {
      tickets, activeByPlayer, createIdempotency := map[], map[], map[];
      cancelIdempotency, pools, reservations := map[], map[], map[];
    }

    method CreateQueued(ticket: Ticket, key: Id) returns (r: Result<Ticket, StoreError>)
      requires Valid() && ticket.Restorable()
      modifies this
      ensures State() == Spec.CreateQueued(old(State()), ticket, key).0
      ensures match Spec.CreateQueued(old(State()), ticket, key).1
              case Ok(id) => id in tickets && r == Ok(tickets[id])
              case Err(e) => r == Err(e)
      ensures Valid()
    {
      CreateKeepsInv(State(), ticket, key);
      var id, scoped := ticket.profile.id, ScopedKey(ticket.profile.player, key);
      if scoped in createIdempotency {
        assert KeyOk(State(), scoped);
        return Ok(tickets[createIdempotency[scoped]]);
      }
      if id in tickets {
        return Err(ActiveTicketExists);
      }
      if ticket.profile.player in activeByPlayer {
        var activeId := activeByPlayer[ticket.profile.player];
        if activeId in tickets && tickets[activeId].IsActive() {
          return Err(ActiveTicketExists);
        }
      }
      if ticket.state != Queued {
        return Err(InvalidTicketState);
      }
      Add(ticket, key);
      return Ok(ticket);
    }

    // Every index learns of the new ticket, and its pool is sorted again.
    method Add(ticket: Ticket, key: Id)
      requires ticket.profile.id !in tickets && ticket.state == Queued
      requires ticket.profile.player in activeByPlayer && activeByPlayer[ticket.profile.player] in tickets ==>
                 !tickets[activeByPlayer[ticket.profile.player]].IsActive()
      modifies this
      ensures Creates(old(State()), State(), ticket, key)
    {
      var id := ticket.profile.id;
      tickets := tickets[id := ticket];
      activeByPlayer := activeByPlayer[ticket.profile.player := id];
      createIdempotency := createIdempotency[ScopedKey(ticket.profile.player, key) := id];
      var pool := if ticket.profile.pool in pools then pools[ticket.profile.pool] else [];
      pools := pools[ticket.profile.pool := StableSort(Older(tickets), pool + [id])];
    }

    method RemoveFromPool(key: PoolKey, id: Id)
      modifies this`pools
      ensures pools == Spec.RemoveFromPool(old(pools), key, id)
    {
      var ids := if key in pools then pools[key] else [];
      for index := 0 to |ids|
        invariant id !in ids[..index]
        invariant pools == old(pools)
      {
        if ids[index] == id {
          RemoveAt(ids, index);
          pools := pools[key := ids[..index] + ids[index + 1..]];
          return;
        }
      }
    }

    method Cancel(id: Id, player: Id, key: Id, now: Time) returns (r: Result<Ticket, StoreError>)
      requires Valid()
      modifies this
      ensures State() == Spec.Cancel(old(State()), id, player, key, now).0
      ensures match Spec.Cancel(old(State()), id, player, key, now).1
              case Ok(i) => i in tickets && r == Ok(tickets[i])
              case Err(e) => r == Err(e)
      ensures Valid()
    {
      CancelKeepsInv(State(), id, player, key, now);
      var scoped := ScopedKey(player, key);
      if scoped in cancelIdempotency {
        CancelledIsStored(State(), scoped);
        if cancelIdempotency[scoped] != id {
          return Err(TicketForbidden);
        }
        return Ok(tickets[id]);
      }
      if id !in tickets {
        return Err(TicketNotFound);
      }
      var ticket := tickets[id];
      if ticket.profile.player != player {
        return Err(TicketForbidden);
      }
      var cancelled := ticket.Cancel(now);
      if cancelled.Err? {
        return Err(IllegalTicketTransition);
      }
      tickets := tickets[id := cancelled.value];
      cancelIdempotency := cancelIdempotency[scoped := id];
      if player in activeByPlayer && activeByPlayer[player] == id {
        activeByPlayer := activeByPlayer - {player};
      }
      RemoveFromPool(ticket.profile.pool, id);
      return Ok(tickets[id]);
    }

    /** The first limit queued tickets of the pool, oldest first; all of them when limit is not positive. */
    method QueueSnapshot(key: PoolKey, limit: int) returns (result: seq<Ticket>)
      requires Valid()
      ensures Lists(tickets, Spec.QueueSnapshot(State(), key, limit), result)
    {
      var ids := if key in pools then pools[key] else [];
      var bound := if limit <= 0 || limit > |ids| then |ids| else limit;
      result := [];
      for index := 0 to |ids|
        invariant Lists(tickets, Candidates(State(), ids[..index]), result)
        invariant |result| < bound || index == 0
      {
        OneMoreListed(State(), ids, index, result);
        if ids[index] in tickets && tickets[ids[index]].IsQueueCandidate() {
          result := result + [tickets[ids[index]]];
          if |result| == bound {
            BoundReached(State(), key, limit, index + 1);
            return;
          }
        }
      }
      assert ids[..|ids|] == ids;
      BoundNotReached(State(), key, limit);
    }

    /** The keys with queued tickets, sorted; the map of pools is ranged over in an arbitrary order. */
    method PoolKeys() returns (keys: seq<PoolKey>)
      requires Valid()
      ensures ArePoolKeys(State(), keys)
    {
      var found: seq<PoolKey> := [];
      var todo := pools.Keys;
      while todo != {}
        invariant todo <= pools.Keys && Distinct(found) && forall key :: key in found ==> key !in todo
        invariant forall key :: key !in todo ==> (key in found <==> Spec.QueueSnapshot(State(), key, 0) != [])
      {
        var key :| key in todo;
        var any := HasQueued(pools[key]);
        HasCandidate(State(), key);
        if any {
          found := found + [key];
        }
        todo := todo - {key};
      }
      SortedKeys(State(), found);
      return StableSort(KeyLess, found);
    }

    method HasQueued(ids: seq<Id>) returns (found: bool)
      ensures found <==> AnyQueued(tickets, ids)
    {
      for index := 0 to |ids|
        invariant forall i :: 0 <= i < index ==> !(ids[i] in tickets && tickets[ids[i]].state == Queued)
      {
        if ids[index] in tickets && tickets[ids[index]].IsQueueCandidate() {
          return true;
        }
      }
      return false;
    }

    method QueueSize() returns (count: nat)
      ensures count == |AllQueuedIds(State())|
    {
      count := 0;
      ghost var counted: set<Id> := {};
      var todo := tickets.Keys;
      while todo != {}
        invariant todo <= tickets.Keys && count == |counted|
        invariant counted == set id | id in tickets.Keys - todo && tickets[id].state == Queued
      {
        var id :| id in todo;
        if tickets[id].IsQueueCandidate() {
          count := count + 1;
          counted := counted + {id};
        }
        todo := todo - {id};
      }
      assert counted == AllQueuedIds(State());
    }

    method ReserveAll(ids: seq<Id>, r: Id, expires: Time, now: Time) returns (result: Result<seq<Ticket>, StoreError>)
      requires Valid()
      modifies this`tickets, this`reservations
      ensures State() == Spec.ReserveAll(old(State()), ids, r, expires, now).0
      ensures result.Ok? <==> Spec.ReserveAll(old(State()), ids, r, expires, now).1.Ok?
      ensures result.Ok? ==> r in reservations && Lists(tickets, reservations[r], result.value)
      ensures result.Err? ==> result.error == ReservationConflict
      ensures Valid()
    {
      ReserveKeepsInv(State(), ids, r, expires, now);
      if r == NO_ID || |ids| == 0 {
        return Err(ReservationConflict);
      }
      if r in reservations {
        var same := SameTicketIds(reservations[r], ids);
        if !same {
          return Err(ReservationConflict);
        }
        ReservationIsStored(State(), r);
        Cloned(reservations[r]);
        return Ok(CloneTickets(reservations[r]));
      }
      var staged, updated := StageReservations(ids, r, expires, now);
      if !staged {
        return Err(ReservationConflict);
      }
      tickets := tickets + updated;
      reservations := reservations[r := ids];
      ReservedAsStaged(old(State()), State(), ids, r, expires, now, updated);
      Cloned(ids);
      return Ok(CloneTickets(ids));
    }

    // Reserves clones of the tickets; nothing is stored unless all of them can be reserved.
    method StageReservations(ids: seq<Id>, r: Id, expires: Time, now: Time) returns (ok: bool, updated: map<Id, Ticket>)
      ensures ok <==> Reservable(State(), ids, r, expires, now)
      ensures ok ==> updated.Keys == Elements(ids)
                     && forall id :: id in updated ==>
                          id in tickets && updated[id] == tickets[id].Reserve(r, expires, now).value
    {
      updated := map[];
      var seenPlayers: set<Id> := {};
      for index := 0 to |ids|
        invariant Reservable(State(), ids[..index], r, expires, now)
        invariant updated.Keys == Elements(ids[..index])
        invariant forall id :: id in updated ==>
                    id in tickets && updated[id] == tickets[id].Reserve(r, expires, now).value
        invariant seenPlayers == PlayersOf(tickets, ids[..index])
      {
        var id := ids[index];
        assert ids[..index + 1] == ids[..index] + [id];
        if id in updated {
          SomeRepeat(State(), ids, index, r, expires, now);
          return false, map[];
        }
        if id !in tickets || !tickets[id].IsQueueCandidate() {
          assert !CanReserve(State(), ids[index], r, expires, now);
          return false, map[];
        }
        if tickets[id].profile.player in seenPlayers {
          SomeRepeat(State(), ids, index, r, expires, now);
          return false, map[];
        }
        seenPlayers := seenPlayers + {tickets[id].profile.player};
        var reserved := tickets[id].Reserve(r, expires, now);
        if reserved.Err? {
          assert !CanReserve(State(), ids[index], r, expires, now);
          return false, map[];
        }
        NoRepeat(State(), ids[..index], id, r, expires, now);
        updated := updated[id := reserved.value];
      }
      assert ids[..|ids|] == ids;
      return true, updated;
    }

    method ReleaseAll(r: Id, now: Time) returns (result: Result<(), StoreError>)
      requires Valid()
      modifies this`tickets, this`reservations
      ensures State() == Spec.ReleaseAll(old(State()), r, now).0 && result == Spec.ReleaseAll(old(State()), r, now).1
      ensures result.Ok? <==> r in old(reservations)
      ensures Valid()
    {
      ReleaseKeepsInv(State(), r, now);
      if r !in reservations {
        return Err(ReservationConflict);
      }
      var ids := reservations[r];
      ReleaseEffect(State(), r, now);
      HeldByReservation(State(), r);
      var staged, updated := StageReleases(ids, r, now);
      tickets := tickets + updated;
      reservations := reservations - {r};
      assert tickets == Spec.ReleaseAll(old(State()), r, now).0.tickets;
      return if staged then Ok(()) else Err(ReservationConflict);
    }

    method StageReleases(ids: seq<Id>, r: Id, now: Time) returns (ok: bool, updated: map<Id, Ticket>)
      requires r != NO_ID && forall id :: id in ids ==> Held(State(), id, r)
      ensures ok && updated.Keys == Elements(ids)
      ensures forall id :: id in updated ==> id in tickets && updated[id] == tickets[id].Cleared().Moved(Queued, now)
    {
      updated := map[];
      for index := 0 to |ids|
        invariant updated.Keys == Elements(ids[..index])
        invariant forall id :: id in updated ==>
                    id in tickets && updated[id] == tickets[id].Cleared().Moved(Queued, now)
      {
        assert ids[..index + 1] == ids[..index] + [ids[index]];
        assert Held(State(), ids[index], r);
        var released := tickets[ids[index]].ReleaseReservation(r, now);
        if released.Err? {
          return false, map[];
        }
        updated := updated[ids[index] := released.value];
      }
      assert ids[..|ids|] == ids;
      return true, updated;
    }

    /** AssignAll ranges over the map of updated tickets: the pools end up the same in any order. */
    method AssignAll(r: Id, m: Id, now: Time) returns (result: Result<seq<Ticket>, StoreError>)
      requires Valid()
      modifies this
      ensures State() == Spec.AssignAll(old(State()), r, m, now).0
      ensures result.Ok? <==> r in old(reservations) && m != NO_ID
      ensures result.Ok? ==> Lists(tickets, old(reservations)[r], result.value)
      ensures result.Err? ==> result.error == ReservationConflict
      ensures Valid()
    {
      AssignKeepsInv(State(), r, m, now);
      if r !in reservations {
        return Err(ReservationConflict);
      }
      var ids := reservations[r];
      HeldByReservation(State(), r);
      var staged, updated := StageAssignments(ids, r, m, now);
      if !staged {
        AssignNothing(State(), r, now);
        return Err(ReservationConflict);
      }
      CommitAssignments(r, m, now, updated);
      Cloned(ids);
      return Ok(CloneTickets(ids));
    }

    method CommitAssignments(r: Id, ghost m: Id, ghost now: Time, updated: map<Id, Ticket>)
      requires Inv(State()) && r in reservations && m != NO_ID && updated.Keys == Elements(reservations[r])
      requires forall id :: id in updated ==>
                 id in tickets && updated[id] == tickets[id].(matchId := m).Moved(Assigned, now)
      modifies this`tickets, this`pools, this`reservations
      ensures State() == Spec.AssignAll(old(State()), r, m, now).0
      ensures forall id :: id in old(reservations)[r] ==> id in tickets
    {
      StagedProfiles(State(), r, m, now, updated);
      tickets := tickets + updated;
      RemoveAssigned(updated, old(State()), old(reservations)[r]);
      reservations := reservations - {r};
      AssignedAsStaged(old(State()), State(), r, m, now, updated);
    }

    method StageAssignments(ids: seq<Id>, r: Id, m: Id, now: Time) returns (ok: bool, updated: map<Id, Ticket>)
      requires r != NO_ID && ids != [] && forall id :: id in ids ==> Held(State(), id, r)
      ensures ok <==> m != NO_ID
      ensures ok ==> updated.Keys == Elements(ids)
                     && forall id :: id in updated ==>
                          id in tickets && updated[id] == tickets[id].(matchId := m).Moved(Assigned, now)
    {
      updated := map[];
      for index := 0 to |ids|
        invariant index > 0 ==> m != NO_ID
        invariant updated.Keys == Elements(ids[..index])
        invariant forall id :: id in updated ==>
                    id in tickets && updated[id] == tickets[id].(matchId := m).Moved(Assigned, now)
      {
        assert ids[..index + 1] == ids[..index] + [ids[index]];
        assert Held(State(), ids[index], r);
        var moved := tickets[ids[index]].Assign(r, m, now);
        if moved.Err? {
          return false, map[];
        }
        updated := updated[ids[index] := moved.value];
      }
      assert ids[..|ids|] == ids;
      return true, updated;
    }

    method RemoveAssigned(updated: map<Id, Ticket>, ghost before: Store, ghost ids: seq<Id>)
      requires Inv(before) && pools == before.pools && updated.Keys == Elements(ids) <= before.tickets.Keys
      requires forall id :: id in updated ==> updated[id].profile == before.tickets[id].profile
      modifies this`pools
      ensures (forall i :: 0 <= i < |ids| ==> ids[i] in before.tickets)
              && pools == RemoveAll(before.pools, before.tickets, ids)
    {
      var todo := updated.Keys;
      ghost var gone: set<Id> := {};
      PoolsInOrder(before);
      while todo != {}
        invariant todo <= updated.Keys && gone == updated.Keys - todo
        invariant ShrunkAll(before, pools, gone)
      {
        var id :| id in todo;
        ShrinkOneMore(before, pools, gone, id);
        RemoveFromPool(updated[id].profile.pool, id);
        todo := todo - {id};
        gone := gone + {id};
      }
      assert gone == Elements(ids);
      SamePools(before, pools, ids);
    }

    method CompleteAssignedTickets(m: Id) returns (result: Result<(), StoreError>)
      requires Valid()
      modifies this`activeByPlayer
      ensures State() == Spec.CompleteAssignedTickets(old(State()), m).0
              && result == Spec.CompleteAssignedTickets(old(State()), m).1
      ensures Valid()
    {
      CompleteKeepsInv(State(), m);
      if m == NO_ID {
        return Err(InvalidMatch);
      }
      var todo := tickets.Keys;
      while todo != {}
        invariant todo <= tickets.Keys
        invariant forall p :: p in activeByPlayer <==>
                    p in old(activeByPlayer)
                      && !(old(activeByPlayer)[p] in tickets.Keys - todo && Done(old(State()), p, m))
        invariant forall p :: p in activeByPlayer ==> activeByPlayer[p] == old(activeByPlayer)[p]
      {
        var id :| id in todo;
        var ticket := tickets[id];
        assert TicketOk(old(State()), id);
        if AssignedTo(ticket, m) && ticket.profile.player in activeByPlayer
          && activeByPlayer[ticket.profile.player] == id {
          activeByPlayer := activeByPlayer - {ticket.profile.player};
        }
        todo := todo - {id};
      }
      forall p | p in old(activeByPlayer) ensures old(activeByPlayer)[p] in tickets {
        assert ActiveOk(old(State()), p);
      }
      assert activeByPlayer == Spec.CompleteAssignedTickets(old(State()), m).0.active;
      return Ok(());
    }

    /** Releases every lapsed reservation, in whatever order the map is ranged over, and counts the tickets. */
    method RecoverExpiredReservations(now: Time) returns (recovered: int, result: Result<(), StoreError>)
      requires Valid()
      modifies this`tickets, this`reservations
      ensures State() == RecoverExpired(old(State()), now)
      ensures result.Ok? && recovered == |RecoveredIds(old(State()), now)|
      ensures Valid()
    {
      RecoverKeepsInv(State(), now);
      ghost var before := State();
      NothingRecovered(before, now);
      recovered := 0;
      var todo := reservations.Keys;
      while todo != {}
        invariant todo <= before.reservations.Keys
        invariant RecoveredSoFar(before, tickets, reservations, todo, now)
        invariant recovered == |RecoveredFrom(before, todo, now)|
      {
        var r :| r in todo;
        var count := RecoverOne(r, before, todo, now);
        recovered := recovered + count;
        todo := todo - {r};
      }
      EverythingRecovered(before, tickets, reservations, now);
      return recovered, Ok(());
    }

    method RecoverOne(r: Id, ghost before: Store, ghost todo: set<Id>, now: Time) returns (count: nat)
      requires Inv(before) && todo <= before.reservations.Keys && r in todo
      requires RecoveredSoFar(before, tickets, reservations, todo, now)
      modifies this`tickets, this`reservations
      ensures RecoveredSoFar(before, tickets, reservations, todo - {r}, now)
      ensures |RecoveredFrom(before, todo - {r}, now)| == |RecoveredFrom(before, todo, now)| + count
    {
      count := 0;
      OneMoreIsHeld(before, State(), todo, r, now);
      var ids := reservations[r];
      if tickets[ids[0]].expiresAt <= now {
        ghost var previous := tickets;
        count := ReleaseLapsed(ids, r, now);
        AfterOneMore(before, previous, tickets, reservations, todo, r, now);
        reservations := reservations - {r};
      } else {
        NotOneMore(before, tickets, reservations, todo, r, now);
      }
    }

    // The inner loop: the tickets of one lapsed reservation.
    method ReleaseLapsed(ids: seq<Id>, ghost r: Id, now: Time) returns (count: nat)
      requires Distinct(ids) && forall id :: id in ids ==> Held(State(), id, r) && tickets[id].expiresAt <= now
      modifies this`tickets
      ensures Released(old(tickets), tickets, Elements(ids), now) && count == |ids|
    {
      count := 0;
      for index := 0 to |ids|
        invariant Released(old(tickets), tickets, Elements(ids[..index]), now) && count == index
      {
        assert ids[..index + 1] == ids[..index] + [ids[index]];
        assert ids[index] in ids && ids[index] !in ids[..index] && Held(old(State()), ids[index], r);
        var ticket := tickets[ids[index]].ReleaseExpired(now);
        tickets := tickets[ids[index] := ticket.value];
        count := count + 1;
      }
      assert ids[..|ids|] == ids;
    }

    function CloneTickets(ids: seq<Id>): seq<Ticket>
      reads this`tickets
    {
      if ids == [] then []
      else
        var init := CloneTickets(ids[..|ids| - 1]);
        if ids[|ids| - 1] in tickets then init + [tickets[ids[|ids| - 1]]] else init
    }

    lemma {:induction false} Cloned(ids: seq<Id>)
      requires forall id :: id in ids ==> id in tickets
      ensures Lists(tickets, ids, CloneTickets(ids))
    {
      if ids != [] {
        assert ids[|ids| - 1] in ids;
        Cloned(ids[..|ids| - 1]);
      }
    }
  }

  // The stored tickets with the given ids, in that order.
  predicate Lists(tickets: map<Id, Ticket>, ids: seq<Id>, result: seq<Ticket>) {
    |result| == |ids| && forall i :: 0 <= i < |ids| ==> ids[i] in tickets && result[i] == tickets[ids[i]]
  }

  ghost predicate Done(s: Store, p: Id, m: Id) {
    p in s.active && s.active[p] in s.tickets && s.tickets[s.active[p]].profile.player == p
      && AssignedTo(s.tickets[s.active[p]], m)
  }

  ghost predicate Released(before: map<Id, Ticket>, tickets: map<Id, Ticket>, ids: set<Id>, now: Time) {
    && tickets.Keys == before.Keys
    && forall id :: id in tickets ==> tickets[id] == if id in ids then before[id].Cleared().Moved(Queued, now)
       else before[id]
  }

  // The tickets of the lapsed reservations that have been dealt with.
  ghost function RecoveredFrom(s: Store, todo: set<Id>, now: Time): set<Id> {
    set id | id in s.tickets && s.tickets[id].state == Reserved && s.tickets[id].reservation !in todo
             && Lapsed(s, s.tickets[id].reservation, now)
  }

  ghost predicate RecoveredSoFar(s: Store, tickets: map<Id, Ticket>, reservations: map<Id, seq<Id>>, todo: set<Id>,
                                 now: Time)
  {
    && Released(s.tickets, tickets, RecoveredFrom(s, todo, now), now)
    && ReservationsSoFar(s, reservations, todo, now)
  }

  ghost predicate ReservationsSoFar(s: Store, reservations: map<Id, seq<Id>>, todo: set<Id>, now: Time) {
    && (forall r :: r in reservations <==> r in s.reservations && !(r !in todo && Lapsed(s, r, now)))
    && (forall r :: r in reservations ==> reservations[r] == s.reservations[r])
  }

  lemma OneReservationLess(s: Store, reservations: map<Id, seq<Id>>, todo: set<Id>, r: Id, now: Time)
    requires ReservationsSoFar(s, reservations, todo, now) && r in todo && Lapsed(s, r, now)
    ensures ReservationsSoFar(s, reservations - {r}, todo - {r}, now)
  {
  }

  lemma NothingRecovered(s: Store, now: Time)
    requires Inv(s)
    ensures RecoveredFrom(s, s.reservations.Keys, now) == {}
  {
    forall id | id in s.tickets && s.tickets[id].state == Reserved ensures s.tickets[id].reservation in s.reservations {
      assert TicketOk(s, id);
    }
  }

  // What it takes to deal with one more reservation.
  lemma LapsesTogether(s: Store, r: Id, now: Time)
    requires Inv(s) && r in s.reservations
    ensures forall id :: id in s.reservations[r] ==>
              Held(s, id, r) && (s.tickets[id].expiresAt <= now <==> Lapsed(s, r, now))
  {
    HeldByReservation(s, r);
    forall id | id in s.reservations[r] ensures s.tickets[id].expiresAt <= now <==> Lapsed(s, r, now) {
      assert Held(s, id, r);
      LapseTogether(s, id, now);
    }
  }

  lemma OneMoreRecovered(s: Store, todo: set<Id>, r: Id, now: Time)
    requires Inv(s) && todo <= s.reservations.Keys && r in todo
    ensures RecoveredFrom(s, todo - {r}, now)
         == RecoveredFrom(s, todo, now) + if Lapsed(s, r, now) then Elements(s.reservations[r]) else {}
    ensures RecoveredFrom(s, todo, now) !! Elements(s.reservations[r])
    ensures |Elements(s.reservations[r])| == |s.reservations[r]|
  {
    HeldByReservation(s, r);
    forall id | id in RecoveredFrom(s, todo - {r}, now) && id !in RecoveredFrom(s, todo, now)
      ensures id in s.reservations[r] && Lapsed(s, r, now)
    {
      assert Held(s, id, r);
    }
    forall id | id in s.reservations[r] ensures id !in RecoveredFrom(s, todo, now) {
      assert Held(s, id, r);
    }
    forall id | id in s.reservations[r] && Lapsed(s, r, now) ensures id in RecoveredFrom(s, todo - {r}, now) {
      assert Held(s, id, r);
    }
    CountElements(s.reservations[r]);
  }

  lemma OneMoreIsHeld(s: Store, current: Store, todo: set<Id>, r: Id, now: Time)
    requires Inv(s) && todo <= s.reservations.Keys
             && RecoveredSoFar(s, current.tickets, current.reservations, todo, now) && r in todo
    ensures r in current.reservations && current.reservations[r] == s.reservations[r]
    ensures var ids := s.reservations[r];
            && ids != [] && Distinct(ids)
            && (forall id :: id in ids ==>
                 Held(current, id, r)
                 && (current.tickets[id].expiresAt <= now <==> Lapsed(s, r, now)))
            && ids[0] in ids
  {
    HeldByReservation(s, r);
    LapsesTogether(s, r, now);
    OneMoreRecovered(s, todo, r, now);
    forall id | id in s.reservations[r] ensures current.tickets[id] == s.tickets[id] {
      assert Held(s, id, r);
    }
  }

  lemma NotOneMore(s: Store, tickets: map<Id, Ticket>, reservations: map<Id, seq<Id>>, todo: set<Id>, r: Id, now: Time)
    requires Inv(s) && todo <= s.reservations.Keys && RecoveredSoFar(s, tickets, reservations, todo, now)
    requires r in todo && !Lapsed(s, r, now)
    ensures RecoveredSoFar(s, tickets, reservations, todo - {r}, now)
    ensures RecoveredFrom(s, todo - {r}, now) == RecoveredFrom(s, todo, now)
  {
    OneMoreRecovered(s, todo, r, now);
  }

  lemma AfterOneMore(s: Store, tickets: map<Id, Ticket>, tickets': map<Id, Ticket>, reservations: map<Id, seq<Id>>,
                     todo: set<Id>, r: Id, now: Time)
    requires Inv(s) && todo <= s.reservations.Keys && RecoveredSoFar(s, tickets, reservations, todo, now)
    requires r in todo && Lapsed(s, r, now) && Released(tickets, tickets', Elements(s.reservations[r]), now)
    ensures RecoveredSoFar(s, tickets', reservations - {r}, todo - {r}, now)
    ensures |RecoveredFrom(s, todo - {r}, now)| == |RecoveredFrom(s, todo, now)| + |s.reservations[r]|
  {
    OneMoreRecovered(s, todo, r, now);
    ReleasedTwice(s.tickets, tickets, tickets', RecoveredFrom(s, todo, now), Elements(s.reservations[r]), now);
    DisjointSizes(RecoveredFrom(s, todo, now), Elements(s.reservations[r]));
    OneReservationLess(s, reservations, todo, r, now);
  }

  lemma DisjointSizes(a: set<Id>, b: set<Id>)
    requires a !! b
    ensures |a + b| == |a| + |b|
  {
  }

  lemma ReleasedTwice(before: map<Id, Ticket>, tickets: map<Id, Ticket>, tickets': map<Id, Ticket>, done: set<Id>,
                      more: set<Id>, now: Time)
    requires Released(before, tickets, done, now) && Released(tickets, tickets', more, now) && done !! more
    ensures Released(before, tickets', done + more, now)
  {
  }

  lemma EverythingRecovered(s: Store, tickets: map<Id, Ticket>, reservations: map<Id, seq<Id>>, now: Time)
    requires Inv(s) && RecoveredSoFar(s, tickets, reservations, {}, now)
    ensures s.(tickets := tickets, reservations := reservations) == RecoverExpired(s, now)
    ensures RecoveredFrom(s, {}, now) == RecoveredIds(s, now)
  {
    var all := RecoverExpired(s, now);
    assert reservations == all.reservations;
    forall id | id in tickets ensures tickets[id] == all.tickets[id] {
      assert id in RecoveredFrom(s, {}, now) <==>
               s.tickets[id].state == Reserved && Lapsed(s, s.tickets[id].reservation, now);
      if s.tickets[id].state == Reserved {
        LapseTogether(s, id, now);
      }
    }
    assert tickets == all.tickets;
  }

  // The pools of s without the tickets that are gone.
  ghost predicate ShrunkAll(s: Store, pools: map<PoolKey, seq<Id>>, gone: set<Id>) {
    && pools.Keys == s.pools.Keys
    && forall key {:trigger Shrunk(s.pools, pools, s.tickets, gone, key)} ::
       Shrunk(s.pools, pools, s.tickets, gone, key)
  }

  lemma PoolsInOrder(s: Store)
    requires Inv(s)
    ensures ShrunkAll(s, s.pools, {})
  {
    forall key ensures Shrunk(s.pools, s.pools, s.tickets, {}, key) {
      assert PoolOk(s, key);
      assert PoolIn(s.pools, key) == PoolOf(s, key);
    }
  }

  lemma ShrinkOneMore(s: Store, pools: map<PoolKey, seq<Id>>, gone: set<Id>, id: Id)
    requires Inv(s) && ShrunkAll(s, pools, gone) && id in s.tickets
    ensures ShrunkAll(s, RemoveFromPool(pools, s.tickets[id].profile.pool, id), gone + {id})
  {
    var pools' := RemoveFromPool(pools, s.tickets[id].profile.pool, id);
    forall key ensures Shrunk(s.pools, pools', s.tickets, gone + {id}, key) {
      assert PoolOk(s, key) && PoolIn(s.pools, key) == PoolOf(s, key);
      assert Shrunk(s.pools, pools, s.tickets, gone, key);
      forall x | x in PoolIn(pools, key) ensures x in s.tickets && s.tickets[x].profile.pool == key {
        assert InPool(s, key, x);
      }
      RemoveOneShrinks(pools, s.tickets, id, key);
      assert Shrunk(pools, pools', s.tickets, {id}, key);
    }
  }

  lemma HeldByReservation(s: Store, r: Id)
    requires Inv(s) && r in s.reservations
    ensures r != NO_ID && s.reservations[r] != [] && Distinct(s.reservations[r])
    ensures forall id :: id in s.reservations[r] <==> Held(s, id, r)
  {
    assert ReservationOk(s, r);
  }

  lemma ReservationIsStored(s: Store, r: Id)
    requires Inv(s) && r in s.reservations
    ensures forall id :: id in s.reservations[r] ==> id in s.tickets
  {
    HeldByReservation(s, r);
  }

  lemma ReservedAsStaged(s: Store, s': Store, ids: seq<Id>, r: Id, expires: Time, now: Time, updated: map<Id, Ticket>)
    requires Inv(s) && r !in s.reservations && r != NO_ID && ids != [] && Reservable(s, ids, r, expires, now)
    requires updated.Keys == Elements(ids)
    requires forall id :: id in updated ==>
               id in s.tickets
               && updated[id] == s.tickets[id].Reserve(r, expires, now).value
    requires s' == s.(tickets := s.tickets + updated, reservations := s.reservations[r := ids])
    ensures s' == Spec.ReserveAll(s, ids, r, expires, now).0 && Spec.ReserveAll(s, ids, r, expires, now).1.Ok?
    ensures forall id :: id in ids ==> id in s'.tickets
  {
    assert s'.tickets == ReserveTickets(s, ids, r, expires, now);
  }

  // Without a match id the first ticket already refuses.
  lemma AssignNothing(s: Store, r: Id, now: Time)
    requires Inv(s) && r in s.reservations
    ensures Spec.AssignAll(s, r, NO_ID, now).0 == s
  {
    AssignEffect(s, r, NO_ID, now);
  }

  lemma StagedProfiles(s: Store, r: Id, m: Id, now: Time, updated: map<Id, Ticket>)
    requires Inv(s) && r in s.reservations && updated.Keys == Elements(s.reservations[r])
    requires forall id :: id in updated ==>
               id in s.tickets && updated[id] == s.tickets[id].(matchId := m).Moved(Assigned, now)
    ensures Elements(s.reservations[r]) <= s.tickets.Keys
    ensures forall id :: id in updated ==> updated[id].profile == s.tickets[id].profile
  {
    HeldByReservation(s, r);
  }

  lemma AssignedAsStaged(s: Store, s': Store, r: Id, m: Id, now: Time, updated: map<Id, Ticket>)
    requires Inv(s) && r in s.reservations && m != NO_ID && updated.Keys == Elements(s.reservations[r])
    requires forall id :: id in updated ==>
               id in s.tickets
               && updated[id] == s.tickets[id].(matchId := m).Moved(Assigned, now)
    requires forall i :: 0 <= i < |s.reservations[r]| ==> s.reservations[r][i] in s.tickets
    requires s' == s.(tickets := s.tickets + updated, reservations := s.reservations - {r},
                      pools := RemoveAll(s.pools, s.tickets, s.reservations[r]))
    ensures s' == Spec.AssignAll(s, r, m, now).0
    ensures forall id :: id in s.reservations[r] ==> id in s'.tickets
  {
    AssignEffect(s, r, m, now);
    HeldByReservation(s, r);
    assert s'.tickets == Spec.AssignAll(s, r, m, now).0.tickets;
  }

  lemma SamePools(s: Store, pools: map<PoolKey, seq<Id>>, ids: seq<Id>)
    requires Inv(s) && Elements(ids) <= s.tickets.Keys && ShrunkAll(s, pools, Elements(ids))
    ensures forall i :: 0 <= i < |ids| ==> ids[i] in s.tickets
    ensures pools == RemoveAll(s.pools, s.tickets, ids)
  {
    forall i | 0 <= i < |ids| ensures ids[i] in s.tickets {
      assert ids[i] in Elements(ids);
    }
    var all := RemoveAll(s.pools, s.tickets, ids);
    RemoveAllKeys(s.pools, s.tickets, ids);
    forall key | key in pools ensures pools[key] == all[key] {
      SamePool(s, pools, ids, key);
    }
  }

  lemma SamePool(s: Store, pools: map<PoolKey, seq<Id>>, ids: seq<Id>, key: PoolKey)
    requires Inv(s) && forall i :: 0 <= i < |ids| ==> ids[i] in s.tickets
    requires Shrunk(s.pools, pools, s.tickets, Elements(ids), key)
    ensures PoolIn(pools, key) == PoolIn(RemoveAll(s.pools, s.tickets, ids), key)
  {
    var all := RemoveAll(s.pools, s.tickets, ids);
    assert PoolOk(s, key) && PoolIn(s.pools, key) == PoolOf(s, key);
    forall x | x in PoolIn(s.pools, key) ensures x in s.tickets && s.tickets[x].profile.pool == key {
      assert InPool(s, key, x);
    }
    RemoveAllShrinks(s.pools, s.tickets, ids, key);
    OrderDetermines(s.tickets, PoolIn(pools, key), PoolIn(all, key));
  }

  lemma {:induction false} RemoveAllKeys(pools: map<PoolKey, seq<Id>>, tickets: map<Id, Ticket>, ids: seq<Id>)
    requires forall i :: 0 <= i < |ids| ==> ids[i] in tickets
    ensures RemoveAll(pools, tickets, ids).Keys == pools.Keys
  {
    if ids != [] {
      RemoveAllKeys(pools, tickets, ids[..|ids| - 1]);
    }
  }

  // sameTicketIDs: equal lengths and equal counts.
  method SameTicketIds(left: seq<Id>, right: seq<Id>) returns (same: bool)
    ensures same <==> multiset(left) == multiset(right)
  {
    if |left| != |right| {
      if multiset(left) == multiset(right) { SameLength(left, right); }
      return false;
    }
    var counts: map<Id, int> := map[];
    for n := 0 to |left|
      invariant Counts(counts, multiset(left[..n]), multiset{})
    {
      CountedLeft(counts, left, n);
      counts := counts[left[n] := Count(counts, left[n]) + 1];
    }
    assert left[..|left|] == left;
    for n := 0 to |right|
      invariant Counts(counts, multiset(left), multiset(right[..n])) && multiset(right[..n]) <= multiset(left)
    {
      CountedRight(counts, left, right, n);
      counts := counts[right[n] := Count(counts, right[n]) - 1];
      if counts[right[n]] < 0 {
        TooMany(left, right, n);
        return false;
      }
    }
    assert right[..|right|] == right;
    EqualBags(left, right);
    return true;
  }

  // The counts of what the left bag has more than the right one.
  ghost predicate Counts(counts: map<Id, int>, left: multiset<Id>, right: multiset<Id>) {
    forall x {:trigger Count(counts, x)} :: Count(counts, x) == left[x] as int - right[x] as int
  }

  lemma CountedLeft(counts: map<Id, int>, left: seq<Id>, n: nat)
    requires n < |left| && Counts(counts, multiset(left[..n]), multiset{})
    ensures Counts(counts[left[n] := Count(counts, left[n]) + 1], multiset(left[..n + 1]), multiset{})
  {
    OneMoreInBag(left, n);
    CountedOneMore(counts, multiset(left[..n]), multiset{}, left[n]);
  }

  lemma CountedOneMore(counts: map<Id, int>, left: multiset<Id>, right: multiset<Id>, x: Id)
    requires Counts(counts, left, right)
    ensures Counts(counts[x := Count(counts, x) + 1], left + multiset{x}, right)
    ensures Counts(counts[x := Count(counts, x) - 1], left, right + multiset{x})
  {
    forall y ensures Count(counts[x := Count(counts, x) + 1], y) == (left + multiset{x})[y] as int - right[y] as int
             ensures Count(counts[x := Count(counts, x) - 1], y) == left[y] as int - (right + multiset{x})[y] as int
    {
      assert Count(counts, y) == left[y] as int - right[y] as int;
    }
  }

  lemma CountedRight(counts: map<Id, int>, left: seq<Id>, right: seq<Id>, n: nat)
    requires n < |right| && Counts(counts, multiset(left), multiset(right[..n]))
             && multiset(right[..n]) <= multiset(left)
    ensures Counts(counts[right[n] := Count(counts, right[n]) - 1], multiset(left), multiset(right[..n + 1]))
    ensures Count(counts, right[n]) >= 1 <==> multiset(right[..n + 1]) <= multiset(left)
  {
    OneMoreInBag(right, n);
    CountedOneMore(counts, multiset(left), multiset(right[..n]), right[n]);
    FitsOneMore(multiset(left), multiset(right[..n]), right[n]);
    assert Count(counts, right[n]) == multiset(left)[right[n]] as int - multiset(right[..n])[right[n]] as int;
  }

  lemma FitsOneMore(left: multiset<Id>, right: multiset<Id>, x: Id)
    requires right <= left
    ensures right + multiset{x} <= left <==> right[x] < left[x]
  {
    if !(right + multiset{x} <= left) {
      var y :| (right + multiset{x})[y] > left[y];
      assert y == x;
    } else {
      assert (right + multiset{x})[x] <= left[x];
    }
  }

  lemma OneMoreInBag(s: seq<Id>, n: nat)
    requires n < |s|
    ensures multiset(s[..n + 1]) == multiset(s[..n]) + multiset{s[n]}
  {
    assert s[..n + 1] == s[..n] + [s[n]];
  }

  lemma TooMany(left: seq<Id>, right: seq<Id>, n: nat)
    requires n < |right| && !(multiset(right[..n + 1]) <= multiset(left))
    ensures multiset(left) != multiset(right)
  {
    assert right == right[..n + 1] + right[n + 1..];
  }

  function Count(counts: map<Id, int>, x: Id): int {
    if x in counts then counts[x] else 0
  }

  lemma EqualBags(left: seq<Id>, right: seq<Id>)
    requires multiset(right) <= multiset(left) && |left| == |right|
    ensures multiset(left) == multiset(right)
  {
    var rest := multiset(left) - multiset(right);
    assert multiset(left) == multiset(right) + rest;
    assert |multiset(left)| == |left| && |multiset(right)| == |right|;
    assert |rest| == 0;
  }

  lemma {:induction false} RemoveAt(ids: seq<Id>, index: nat)
    requires index < |ids| && ids[index] !in ids[..index]
    ensures RemoveFirst(ids, ids[index]) == ids[..index] + ids[index + 1..]
  {
    if index > 0 {
      var tail := ids[1..];
      assert ids[0] in ids[..index] && ids[index] !in tail[..index - 1] by { WithoutFirst(ids, index); }
      RemoveAt(tail, index - 1);
      WithoutFirst(ids, index);
    }
  }

  lemma WithoutFirst(ids: seq<Id>, index: nat)
    requires 0 < index < |ids|
    ensures ids[..index] == [ids[0]] + ids[1..][..index - 1] && ids[1..][index..] == ids[index + 1..]
  {
  }

  lemma CancelledIsStored(s: Store, k: ScopedKey)
    requires Inv(s) && k in s.cancelKeys
    ensures s.cancelKeys[k] in s.tickets
  {
    assert KeyOk(s, k);
  }

  lemma OneMoreCandidate(s: Store, ids: seq<Id>, index: nat)
    requires index < |ids|
    ensures Candidates(s, ids[..index + 1])
            == Candidates(s, ids[..index])
               + if ids[index] in s.tickets && s.tickets[ids[index]].IsQueueCandidate() then [ids[index]] else []
  {
    assert ids[..index + 1][..index] == ids[..index];
  }

  lemma OneMoreListed(s: Store, ids: seq<Id>, index: nat, result: seq<Ticket>)
    requires index < |ids| && Lists(s.tickets, Candidates(s, ids[..index]), result)
    ensures var more := if ids[index] in s.tickets && s.tickets[ids[index]].IsQueueCandidate() then
                          [s.tickets[ids[index]]] else [];
            Lists(s.tickets, Candidates(s, ids[..index + 1]), result + more)
  {
    OneMoreCandidate(s, ids, index);
  }

  lemma BoundReached(s: Store, key: PoolKey, limit: int, n: nat)
    requires n <= |PoolOf(s, key)|
    requires |Candidates(s, PoolOf(s, key)[..n])|
             == if limit <= 0 || limit > |PoolOf(s, key)| then |PoolOf(s, key)| else limit
    ensures Spec.QueueSnapshot(s, key, limit) == Candidates(s, PoolOf(s, key)[..n])
  {
    CandidatesPrefix(s, PoolOf(s, key), n);
    CandidatesBound(s, PoolOf(s, key));
  }

  lemma BoundNotReached(s: Store, key: PoolKey, limit: int)
    requires PoolOf(s, key) == [] || limit <= 0 || limit > |PoolOf(s, key)| || |Candidates(s, PoolOf(s, key))| < limit
    ensures Spec.QueueSnapshot(s, key, limit) == Candidates(s, PoolOf(s, key))
  {
    CandidatesBound(s, PoolOf(s, key));
  }

  lemma {:induction false} CandidatesPrefix(s: Store, ids: seq<Id>, n: nat)
    requires n <= |ids|
    ensures Candidates(s, ids[..n]) <= Candidates(s, ids)
    decreases |ids|
  {
    if n < |ids| {
      CandidatesPrefix(s, ids[..|ids| - 1], n);
      assert ids[..|ids| - 1][..n] == ids[..n];
    } else {
      assert ids[..n] == ids;
    }
  }

  lemma {:induction false} CandidatesBound(s: Store, ids: seq<Id>)
    ensures |Candidates(s, ids)| <= |ids|
  {
    if ids != [] {
      CandidatesBound(s, ids[..|ids| - 1]);
    }
  }

  // The players of the tickets, as ReserveAll collects them.
  function PlayersOf(tickets: map<Id, Ticket>, ids: seq<Id>): set<Id> {
    set id | id in ids && id in tickets :: tickets[id].profile.player
  }

  lemma NoRepeat(s: Store, ids: seq<Id>, id: Id, r: Id, expires: Time, now: Time)
    requires Reservable(s, ids, r, expires, now) && CanReserve(s, id, r, expires, now)
    requires id !in ids && s.tickets[id].profile.player !in PlayersOf(s.tickets, ids)
    ensures Reservable(s, ids + [id], r, expires, now)
    ensures PlayersOf(s.tickets, ids + [id]) == PlayersOf(s.tickets, ids) + {s.tickets[id].profile.player}
  {
    assert forall x :: x in ids + [id] <==> x in ids || x == id;
  }

  // A repeated ticket or player makes the whole request a conflict.
  lemma SomeRepeat(s: Store, ids: seq<Id>, index: nat, r: Id, expires: Time, now: Time)
    requires index < |ids|
    requires ids[index] in ids[..index]
             || (ids[index] in s.tickets && s.tickets[ids[index]].profile.player in PlayersOf(s.tickets, ids[..index]))
    ensures !Reservable(s, ids, r, expires, now)
  {
    if ids[index] !in ids[..index] {
      var id :| id in ids[..index] && id in s.tickets
        && s.tickets[id].profile.player == s.tickets[ids[index]].profile.player;
      var i :| 0 <= i < index && ids[i] == id;
    }
  }
}
