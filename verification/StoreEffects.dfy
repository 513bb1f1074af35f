/**
  When the calls of the in-memory ticket store that players and the match service make go through,
  and what exactly they change (internal/matchmaking/repository/memory/ticket_store.go:35-137, 204-252, 305-324).
*/
module StoreEffects {
  import opened Prelude
  import opened Sorting
  import opened Tickets
  import opened TicketStoreSpec

  // A new ticket of a player without an active one.
  ghost predicate CanCreate(s: Store, t: Ticket) {
    t.profile.id !in s.tickets && t.profile.player !in s.active && t.state == Queued
  }

  // The ticket waits in its pool and is its player's active one.
  ghost predicate Created(s: Store, s': Store, t: Ticket, key: Id) {
    && s' == s.(tickets := s.tickets[t.profile.id := t], active := s.active[t.profile.player := t.profile.id],
                createKeys := s.createKeys[ScopedKey(t.profile.player, key) := t.profile.id], pools := s'.pools)
    && forall k, id :: id in PoolOf(s', k) <==> id in PoolOf(s, k) || (k == t.profile.pool && id == t.profile.id)
  }

  /**
    A creation under a known key answers the first ticket and changes nothing.  Otherwise it goes
    through iff the ticket is new and queued and its player has no active ticket.
  */
  lemma CreateExactly(s: Store, t: Ticket, key: Id)
    requires Inv(s) && t.Restorable()
    ensures var r, scoped := CreateQueued(s, t, key), ScopedKey(t.profile.player, key);
            && (scoped in s.createKeys ==> r == (s, Ok(s.createKeys[scoped])))
            && (scoped !in s.createKeys && CanCreate(s, t) ==> r.1 == Ok(t.profile.id) && Created(s, r.0, t, key))
            && (scoped !in s.createKeys && !CanCreate(s, t) ==>
                  r == (s, Err(if t.profile.id in s.tickets || t.profile.player in s.active then ActiveTicketExists
                               else InvalidTicketState)))
  {
    assert ActiveOk(s, t.profile.player);
    if ScopedKey(t.profile.player, key) !in s.createKeys && CanCreate(s, t) {
      CreateKeepsInv(s, t, key);
      CreatedPools(s, CreateQueued(s, t, key).0, t);
    }
  }

  lemma CreatedPools(s: Store, s': Store, t: Ticket)
    requires Inv(s) && Inv(s') && t.profile.id !in s.tickets && t.state == Queued
    requires s'.tickets == s.tickets[t.profile.id := t]
    ensures forall k, id :: id in PoolOf(s', k) <==> id in PoolOf(s, k) || (k == t.profile.pool && id == t.profile.id)
  {
    forall k, id
      ensures id in PoolOf(s', k) <==> id in PoolOf(s, k) || (k == t.profile.pool && id == t.profile.id)
    {
      assert PoolOk(s, k) && PoolOk(s', k);
      assert InPool(s', k, id) <==> InPool(s, k, id) || (k == t.profile.pool && id == t.profile.id);
    }
  }

  // The ticket is cancelled, if it was not before, and out of its pool, and its player is free.
  ghost predicate Cancelling(s: Store, s': Store, id: Id, player: Id, key: Id, now: Time)
    requires id in s.tickets
  {
    && s' == s.(tickets := s'.tickets, active := s'.active, pools := s'.pools,
                cancelKeys := s.cancelKeys[ScopedKey(player, key) := id])
    && s'.tickets == s.tickets[id := if s.tickets[id].state == Cancelled then s.tickets[id]
                                     else s.tickets[id].(state := Cancelled, reservation := NO_ID,
                                                         expiresAt := ZERO_TIME, updatedAt := now)]
    && s'.active == s.active - (if player in s.active && s.active[player] == id then {player} else {})
    && forall k, x :: x in PoolOf(s', k) <==> x in PoolOf(s, k) && x != id
  }

  // What speaks against cancelling the ticket.
  function CancelError(s: Store, id: Id, player: Id): Option<StoreError> {
    if id !in s.tickets then Some(TicketNotFound)
    else if s.tickets[id].profile.player != player then Some(TicketForbidden)
    else if s.tickets[id].state == Reserved || s.tickets[id].state == Assigned then Some(IllegalTicketTransition)
    else None
  }

  /**
    A cancellation under a known key answers the ticket if it is the same, and is forbidden if not.
    Otherwise it goes through iff the ticket is the player's and neither held nor assigned.
  */
  lemma CancelExactly(s: Store, id: Id, player: Id, key: Id, now: Time)
    requires Inv(s)
    ensures var r, scoped := Cancel(s, id, player, key, now), ScopedKey(player, key);
            && (scoped in s.cancelKeys ==> r == (s, if s.cancelKeys[scoped] == id then Ok(id)
                                                 else Err(TicketForbidden)))
            && (scoped !in s.cancelKeys && CancelError(s, id, player).None? ==>
                  r.1 == Ok(id) && Cancelling(s, r.0, id, player, key, now))
            && (scoped !in s.cancelKeys && CancelError(s, id, player).Some? ==>
                  r == (s, Err(CancelError(s, id, player).value)))
  {
    assert TicketOk(s, id);
    if ScopedKey(player, key) !in s.cancelKeys && CancelError(s, id, player).None? {
      CancelKeepsInv(s, id, player, key, now);
      CancelledPools(s, Cancel(s, id, player, key, now).0, id);
    }
  }

  lemma CancelledPools(s: Store, s': Store, id: Id)
    requires Inv(s) && Inv(s') && id in s.tickets && id in s'.tickets
    requires s'.tickets == s.tickets[id := s'.tickets[id]] && s'.tickets[id].state == Cancelled
    ensures forall k, x :: x in PoolOf(s', k) <==> x in PoolOf(s, k) && x != id
  {
    forall k, x ensures x in PoolOf(s', k) <==> x in PoolOf(s, k) && x != id {
      assert PoolOk(s, k) && PoolOk(s', k);
      assert InPool(s', k, x) <==> InPool(s, k, x) && x != id;
    }
  }

  /** A reservation that is asked for again is confirmed iff the tickets are those it holds, each once, in any order. */
  lemma ReserveAgain(s: Store, ids: seq<Id>, r: Id, expires: Time, now: Time)
    requires Inv(s) && r in s.reservations
    ensures ReserveAll(s, ids, r, expires, now).0 == s
    ensures ReserveAll(s, ids, r, expires, now).1
            == if Distinct(ids) && forall id :: id in ids <==> Held(s, id, r) then Ok(()) else Err(ReservationConflict)
  {
    assert ReservationOk(s, r);
    var held := s.reservations[r];
    if Distinct(ids) && forall id :: id in ids <==> Held(s, id, r) {
      SameWhenDistinct(ids, held);
      assert held[0] in ids;
    }
    if multiset(held) == multiset(ids) {
      DistinctPermutation(held, ids);
      forall id ensures id in ids <==> id in held { MemberOfPermutation(ids, held, id); }
    }
  }

  lemma SameWhenDistinct(a: seq<Id>, b: seq<Id>)
    requires Distinct(a) && Distinct(b) && forall x :: x in a <==> x in b
    ensures multiset(a) == multiset(b)
  {
    DistinctCount(a);
    DistinctCount(b);
    forall x ensures multiset(a)[x] == multiset(b)[x] {
      assert x in a <==> x in multiset(a);
      assert x in b <==> x in multiset(b);
    }
  }

  // The player's active ticket is assigned to the match.
  ghost predicate PlaysIn(s: Store, p: Id, m: Id) {
    && p in s.active && s.active[p] in s.tickets
    && s.tickets[s.active[p]].state == Assigned && s.tickets[s.active[p]].matchId == m
  }

  /** Completing a match takes exactly the players whose active ticket is assigned to it off the index. */
  lemma CompleteExactly(s: Store, m: Id)
    requires Inv(s)
    ensures var r := CompleteAssignedTickets(s, m);
            && (m == NO_ID ==> r == (s, Err(InvalidMatch)))
            && (m != NO_ID ==>
                  && r.1 == Ok(()) && r.0 == s.(active := r.0.active)
                  && (forall p :: p in r.0.active ==> p in s.active && r.0.active[p] == s.active[p])
                  && forall p :: p in s.active ==> (p in r.0.active <==> !PlaysIn(s, p, m)))
  {
    forall p | p in s.active ensures s.active[p] in s.tickets && s.tickets[s.active[p]].profile.player == p {
      assert ActiveOk(s, p);
    }
  }
}
