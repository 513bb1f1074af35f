/**
  What an operation on the ticket store may change for the others: the facts about reservations,
  assigned tickets and finished matches that one caller can rely on while others use the store.
*/
module StoreStability {
  import opened Prelude
  import opened Tickets
  import opened TicketStoreSpec

  // The ticket is assigned to the match and is its player's active one.
  ghost predicate Seated(s: Store, id: Id, m: Id) {
    id in s.tickets && AssignedTo(s.tickets[id], m) && IsActiveOf(s, id)
  }

  // No player is kept busy by the match.
  ghost predicate Freed(s: Store, m: Id) {
    forall p {:trigger Busy(s, p, m)} :: !Busy(s, p, m)
  }

  ghost predicate Busy(s: Store, p: Id, m: Id) {
    p in s.active && s.active[p] in s.tickets && AssignedTo(s.tickets[s.active[p]], m)
  }

  // From s to s' nothing happened to other reservations than r or to the tickets of other matches
  // than m, and every ticket kept its profile.  NO_ID stands for none.
  ghost predicate Steady(s: Store, s': Store, r: Id, m: Id) {
    && (forall id {:trigger SameProfile(s.tickets, s'.tickets, id)} :: id in s.tickets ==>
        SameProfile(s.tickets, s'.tickets, id))
    && (forall q :: q in s'.reservations && Other(q, r) ==>
        q in s.reservations && s'.reservations[q] == s.reservations[q])
    && (forall id, k {:trigger Seated(s', id, k)} :: Seated(s, id, k) && Other(k, m) ==> Seated(s', id, k))
    && (forall k {:trigger Freed(s', k)} :: Freed(s, k) && Other(k, m) ==> Freed(s', k))
  }

  ghost predicate Other(x: Id, exempt: Id) {
    exempt == NO_ID || x != exempt
  }

  lemma CreateIsSteady(s: Store, t: Ticket, key: Id)
    requires Inv(s) && t.Restorable()
    ensures Steady(s, CreateQueued(s, t, key).0, NO_ID, NO_ID)
  {
    var s' := CreateQueued(s, t, key).0;
    if s' != s {
      CreatedIsSteady(s, s', t, key);
    }
  }

  lemma CreatedIsSteady(s: Store, s': Store, t: Ticket, key: Id)
    requires Inv(s) && Creates(s, s', t, key)
    ensures Steady(s, s', NO_ID, NO_ID)
  {
    forall k | Freed(s, k) ensures Freed(s', k) {
      forall p ensures !Busy(s', p, k) { CreatedIsFree(s, s', t, key, p, k); }
    }
    forall id, k | Seated(s, id, k) ensures Seated(s', id, k) { CreatedKeepsSeats(s, s', t, key, id, k); }
  }

  // A new ticket is queued, so it keeps nobody busy.
  lemma CreatedIsFree(s: Store, s': Store, t: Ticket, key: Id, p: Id, k: Id)
    requires Inv(s) && Creates(s, s', t, key) && !Busy(s, p, k)
    ensures !Busy(s', p, k)
  {
    assert ActiveOk(s, p);
  }

  lemma CreatedKeepsSeats(s: Store, s': Store, t: Ticket, key: Id, id: Id, k: Id)
    requires Inv(s) && Creates(s, s', t, key) && Seated(s, id, k)
    ensures Seated(s', id, k)
  {
    assert TicketOk(s, id);
  }

  lemma CancelIsSteady(s: Store, id: Id, player: Id, key: Id, now: Time)
    requires Inv(s)
    ensures Steady(s, Cancel(s, id, player, key, now).0, NO_ID, NO_ID)
  {
    var s' := Cancel(s, id, player, key, now).0;
    forall k | Freed(s, k) ensures Freed(s', k) {
      forall p ensures !Busy(s', p, k) { assert !Busy(s, p, k); }
    }
    forall x, k | Seated(s, x, k) ensures Seated(s', x, k) { assert TicketOk(s, x) && TicketOk(s, id); }
  }

  // Holds come and go, and nothing else changes.
  lemma HoldsAreSteady(s: Store, s': Store, r: Id)
    requires Inv(s) && OnlyHolds(s, s')
    requires forall q :: q in s'.reservations && Other(q, r) ==>
               q in s.reservations && s'.reservations[q] == s.reservations[q]
    ensures Steady(s, s', r, NO_ID)
  {
    forall k | Freed(s, k) ensures Freed(s', k) {
      forall p ensures !Busy(s', p, k) { assert !Busy(s, p, k) && ActiveOk(s, p); }
    }
    forall id, k | Seated(s, id, k) ensures Seated(s', id, k) {}
  }

  lemma ReserveIsSteady(s: Store, ids: seq<Id>, r: Id, expires: Time, now: Time)
    requires Inv(s)
    ensures Steady(s, ReserveAll(s, ids, r, expires, now).0, r, NO_ID)
    ensures r !in s.reservations && ReserveAll(s, ids, r, expires, now).1.Ok? ==>
              r in ReserveAll(s, ids, r, expires, now).0.reservations
                && ReserveAll(s, ids, r, expires, now).0.reservations[r] == ids
    ensures r !in s.reservations && ReserveAll(s, ids, r, expires, now).1.Err? ==>
              r !in ReserveAll(s, ids, r, expires, now).0.reservations
  {
    if r !in s.reservations && ReserveAll(s, ids, r, expires, now).1.Ok? {
      ReserveEffect(s, ids, r, expires, now);
    }
    HoldsAreSteady(s, ReserveAll(s, ids, r, expires, now).0, r);
  }

  lemma ReleaseIsSteady(s: Store, r: Id, now: Time)
    requires Inv(s)
    ensures Steady(s, ReleaseAll(s, r, now).0, r, NO_ID) && r !in ReleaseAll(s, r, now).0.reservations
  {
    if r in s.reservations {
      ReleaseEffect(s, r, now);
      HoldsAreSteady(s, ReleaseAll(s, r, now).0, r);
    }
  }

  lemma RecoverIsSteady(s: Store, now: Time)
    requires Inv(s)
    ensures Steady(s, RecoverExpired(s, now), NO_ID, NO_ID)
  {
    RecoverEffect(s, now);
    HoldsAreSteady(s, RecoverExpired(s, now), NO_ID);
  }

  /** Assigning a reservation seats every ticket it lists. */
  lemma AssignIsSteady(s: Store, r: Id, m: Id, now: Time)
    requires Inv(s) && m != NO_ID
    ensures Steady(s, AssignAll(s, r, m, now).0, r, m) && r !in AssignAll(s, r, m, now).0.reservations
    ensures r in s.reservations ==> forall id :: id in s.reservations[r] ==> Seated(AssignAll(s, r, m, now).0, id, m)
    ensures AssignAll(s, r, m, now).1.Ok? <==> r in s.reservations
  {
    var s' := AssignAll(s, r, m, now).0;
    if r in s.reservations {
      AssignEffect(s, r, m, now);
      assert ReservationOk(s, r);
      forall id | id in s.reservations[r] ensures Seated(s', id, m) {
        assert Held(s, id, r) && TicketOk(s, id);
      }
      forall k | Freed(s, k) && k != m ensures Freed(s', k) {
        forall p ensures !Busy(s', p, k) { assert !Busy(s, p, k); }
      }
      forall id, k | Seated(s, id, k) && k != m ensures Seated(s', id, k) {}
    }
  }

  lemma CompleteIsSteady(s: Store, m: Id)
    requires Inv(s) && m != NO_ID
    ensures Steady(s, CompleteAssignedTickets(s, m).0, NO_ID, m)
    ensures Freed(CompleteAssignedTickets(s, m).0, m)
  {
    var s' := CompleteAssignedTickets(s, m).0;
    forall p ensures !Busy(s', p, m) { assert ActiveOk(s, p); }
    forall k | Freed(s, k) ensures Freed(s', k) {
      forall p ensures !Busy(s', p, k) { assert !Busy(s, p, k); }
    }
    forall id, k | Seated(s, id, k) && k != m ensures Seated(s', id, k) {}
  }
}
