/**
  Creation and cancellation under an idempotency key
  (internal/matchmaking/repository/memory/ticket_store.go:35-137), over any later use of the store.
*/
module IdempotentRequests {
  import opened Prelude
  import opened Tickets
  import opened TicketStoreSpec

  datatype Operation =
    | Creating(ticket: Ticket, key: Id)
    | Cancelling(id: Id, player: Id, key: Id, now: Time)
    | Reserving(ids: seq<Id>, r: Id, expires: Time, now: Time)
    | Releasing(r: Id, now: Time)
    | Assigning(r: Id, m: Id, now: Time)
    | Completing(m: Id)
    | Recovering(now: Time)

  function After(s: Store, o: Operation): Store {
    match o
    case Creating(t, key) => CreateQueued(s, t, key).0
    case Cancelling(id, player, key, now) => Cancel(s, id, player, key, now).0
    case Reserving(ids, r, expires, now) => ReserveAll(s, ids, r, expires, now).0
    case Releasing(r, now) => ReleaseAll(s, r, now).0
    case Assigning(r, m, now) => AssignAll(s, r, m, now).0
    case Completing(m) => CompleteAssignedTickets(s, m).0
    case Recovering(now) => RecoverExpired(s, now)
  }

  function AfterAll(s: Store, operations: seq<Operation>): Store {
    if operations == [] then s else After(AfterAll(s, operations[..|operations| - 1]), operations[|operations| - 1])
  }

  ghost predicate KeysKept(s: Store, s': Store) {
    && (forall k :: k in s.createKeys ==> k in s'.createKeys && s'.createKeys[k] == s.createKeys[k])
    && (forall k :: k in s.cancelKeys ==> k in s'.cancelKeys && s'.cancelKeys[k] == s.cancelKeys[k])
  }

  lemma OneKeepsKeys(s: Store, o: Operation)
    ensures KeysKept(s, After(s, o))
  {
    match o
    case Creating(_, _) =>
    case Cancelling(_, _, _, _) =>
    case _ =>
  }

  lemma {:induction false} AllKeepKeys(s: Store, operations: seq<Operation>)
    ensures KeysKept(s, AfterAll(s, operations))
  {
    if operations != [] {
      AllKeepKeys(s, operations[..|operations| - 1]);
      OneKeepsKeys(AfterAll(s, operations[..|operations| - 1]), operations[|operations| - 1]);
    }
  }

  /**
    Repeating an accepted creation under its key answers the first ticket and changes nothing, whatever
    happened since.
  */
  lemma CreationIsIdempotent(s: Store, t: Ticket, key: Id, operations: seq<Operation>, again: Ticket)
    requires CreateQueued(s, t, key).1.Ok? && again.profile.player == t.profile.player
    ensures var later := AfterAll(CreateQueued(s, t, key).0, operations);
            CreateQueued(later, again, key) == (later, CreateQueued(s, t, key).1)
  {
    AllKeepKeys(CreateQueued(s, t, key).0, operations);
    assert ScopedKey(t.profile.player, key) in CreateQueued(s, t, key).0.createKeys;
  }

  /**
    Repeating an accepted cancellation answers the same ticket and changes nothing; the key is good for no
    other ticket.
  */
  lemma CancellationIsIdempotent(s: Store, id: Id, player: Id, key: Id, now: Time, operations: seq<Operation>,
                                 other: Id, later: Time)
    requires Cancel(s, id, player, key, now).1.Ok?
    ensures var s' := AfterAll(Cancel(s, id, player, key, now).0, operations);
            Cancel(s', other, player, key, later) == (s', if other == id then Ok(id) else Err(TicketForbidden))
  {
    AllKeepKeys(Cancel(s, id, player, key, now).0, operations);
    assert ScopedKey(player, key) in Cancel(s, id, player, key, now).0.cancelKeys;
  }
}
