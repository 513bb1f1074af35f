/**
  Agreement of the Redis structures over whole runs, and exactly where it can be lost
  (internal/matchmaking/repository/redis/queue.go:62-128).
*/
module RedisAgreement {
  import opened Prelude
  import opened Tickets
  import opened RedisScripts

  lemma VanishAgrees(db: Redis, r: Id)
    requires Agree(db)
    ensures Agree(Vanish(db, r))
  {
    var db' := Vanish(db, r);
    forall id ensures TicketAgrees(db', id) { assert TicketAgrees(db, id); }
    forall e ensures EntryAgrees(db', e) { assert EntryAgrees(db, e); }
    forall q ensures SetAgrees(db', q) {
      assert SetAgrees(db, q);
      if q == r {
        NoMembers(db', r);
      } else {
        KeepSet(db, db', q);
      }
    }
  }

  /** The set of a reservation only saves the scan of the hash: release ends in the same state without it. */
  lemma ReleaseWithoutSet(db: Redis, r: Id)
    requires Agree(db)
    ensures Release(Vanish(db, r), r) == Release(db, r)
  {
    VanishAgrees(db, r);
    ReleaseAgrees(db, r);
    ReleaseAgrees(Vanish(db, r), r);
    VanishTwice(db, r);
  }

  /** Finalizing, too, ends in the same state without the set. */
  lemma FinalizeWithoutSet(db: Redis, r: Id, m: Id)
    requires Agree(db)
    ensures Finalize(Vanish(db, r), r, m) == Finalize(db, r, m)
  {
    VanishAgrees(db, r);
    FinalizeAgrees(db, r, m);
    FinalizeAgrees(Vanish(db, r), r, m);
    VanishTwice(db, r);
  }

  lemma VanishTwice(db: Redis, r: Id)
    ensures Delete(Delete(db.members, r), r) == Delete(db.members, r)
    ensures HeldBy(Vanish(db, r), r) == HeldBy(db, r)
  {
  }

  /** Releasing what was just reserved restores every structure. */
  lemma ReserveThenRelease(db: Redis, ids: set<Id>, r: Id, expires: Time)
    requires Agree(db) && HeldBy(db, r) == {} && Reserve(db, ids, r, expires).1.Ok?
    ensures Release(Reserve(db, ids, r, expires).0, r) == (db, Ok(|ids|))
  {
    NotHeldYet(db, ids, r);
    ReserveAgrees(db, ids, r, expires);
    HeldAfterHold(db, ids, r, expires);
    ReleaseAgrees(Hold(db, ids, r, expires), r);
    RestoredHash(db, ids, r, expires);
    RestoredQueues(db, ids, r, expires);
    RestoredMembers(db, ids, r, expires);
  }

  lemma HeldAfterHold(db: Redis, ids: set<Id>, r: Id, expires: Time)
    requires HeldBy(db, r) == {}
    ensures HeldBy(Hold(db, ids, r, expires), r) == ids
  {
    forall id ensures id in HeldBy(Hold(db, ids, r, expires), r) <==> id in ids {
      assert id !in HeldBy(db, r);
    }
  }

  lemma NotHeldYet(db: Redis, ids: set<Id>, r: Id)
    requires ids != {} && HeldBy(db, r) == {}
    ensures !AllHeld(db, ids, r)
  {
    var id :| id in ids;
    assert id !in HeldBy(db, r);
  }

  lemma RestoredHash(db: Redis, ids: set<Id>, r: Id, expires: Time)
    requires Agree(db) && AllWaiting(db, ids)
    ensures Requeue(Hold(db, ids, r, expires), ids).states == db.states
    ensures Requeue(Hold(db, ids, r, expires), ids).holders == db.holders
    ensures Requeue(Hold(db, ids, r, expires), ids).expiry == db.expiry
  {
    forall id | id in ids ensures id !in db.holders && id !in db.expiry && id in db.states {
      assert TicketAgrees(db, id);
    }
  }

  lemma RestoredQueues(db: Redis, ids: set<Id>, r: Id, expires: Time)
    requires Agree(db) && AllWaiting(db, ids)
    ensures Requeue(Hold(db, ids, r, expires), ids).queues == db.queues
  {
    var queues := Requeue(Hold(db, ids, r, expires), ids).queues;
    forall e ensures e in queues <==> e in db.queues {
      assert EntryAgrees(db, e) && TicketAgrees(db, e.ticket);
      Placing(db.pools, db.scores, ids, e);
    }
    forall e | e in queues ensures queues[e] == db.queues[e] {
      assert EntryAgrees(db, e);
      Placing(db.pools, db.scores, ids, e);
    }
  }

  lemma RestoredMembers(db: Redis, ids: set<Id>, r: Id, expires: Time)
    requires Agree(db) && HeldBy(db, r) == {}
    ensures Delete(Hold(db, ids, r, expires).members, r) == db.members
  {
    assert SetAgrees(db, r);
    forall e | e in db.members ensures e.reservation != r {
      MemberEntry(db, r, e.ticket);
    }
  }

  /* The operations that take several commands */

  // The reservation that was read is still the holder, or the holder's set is gone; and a waiting
  // ticket is taken out of the pool it is in.
  ghost predicate ReadsAreCurrent(db: Redis, id: Id, pool: Option<PoolKey>, reservation: Option<Id>) {
    && (id in db.holders ==> reservation == Some(db.holders[id]) || Members(db, db.holders[id]) == {})
    && (id in db.states && db.states[id] == Queued ==> pool == PoolRead(db, id))
  }

  /**
    RemoveTicket reads the ticket's pool and reservation first and changes the structures later.
    They agree afterwards iff what was read is still current.
  */
  lemma RemoveAgreesExactly(db: Redis, id: Id, state: TicketState, pool: Option<PoolKey>, reservation: Option<Id>)
    requires Agree(db) && state != Queued && state != Reserved
    ensures Agree(Remove(db, id, state, pool, reservation)) <==> ReadsAreCurrent(db, id, pool, reservation)
  {
    if ReadsAreCurrent(db, id, pool, reservation) {
      RemoveAgrees(db, id, state, pool, reservation);
    } else {
      RemoveDisagrees(db, id, state, pool, reservation);
    }
  }

  lemma RemoveAgrees(db: Redis, id: Id, state: TicketState, pool: Option<PoolKey>, reservation: Option<Id>)
    requires Agree(db) && state != Queued && state != Reserved && ReadsAreCurrent(db, id, pool, reservation)
    ensures Agree(Remove(db, id, state, pool, reservation))
  {
    var db' := Remove(db, id, state, pool, reservation);
    forall x ensures TicketAgrees(db', x) {
      assert TicketAgrees(db, x);
      if x in db.pools {
        assert EntryAgrees(db, QueueEntry(db.pools[x], x));
      }
    }
    forall e ensures EntryAgrees(db', e) { assert EntryAgrees(db, e); }
    forall r ensures SetAgrees(db', r) {
      RemovedSet(db, id, state, pool, reservation, r);
    }
  }

  lemma RemovedSet(db: Redis, id: Id, state: TicketState, pool: Option<PoolKey>, reservation: Option<Id>, r: Id)
    requires Agree(db) && ReadsAreCurrent(db, id, pool, reservation)
    ensures SetAgrees(Remove(db, id, state, pool, reservation), r)
  {
    var db' := Remove(db, id, state, pool, reservation);
    assert SetAgrees(db, r);
    forall x ensures x in Members(db', r) <==> x in Members(db, r) && !(reservation == Some(r) && x == id) {
      MemberEntry(db, r, x);
      MemberEntry(db', r, x);
    }
    assert HeldBy(db', r) == HeldBy(db, r) - {id};
    if Members(db, r) == {} {
      assert Members(db', r) == {};
    } else {
      assert id in Members(db, r) ==> reservation == Some(r);
      assert Members(db', r) == Members(db, r) - {id};
    }
  }

  lemma RemoveDisagrees(db: Redis, id: Id, state: TicketState, pool: Option<PoolKey>, reservation: Option<Id>)
    requires Agree(db) && state != Queued && state != Reserved && !ReadsAreCurrent(db, id, pool, reservation)
    ensures !Agree(Remove(db, id, state, pool, reservation))
  {
    var db' := Remove(db, id, state, pool, reservation);
    assert TicketAgrees(db, id);
    if id in db.holders && reservation != Some(db.holders[id]) && Members(db, db.holders[id]) != {} {
      var r := db.holders[id];
      assert SetAgrees(db, r);
      assert id in Members(db, r);
      MemberEntry(db, r, id);
      MemberEntry(db', r, id);
      assert id in Members(db', r) && id !in HeldBy(db', r);
      assert !SetAgrees(db', r);
    } else {
      var e := QueueEntry(db.pools[id], id);
      assert e in db.queues && e in db'.queues;
      assert !EntryAgrees(db', e);
    }
  }

  // A ticket is read while it waits; then a worker takes it with others; then it is removed.
  function RemovedLate(db: Redis, ids: set<Id>, r: Id, expires: Time, id: Id): Redis {
    Remove(Reserve(db, ids, r, expires).0, id, Cancelled, PoolRead(db, id), HolderRead(db, id))
  }

  /**
    What a stale read does: the structures disagree, and the release of the reservation is refused,
    so that the other tickets stay held, until the set's time to live ends.
  */
  lemma StaleRemovalBlocksRelease(db: Redis, ids: set<Id>, r: Id, expires: Time, id: Id)
    requires Agree(db) && AllWaiting(db, ids) && id in ids && HeldBy(db, r) == {}
    ensures !Agree(RemovedLate(db, ids, r, expires, id))
    ensures Release(RemovedLate(db, ids, r, expires, id), r).1 == Err(ReservationConflict)
    ensures Agree(Vanish(RemovedLate(db, ids, r, expires, id), r))
    ensures Release(Vanish(RemovedLate(db, ids, r, expires, id), r), r).1 == Ok(|ids - {id}|)
  {
    NotHeldYet(db, ids, r);
    ReserveAgrees(db, ids, r, expires);
    HeldAfterHold(db, ids, r, expires);
    assert TicketAgrees(db, id);
    var held := Hold(db, ids, r, expires);
    assert SetEntry(r, id) in held.members;
    BlockedRelease(held, id, r, PoolRead(db, id), None);
    UnblockedRelease(held, id, r, PoolRead(db, id), None);
  }

  lemma UnblockedRelease(held: Redis, id: Id, r: Id, pool: Option<PoolKey>, reservation: Option<Id>)
    requires Agree(held) && id in held.holders && held.holders[id] == r
    ensures var removed := Remove(held, id, Cancelled, pool, reservation);
            Agree(Vanish(removed, r)) && Release(Vanish(removed, r), r).1 == Ok(|HeldBy(held, r) - {id}|)
  {
    var removed := Remove(held, id, Cancelled, pool, reservation);
    StaleRemovalEnds(held, id, Cancelled, pool, reservation, r);
    ReleaseCount(Vanish(removed, r), r);
    HeldAfterRemove(held, id, pool, reservation, r);
  }

  lemma ReleaseCount(db: Redis, r: Id)
    requires Agree(db)
    ensures Release(db, r).1 == Ok(|HeldBy(db, r)|)
  {
    ReleaseAgrees(db, r);
  }

  lemma HeldAfterRemove(held: Redis, id: Id, pool: Option<PoolKey>, reservation: Option<Id>, r: Id)
    ensures HeldBy(Vanish(Remove(held, id, Cancelled, pool, reservation), r), r) == HeldBy(held, r) - {id}
  {
  }

  lemma BlockedRelease(held: Redis, id: Id, r: Id, pool: Option<PoolKey>, reservation: Option<Id>)
    requires Agree(held) && id in held.holders && held.holders[id] == r && SetEntry(r, id) in held.members
    requires reservation != Some(r)
    ensures var removed := Remove(held, id, Cancelled, pool, reservation);
            !Agree(removed) && Release(removed, r).1 == Err(ReservationConflict)
  {
    var removed := Remove(held, id, Cancelled, pool, reservation);
    MemberEntry(held, r, id);
    RemoveAgreesExactly(held, id, Cancelled, pool, reservation);
    MemberEntry(removed, r, id);
    assert id in ListedBy(removed, r) && !IsHeld(removed, id, r);
  }

  /** A concrete instance: tickets 2 and 3 wait, both are taken for reservation 1, and ticket 2 is removed late. */
  lemma StaleRemovalExample(pool: PoolKey, expires: Time)
    ensures var waiting := Upsert(Upsert(EMPTY, 2, pool, 10), 3, pool, 11);
            && Agree(waiting) && Release(RemovedLate(waiting, {2, 3}, 1, expires, 2), 1).1 == Err(ReservationConflict)
  {
    var waiting := Upsert(Upsert(EMPTY, 2, pool, 10), 3, pool, 11);
    EmptyAgrees();
    UpsertAgreesExactly(EMPTY, 2, pool, 10);
    UpsertAgreesExactly(Upsert(EMPTY, 2, pool, 10), 3, pool, 11);
    assert HeldBy(waiting, 1) == {};
    StaleRemovalBlocksRelease(waiting, {2, 3}, 1, expires, 2);
  }

  /** A stale removal does no lasting harm to the index: when the holder's set vanishes, the structures agree again. */
  lemma StaleRemovalEnds(db: Redis, id: Id, state: TicketState, pool: Option<PoolKey>, reservation: Option<Id>, r: Id)
    requires Agree(db) && state != Queued && state != Reserved && id in db.holders && db.holders[id] == r
    ensures Agree(Vanish(Remove(db, id, state, pool, reservation), r))
  {
    VanishAgrees(db, r);
    NoMembers(Vanish(db, r), r);
    assert TicketAgrees(db, id);
    RemoveAgrees(Vanish(db, r), id, state, pool, reservation);
    assert Remove(Vanish(db, r), id, state, pool, reservation) == Vanish(Remove(db, id, state, pool, reservation), r);
  }

  // The ticket is written with the pool and score it was first written with, and no set lists it.
  ghost predicate Upsertable(db: Redis, id: Id, pool: PoolKey, score: int) {
    && (id in db.states && db.states[id] == Queued ==> PoolRead(db, id) == Some(pool))
    && (id in db.holders ==> Members(db, db.holders[id]) == {})
  }

  /**
    UpsertTicket of a queued ticket clears the hash and the expiry index but no reservation's set:
    the structures agree afterwards iff no set lists the ticket (and it does not change pools
    while it waits, which a ticket never does).
  */
  lemma UpsertAgreesExactly(db: Redis, id: Id, pool: PoolKey, score: int)
    requires Agree(db) && (id in db.states && db.states[id] == Queued ==> id in db.pools)
    ensures Agree(Upsert(db, id, pool, score)) <==> Upsertable(db, id, pool, score)
  {
    var db' := Upsert(db, id, pool, score);
    assert TicketAgrees(db, id);
    if Upsertable(db, id, pool, score) {
      forall x ensures TicketAgrees(db', x) { assert TicketAgrees(db, x); }
      forall e ensures EntryAgrees(db', e) { assert EntryAgrees(db, e); }
      forall r ensures SetAgrees(db', r) {
        assert SetAgrees(db, r);
        SameMembers(db, db', r);
        assert HeldBy(db', r) == HeldBy(db, r) - {id};
      }
    } else if id in db.holders && Members(db, db.holders[id]) != {} {
      var r := db.holders[id];
      assert SetAgrees(db, r);
      SameMembers(db, db', r);
      assert id in Members(db', r) && id !in HeldBy(db', r);
      assert !SetAgrees(db', r);
    } else {
      assert !EntryAgrees(db', QueueEntry(db.pools[id], id));
    }
  }

  /**
    A concrete instance where they disagree: ticket 2 waits, reservation 1 takes it, and it is
    written again.  The release of the reservation is refused then.
  */
  lemma RepeatedUpsertExample(pool: PoolKey, expires: Time)
    ensures var waiting := Upsert(EMPTY, 2, pool, 10);
            var held := Reserve(waiting, {2}, 1, expires).0;
            var again := Upsert(held, 2, pool, 10);
            && Agree(waiting) && Agree(held) && held.holders == map[2 := 1]
            && !Agree(again) && Release(again, 1) == (again, Err(ReservationConflict))
  {
    var waiting := Upsert(EMPTY, 2, pool, 10);
    EmptyAgrees();
    UpsertAgreesExactly(EMPTY, 2, pool, 10);
    assert HeldBy(waiting, 1) == {};
    RepeatedUpsert(waiting, 2, 1, expires);
  }

  // A ticket that waits is taken for a reservation and written again.
  lemma RepeatedUpsert(db: Redis, id: Id, r: Id, expires: Time)
    requires Agree(db) && AllWaiting(db, {id}) && HeldBy(db, r) == {}
    ensures var held := Reserve(db, {id}, r, expires).0;
            && held == Hold(db, {id}, r, expires) && Agree(held)
            && forall score :: BlocksRelease(Upsert(held, id, held.pools[id], score), r)
  {
    ReserveAgrees(db, {id}, r, expires);
    NotHeldYet(db, {id}, r);
    var held := Hold(db, {id}, r, expires);
    assert SetEntry(r, id) in held.members;
    forall score ensures BlocksRelease(Upsert(held, id, held.pools[id], score), r) {
      BlockedByUpsert(held, id, r, score);
    }
  }

  ghost predicate BlocksRelease(db: Redis, r: Id) {
    !Agree(db) && Release(db, r) == (db, Err(ReservationConflict))
  }

  lemma BlockedByUpsert(held: Redis, id: Id, r: Id, score: int)
    requires Agree(held) && Placed(held, id) && IsHeld(held, id, r) && SetEntry(r, id) in held.members
    ensures BlocksRelease(Upsert(held, id, held.pools[id], score), r)
  {
    var again := Upsert(held, id, held.pools[id], score);
    MemberEntry(held, r, id);
    UpsertAgreesExactly(held, id, held.pools[id], score);
    MemberEntry(again, r, id);
    assert id in ListedBy(again, r) && !IsHeld(again, id, r);
  }

  /* Recovery */

  /**
    One recovery puts the due tickets back into their pools and leaves the others held; unless it
    stopped at its limit, no expired hold is left.
  */
  lemma RecoveryIsExact(db: Redis, now: Time, limit: nat, due: seq<Id>)
    requires Agree(db) && RangeByScore(db.expiry, now, limit, due)
    ensures var db' := RecoverEach(db, due);
            && Agree(db')
            && (forall id :: id in due ==> id in db'.states && db'.states[id] == Queued && id !in db'.holders)
            && (forall id :: id in db.holders && id !in due ==> id in db'.holders && db'.holders[id] == db.holders[id])
            && (|due| < limit ==> forall id :: id in db'.expiry ==> now < db'.expiry[id])
  {
    assert Elements(due) <= db.expiry.Keys;
    RecoverEachAgrees(db, due);
    forall id | id in due ensures id in db.states {
      assert id in Elements(due) && TicketAgrees(db, id);
    }
  }

  /* Whole runs */

  datatype Command =
    | ReserveCommand(ids: set<Id>, r: Id, expires: Time)
    | ReleaseCommand(r: Id)
    | FinalizeCommand(r: Id, m: Id)
    | RecoverCommand(now: Time, limit: nat, due: seq<Id>)
    | VanishCommand(r: Id)
    | UpsertCommand(id: Id, pool: PoolKey, score: int)
    | RemoveCommand(id: Id, state: TicketState, poolRead: Option<PoolKey>, holderRead: Option<Id>)

  ghost function Step(db: Redis, c: Command): Redis {
    match c
    case ReserveCommand(ids, r, expires) => Reserve(db, ids, r, expires).0
    case ReleaseCommand(r) => Release(db, r).0
    case FinalizeCommand(r, m) => Finalize(db, r, m).0
    case RecoverCommand(now, limit, due) => if RangeByScore(db.expiry, now, limit, due) then RecoverEach(db, due)
                                            else db
    case VanishCommand(r) => Vanish(db, r)
    case UpsertCommand(id, pool, score) => Upsert(db, id, pool, score)
    case RemoveCommand(id, state, pool, reservation) =>
      if state == Queued || state == Reserved then db else Remove(db, id, state, pool, reservation)
  }

  // The scripts and the loss of a set need no care.
  ghost predicate Careful(db: Redis, c: Command) {
    match c
    case UpsertCommand(id, pool, score) => Upsertable(db, id, pool, score)
    case RemoveCommand(id, state, pool, reservation) => state == Queued || state == Reserved
      || ReadsAreCurrent(db, id, pool, reservation)
    case _ => true
  }

  lemma ReleaseKeeps(db: Redis, r: Id)
    requires Agree(db)
    ensures Agree(Release(db, r).0)
  {
    ReleaseAgrees(db, r);
  }

  lemma FinalizeKeeps(db: Redis, r: Id, m: Id)
    requires Agree(db)
    ensures Agree(Finalize(db, r, m).0)
  {
    FinalizeAgrees(db, r, m);
  }

  lemma RecoverKeeps(db: Redis, now: Time, limit: nat, due: seq<Id>)
    requires Agree(db)
    ensures RangeByScore(db.expiry, now, limit, due) ==> Agree(RecoverEach(db, due))
  {
    if RangeByScore(db.expiry, now, limit, due) {
      RecoveryIsExact(db, now, limit, due);
    }
  }

  lemma StepAgreesExactly(db: Redis, c: Command)
    requires Agree(db)
    ensures Agree(Step(db, c)) <==> Careful(db, c)
  {
    match c
    case ReserveCommand(ids, r, expires) => ReserveAgrees(db, ids, r, expires);
    case ReleaseCommand(r) => ReleaseKeeps(db, r);
    case FinalizeCommand(r, m) => FinalizeKeeps(db, r, m);
    case RecoverCommand(now, limit, due) => RecoverKeeps(db, now, limit, due);
    case VanishCommand(r) => VanishAgrees(db, r);
    case UpsertCommand(id, pool, score) =>
      assert TicketAgrees(db, id);
      UpsertAgreesExactly(db, id, pool, score);
    case RemoveCommand(id, state, pool, reservation) =>
      if state != Queued && state != Reserved {
        RemoveAgreesExactly(db, id, state, pool, reservation);
      }
  }

  ghost function Run(commands: seq<Command>): Redis {
    if commands == [] then EMPTY else Step(Run(commands[..|commands| - 1]), commands[|commands| - 1])
  }

  ghost predicate AgreesThroughout(commands: seq<Command>) {
    forall n {:trigger commands[..n]} :: 0 <= n <= |commands| ==> Agree(Run(commands[..n]))
  }

  ghost predicate CarefulThroughout(commands: seq<Command>) {
    forall n {:trigger commands[..n]} :: 0 <= n < |commands| ==> Careful(Run(commands[..n]), commands[n])
  }

  /** The structures agree all through a run iff every removal and every upsert in it meets its condition. */
  lemma {:induction false} RunAgreesExactly(commands: seq<Command>)
    ensures AgreesThroughout(commands) <==> CarefulThroughout(commands)
  {
    if commands == [] {
      EmptyAgrees();
      assert commands[..0] == commands;
    } else {
      var n := |commands| - 1;
      var init := commands[..n];
      RunAgreesExactly(init);
      assert commands[..|commands|] == commands;
      Prefixes(commands, n);
      assert AgreesThroughout(commands) <==> AgreesThroughout(init) && Agree(Run(commands));
      assert CarefulThroughout(commands) <==> CarefulThroughout(init) && Careful(Run(init), commands[n]);
      if AgreesThroughout(init) {
        assert init[..n] == init;
        StepAgreesExactly(Run(init), commands[n]);
      }
    }
  }

  lemma Prefixes(commands: seq<Command>, n: nat)
    requires n < |commands|
    ensures forall k {:trigger commands[..k]} :: 0 <= k <= n ==> commands[..k] == commands[..n][..k]
    ensures forall k {:trigger commands[..n][..k]} :: 0 <= k <= n ==> commands[..k] == commands[..n][..k]
  {
  }
}
