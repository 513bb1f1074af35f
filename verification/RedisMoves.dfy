/**
  What the Redis scripts and pipelines do to each ticket, in terms of the single structures
  (internal/matchmaking/repository/redis/scripts.go and queue.go:62-128), when these agree beforehand.
*/
module RedisMoves {
  import opened Prelude
  import opened Tickets
  import opened RedisScripts

  ghost predicate Offstage(db: Redis, id: Id) {
    forall pool :: QueueEntry(pool, id) !in db.queues
  }

  // The ticket is in the sorted set of its pool, at its score, and nobody's.
  ghost predicate WaitsAt(db: Redis, id: Id, pool: PoolKey, score: int) {
    && id in db.states && db.states[id] == Queued && id !in db.holders && id !in db.expiry
    && id in db.pools && db.pools[id] == pool && id in db.scores && db.scores[id] == score
    && QueueEntry(pool, id) in db.queues && db.queues[QueueEntry(pool, id)] == score
  }

  // The ticket is held for the reservation until the given time, and in no pool.
  ghost predicate HeldFor(db: Redis, id: Id, r: Id, expires: Time) {
    && id in db.states && db.states[id] == Reserved && id in db.holders && db.holders[id] == r
    && id in db.expiry && db.expiry[id] == expires && Offstage(db, id)
  }

  // The ticket plays in the match, and is nobody's and in no pool.
  ghost predicate PlaysIn(db: Redis, id: Id, m: Id) {
    && id in db.states && db.states[id] == Assigned && id in db.matches && db.matches[id] == m
    && id !in db.holders && id !in db.expiry && Offstage(db, id)
  }

  predicate SameAt<V(==)>(a: map<Id, V>, b: map<Id, V>, id: Id) {
    (id in a <==> id in b) && (id in a ==> a[id] == b[id])
  }

  // Nothing that is known of the ticket has changed.
  ghost predicate Unmoved(db: Redis, db': Redis, id: Id) {
    && SameAt(db.states, db'.states, id) && SameAt(db.pools, db'.pools, id) && SameAt(db.scores, db'.scores, id)
    && SameAt(db.holders, db'.holders, id) && SameAt(db.expiry, db'.expiry, id) && SameAt(db.matches, db'.matches, id)
    && forall pool ::
         var e := QueueEntry(pool, id);
         (e in db.queues <==> e in db'.queues) && (e in db.queues ==> db'.queues[e] == db.queues[e])
  }

  // A ticket in a sorted set is in that of its pool.
  lemma OwnPool(db: Redis, id: Id, pool: PoolKey)
    requires Agree(db) && QueueEntry(pool, id) in db.queues
    ensures id in db.pools && db.pools[id] == pool && id in db.states && db.states[id] == Queued
            && id in db.scores && db.queues[QueueEntry(pool, id)] == db.scores[id]
  {
    assert EntryAgrees(db, QueueEntry(pool, id));
  }

  /**
    A reservation takes waiting tickets, all of them or none; the hold of a reservation is only
    confirmed when it is asked for exactly what it holds.
  */
  lemma ReserveMoves(db: Redis, ids: set<Id>, r: Id, expires: Time)
    requires Agree(db)
    ensures var reserved := Reserve(db, ids, r, expires);
            var first := ids != {} && (forall id :: id in ids ==> id in db.states && db.states[id] == Queued)
                         && (forall id :: id in db.holders ==> db.holders[id] != r);
            && (reserved.1.Ok? <==> first || (ids != {} && ids == HeldBy(db, r)))
            && (first ==>
                  && (forall id :: id in ids ==> HeldFor(reserved.0, id, r, expires))
                  && (forall id :: id !in ids ==> Unmoved(db, reserved.0, id))
                  && forall e :: e in reserved.0.members <==>
                       e in db.members || (e.reservation == r && e.ticket in ids))
            && (!first ==> reserved.0 == db.(members := reserved.0.members))
            && (reserved.1.Err? ==> reserved.0 == db)
  {
    WaitingAre(db, ids);
    HeldAre(db, ids, r);
    if ids != {} && AllWaiting(db, ids) && HeldBy(db, r) == {} {
      HoldMoves(db, ids, r, expires);
    }
  }

  lemma WaitingAre(db: Redis, ids: set<Id>)
    requires Agree(db)
    ensures AllWaiting(db, ids) <==> forall id :: id in ids ==> id in db.states && db.states[id] == Queued
  {
    forall id ensures id in db.states && db.states[id] == Queued ==> Placed(db, id) { assert TicketAgrees(db, id); }
  }

  lemma HeldAre(db: Redis, ids: set<Id>, r: Id)
    requires Agree(db)
    ensures AllHeld(db, ids, r) && |HeldBy(db, r)| == |ids| <==> ids == HeldBy(db, r)
    ensures HeldBy(db, r) == {} <==> forall id :: id in db.holders ==> db.holders[id] != r
    ensures forall id :: id in HeldBy(db, r) ==> id in db.states && db.states[id] == Reserved
  {
    forall id ensures id in HeldBy(db, r) ==> Placed(db, id) && IsHeld(db, id, r) { assert TicketAgrees(db, id); }
    if HeldBy(db, r) == {} {
      forall id | id in db.holders ensures db.holders[id] != r { assert id !in HeldBy(db, r); }
    }
    if AllHeld(db, ids, r) && |HeldBy(db, r)| == |ids| {
      assert ids <= HeldBy(db, r);
      SubsetOfSameSize(ids, HeldBy(db, r));
    }
  }

  lemma HoldMoves(db: Redis, ids: set<Id>, r: Id, expires: Time)
    requires Agree(db) && AllWaiting(db, ids)
    ensures var db' := Hold(db, ids, r, expires);
            && (forall id :: id in ids ==> HeldFor(db', id, r, expires))
            && (forall id :: id !in ids ==> Unmoved(db, db', id))
            && forall e :: e in db'.members <==> e in db.members || (e.reservation == r && e.ticket in ids)
  {
    var db' := Hold(db, ids, r, expires);
    forall id, pool | id in ids ensures QueueEntry(pool, id) !in db'.queues {
      if QueueEntry(pool, id) in db.queues {
        OwnPool(db, id, pool);
        assert QueueEntry(pool, id) in Positions(db, ids);
      }
    }
    forall e ensures e in db'.members <==> e in db.members || (e.reservation == r && e.ticket in ids) {
      if e.reservation == r && e.ticket in ids {
        assert e == SetEntry(r, e.ticket);
      }
    }
  }

  // Held tickets that go back are where they came from.
  lemma RequeueMoves(db: Redis, ids: set<Id>, id: Id)
    requires Agree(db) && forall x :: x in ids ==> x in db.states && db.states[x] == Reserved
    ensures id in ids ==>
              id in db.pools && id in db.scores
              && WaitsAt(Requeue(db, ids), id, db.pools[id], db.scores[id])
    ensures id !in ids ==> Unmoved(db, Requeue(db, ids), id)
  {
    assert TicketAgrees(db, id);
    forall e ensures e in Requeue(db, ids).queues <==> e in db.queues || e in Placements(db.pools, db.scores, ids) {
      Placing(db.pools, db.scores, ids, e);
    }
    forall pool {
      Placing(db.pools, db.scores, ids, QueueEntry(pool, id));
    }
    if id in ids {
      Placing(db.pools, db.scores, ids, QueueEntry(db.pools[id], id));
    }
  }

  /** A release puts every ticket of the reservation back where it waited, and touches no other. */
  lemma ReleaseMoves(db: Redis, r: Id, id: Id)
    requires Agree(db)
    ensures Release(db, r).1.Ok?
    ensures var db' := Release(db, r).0;
            if id in db.holders && db.holders[id] == r then
              id in db.pools && id in db.scores && WaitsAt(db', id, db.pools[id], db.scores[id])
            else Unmoved(db, db', id)
  {
    ReleaseAgrees(db, r);
    forall x | x in HeldBy(db, r) ensures x in db.states && db.states[x] == Reserved { assert TicketAgrees(db, x); }
    RequeueMoves(db, HeldBy(db, r), id);
  }

  /** A finalization assigns every ticket of the reservation to the match, and touches no other. */
  lemma FinalizeMoves(db: Redis, r: Id, m: Id, id: Id)
    requires Agree(db)
    ensures var db' := Finalize(db, r, m).0;
            if id in db.holders && db.holders[id] == r then PlaysIn(db', id, m) else Unmoved(db, db', id)
  {
    FinalizeAgrees(db, r, m);
    assert TicketAgrees(db, id);
    forall pool | id in db.holders ensures QueueEntry(pool, id) !in db.queues {
      if QueueEntry(pool, id) in db.queues {
        OwnPool(db, id, pool);
      }
    }
  }

  /** A recovery puts the due tickets back where they waited, and touches no other. */
  lemma RecoverMoves(db: Redis, now: Time, limit: nat, due: seq<Id>, id: Id)
    requires Agree(db) && RangeByScore(db.expiry, now, limit, due)
    ensures var db' := RecoverEach(db, due);
            if id in due then id in db.pools && id in db.scores && WaitsAt(db', id, db.pools[id], db.scores[id])
            else Unmoved(db, db', id)
  {
    assert Elements(due) <= db.expiry.Keys;
    RecoverEachAgrees(db, due);
    forall x | x in Elements(due) ensures x in db.states && db.states[x] == Reserved { assert TicketAgrees(db, x); }
    RequeueMoves(db, Elements(due), id);
    var db', requeued := RecoverEach(db, due), Requeue(db, Elements(due));
    assert forall x :: x in Elements(due) <==> x in due;
    assert db'.queues == requeued.queues && db'.holders == requeued.holders && db'.expiry == requeued.expiry;
    assert SameAt(db'.states, requeued.states, id);
  }

  /** Writing a queued ticket makes it wait in its pool at its score, and touches no other. */
  lemma UpsertMoves(db: Redis, id: Id, pool: PoolKey, score: int, other: Id)
    ensures WaitsAt(Upsert(db, id, pool, score), id, pool, score)
    ensures other != id ==> Unmoved(db, Upsert(db, id, pool, score), other)
  {
  }

  /** Removing a ticket with current reads takes it out of its pool and its hold, and touches no other. */
  lemma RemoveMoves(db: Redis, id: Id, state: TicketState, other: Id)
    requires Agree(db)
    ensures var db' := Remove(db, id, state, PoolRead(db, id), HolderRead(db, id));
            && id in db'.states && db'.states[id] == state && id !in db'.holders && id !in db'.expiry
               && Offstage(db', id)
            && (forall e :: e in db'.members <==> e in db.members && !(e.ticket == id && id in db.holders
                                                                      && e.reservation == db.holders[id]))
            && (other != id ==> Unmoved(db, db', other))
  {
    var db' := Remove(db, id, state, PoolRead(db, id), HolderRead(db, id));
    forall pool ensures QueueEntry(pool, id) !in db'.queues {
      if QueueEntry(pool, id) in db.queues {
        OwnPool(db, id, pool);
      }
    }
  }
}
