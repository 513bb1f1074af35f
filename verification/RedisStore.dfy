/**
  The store that combines Redis coordination with a durable store
  (internal/matchmaking/repository/redis/store.go): which side moves first, and what is rolled
  back.  The in-memory ticket store stands for the durable side.
*/
module RedisStores {
  import opened Prelude
  import opened Tickets
  import D = TicketStoreSpec
  import opened MemoryTicketStore
  import opened RedisScripts
  import opened RedisAgreement
  import opened RedisQueues

  class Store {
    const durable: TicketStore
    const queue: RedisQueue

    constructor (durable: TicketStore, queue: RedisQueue)
      ensures this.durable == durable && this.queue == queue
    {
      this.durable, this.queue := durable, queue;
    }

    /**
      Redis decides first, and is rolled back when the durable side refuses: a failed call under a
      new reservation leaves both sides as they were.
    */
    method ReserveAll(ids: seq<Id>, r: Id, expires: Time, now: Time) returns (result: Result<seq<Ticket>, D.StoreError>)
      requires durable.Valid() && Agree(queue.State())
      modifies durable, queue
      ensures durable.Valid() && Agree(queue.State())
      ensures result.Ok? <==>
                && Acceptable(ids, r, expires, now)
                && Reserve(old(queue.State()), Elements(ids), r, Millis(expires)).1.Ok?
                && D.ReserveAll(old(durable.State()), ids, r, expires, now).1.Ok?
      ensures result.Ok? ==> r in durable.reservations && Lists(durable.tickets, durable.reservations[r], result.value)
      ensures result.Ok? ==>
                && durable.State() == D.ReserveAll(old(durable.State()), ids, r, expires, now).0
                && queue.State() == Reserve(old(queue.State()), Elements(ids), r, Millis(expires)).0
                && Members(queue.State(), r) == Elements(ids)
      ensures result.Err? ==> durable.State() == old(durable.State())
      ensures result.Err? && HeldBy(old(queue.State()), r) == {} ==> queue.State() == old(queue.State())
    {
      ghost var before := queue.State();
      var reserved := queue.ReserveAll(ids, r, expires, now);
      if reserved.Err? {
        assert Acceptable(ids, r, expires, now) ==> Reserve(before, Elements(ids), r, Millis(expires)).0 == before;
        return Err(D.ReservationConflict);
      }
      result := ReserveDurably(before, ids, r, expires, now);
    }

    method ReserveDurably(ghost before: Redis, ids: seq<Id>, r: Id, expires: Time, now: Time)
      returns (result: Result<seq<Ticket>, D.StoreError>)
      requires durable.Valid() && Agree(before)
      requires Reserve(before, Elements(ids), r, Millis(expires)).1.Ok?
               && queue.State() == Reserve(before, Elements(ids), r, Millis(expires)).0
      modifies durable, queue
      ensures durable.Valid() && Agree(queue.State())
      ensures result.Ok? <==> D.ReserveAll(old(durable.State()), ids, r, expires, now).1.Ok?
      ensures result.Ok? ==> r in durable.reservations && Lists(durable.tickets, durable.reservations[r], result.value)
      ensures result.Ok? ==>
                && durable.State() == D.ReserveAll(old(durable.State()), ids, r, expires, now).0
                && queue.State() == old(queue.State()) && Members(queue.State(), r) == Elements(ids)
      ensures result.Err? ==> durable.State() == old(durable.State())
      ensures result.Err? && HeldBy(before, r) == {} ==> queue.State() == before
    {
      RefusedByDurable(durable.State(), ids, r, expires, now);
      result := durable.ReserveAll(ids, r, expires, now);
      GrantedSet(before, Elements(ids), r, Millis(expires));
      if result.Err? {
        RollBack(before, Elements(ids), r, Millis(expires));
      }
    }

    method RollBack(ghost before: Redis, ghost ids: set<Id>, r: Id, ghost expires: Time)
      requires Agree(before) && Reserve(before, ids, r, expires).1.Ok?
               && queue.State() == Reserve(before, ids, r, expires).0
      modifies queue
      ensures Agree(queue.State()) && (HeldBy(before, r) == {} ==> queue.State() == before)
    {
      RolledBack(before, ids, r, expires);
      var _ := queue.ReleaseScript(r);
    }

    /** The durable side moves first; if it refuses, Redis keeps its hold. */
    method ReleaseAll(r: Id, now: Time) returns (result: Result<(), D.StoreError>)
      requires durable.Valid() && Agree(queue.State())
      modifies durable, queue
      ensures durable.Valid() && Agree(queue.State())
      ensures result.Ok? <==> r in old(durable.reservations)
      ensures result.Ok? ==>
                durable.State() == D.ReleaseAll(old(durable.State()), r, now).0 && r !in durable.reservations
                && HeldBy(queue.State(), r) == {} && Members(queue.State(), r) == {}
      ensures result.Err? ==> durable.State() == old(durable.State()) && queue.State() == old(queue.State())
    {
      result := durable.ReleaseAll(r, now);
      if result.Err? {
        return;
      }
      ReleaseAgrees(queue.State(), r);
      ReleasedSet(queue.State(), r);
      var _ := queue.ReleaseScript(r);
    }

    /** The durable assignment counts; Redis follows. */
    method AssignAll(r: Id, m: Id, now: Time) returns (result: Result<seq<Ticket>, D.StoreError>)
      requires durable.Valid() && Agree(queue.State())
      modifies durable, queue
      ensures durable.Valid() && Agree(queue.State())
      ensures result.Ok? <==> r in old(durable.reservations) && m != NO_ID
      ensures result.Ok? ==> Lists(durable.tickets, old(durable.reservations)[r], result.value)
      ensures durable.State() == D.AssignAll(old(durable.State()), r, m, now).0
      ensures queue.State() == if result.Ok? then Finalize(old(queue.State()), r, m).0 else old(queue.State())
    {
      result := durable.AssignAll(r, m, now);
      if result.Err? {
        return;
      }
      FinalizeAgrees(queue.State(), r, m);
      var _ := queue.FinalizeScript(r, m);
    }
  }

  lemma RefusedByDurable(s: D.Store, ids: seq<Id>, r: Id, expires: Time, now: Time)
    ensures D.ReserveAll(s, ids, r, expires, now).1.Err? ==> D.ReserveAll(s, ids, r, expires, now).0 == s
  {
  }

  lemma RolledBack(db: Redis, ids: set<Id>, r: Id, expires: Time)
    requires Agree(db) && Reserve(db, ids, r, expires).1.Ok?
    ensures Agree(Release(Reserve(db, ids, r, expires).0, r).0)
    ensures HeldBy(db, r) == {} ==> Release(Reserve(db, ids, r, expires).0, r).0 == db
  {
    ReserveAgrees(db, ids, r, expires);
    ReleaseAgrees(Reserve(db, ids, r, expires).0, r);
    if HeldBy(db, r) == {} {
      ReserveThenRelease(db, ids, r, expires);
    }
  }

  /**
    After a granted reservation its set lists exactly the tickets asked for, whether it is the first call or a
    repeated one.
  */
  lemma GrantedSet(db: Redis, ids: set<Id>, r: Id, expires: Time)
    requires Agree(db) && Reserve(db, ids, r, expires).1.Ok?
    ensures Members(Reserve(db, ids, r, expires).0, r) == ids == HeldBy(Reserve(db, ids, r, expires).0, r)
    ensures Agree(Reserve(db, ids, r, expires).0)
  {
    var db' := Reserve(db, ids, r, expires).0;
    ReserveAgrees(db, ids, r, expires);
    assert SetAgrees(db', r);
    if HeldBy(db, r) == {} {
      NotHeldYet(db, ids, r);
      HeldAfterHold(db, ids, r, expires);
    } else {
      GrantedAgain(db, ids, r, expires);
    }
    var id :| id in ids;
    MemberEntry(db', r, id);
  }

  lemma GrantedAgain(db: Redis, ids: set<Id>, r: Id, expires: Time)
    requires HeldBy(db, r) != {} && Reserve(db, ids, r, expires).1.Ok?
    ensures HeldBy(Reserve(db, ids, r, expires).0, r) == ids
            && EntriesOf(ids, r) <= Reserve(db, ids, r, expires).0.members
  {
    SubsetOfSameSize(ids, HeldBy(db, r));
  }

  lemma ReleasedSet(db: Redis, r: Id)
    requires Agree(db)
    ensures HeldBy(Release(db, r).0, r) == {} && Members(Release(db, r).0, r) == {}
  {
    ReleaseAgrees(db, r);
    NoMembers(Release(db, r).0, r);
  }
}
