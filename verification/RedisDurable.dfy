/**
  Redis beside the durable store, under every interleaving (internal/matchmaking/repository/redis/
  store.go:56-165).  Each operation of the combined store is one step on the durable side and one or
  more on the Redis side; the steps of different callers come in any order.  The in-memory ticket
  store stands for the durable side.
*/
module RedisDurable {
  import opened Prelude
  import opened Tickets
  import D = TicketStoreSpec
  import opened RedisScripts
  import R = RedisAgreement
  import opened RedisQueues

  datatype Both = Both(durable: D.Store, redis: Redis)

  datatype Step =
    | CreateDurably(ticket: Ticket, key: Id)
    | CancelDurably(id: Id, player: Id, key: Id, now: Time)
    | ReserveDurably(ids: seq<Id>, r: Id, expires: Time, now: Time)
    | ReleaseDurably(r: Id, now: Time)
    | AssignDurably(r: Id, m: Id, now: Time)
    | CompleteDurably(m: Id)
    | RecoverDurably(now: Time)
    | OnRedis(command: R.Command)

  ghost function Next(b: Both, step: Step): Both {
    match step
    case CreateDurably(t, key) => if t.Restorable() then b.(durable := D.CreateQueued(b.durable, t, key).0) else b
    case CancelDurably(id, player, key, now) => b.(durable := D.Cancel(b.durable, id, player, key, now).0)
    case ReserveDurably(ids, r, expires, now) => b.(durable := D.ReserveAll(b.durable, ids, r, expires, now).0)
    case ReleaseDurably(r, now) => b.(durable := D.ReleaseAll(b.durable, r, now).0)
    case AssignDurably(r, m, now) => b.(durable := D.AssignAll(b.durable, r, m, now).0)
    case CompleteDurably(m) => b.(durable := D.CompleteAssignedTickets(b.durable, m).0)
    case RecoverDurably(now) => b.(durable := D.RecoverExpired(b.durable, now))
    case OnRedis(c) => b.(redis := R.Step(b.redis, c))
  }

  predicate IsReserved(s: D.Store, id: Id) {
    id in s.tickets && s.tickets[id].state == Reserved
  }

  // Held by a worker or seated at a match.
  predicate GivenAway(s: D.Store, id: Id) {
    id in s.tickets && s.tickets[id].state in {Reserved, Assigned}
  }

  predicate Waits(db: Redis, id: Id) {
    id in db.states && db.states[id] == Queued
  }

  // Redis offers a ticket that the durable side has given away.
  predicate Offered(b: Both, id: Id) {
    GivenAway(b.durable, id) && Waits(b.redis, id)
  }

  predicate HeldAs(db: Redis, id: Id, r: Id, expires: Time) {
    id in db.holders && db.holders[id] == r && id in db.expiry && db.expiry[id] == Millis(expires)
  }

  // A ticket reserved durably is held in Redis for the same reservation until the same time; one
  // assigned durably does not wait in Redis, and if it is still held there it is as it was reserved.
  ghost predicate CoupledAt(b: Both, id: Id) {
    GivenAway(b.durable, id) ==>
      var t := b.durable.tickets[id];
      && !Waits(b.redis, id)
      && (t.state == Reserved ==> id in b.redis.holders)
      && (id in b.redis.holders ==> HeldAs(b.redis, id, t.reservation, t.expiresAt))
  }

  ghost predicate Coupled(b: Both) {
    D.Inv(b.durable) && Agree(b.redis) && forall id {:trigger CoupledAt(b, id)} :: CoupledAt(b, id)
  }

  lemma CoupledOffersNothing(b: Both, id: Id)
    requires Coupled(b)
    ensures !Offered(b, id)
  {
    assert CoupledAt(b, id);
  }

  // What a step must find so that the two sides stay coupled.
  ghost predicate Timely(b: Both, step: Step) {
    match step
    case ReserveDurably(ids, r, expires, now) =>
      || r in b.durable.reservations || D.ReserveAll(b.durable, ids, r, expires, now).1.Err?
      || forall id :: id in ids ==> HeldAs(b.redis, id, r, expires)
    case OnRedis(c) => R.Careful(b.redis, c) && TimelyOnRedis(b, c)
    case _ => true
  }

  ghost predicate TimelyOnRedis(b: Both, c: R.Command) {
    match c
    case ReleaseCommand(r) => forall id :: id in HeldBy(b.redis, r) ==> !GivenAway(b.durable, id)
    case FinalizeCommand(r, _) => forall id :: id in HeldBy(b.redis, r) ==> !IsReserved(b.durable, id)
    case RecoverCommand(now, limit, due) =>
      RangeByScore(b.redis.expiry, now, limit, due) ==> forall id :: id in due ==> !GivenAway(b.durable, id)
    case UpsertCommand(id, _, _) => !GivenAway(b.durable, id)
    case RemoveCommand(id, state, _, _) => state == Queued || state == Reserved || !IsReserved(b.durable, id)
    case _ => true
  }

  /* The durable side */

  // The step gives nothing away that was not; what stays given away keeps its hold.
  ghost predicate Eases(s: D.Store, s': D.Store, id: Id) {
    GivenAway(s', id) ==>
      && GivenAway(s, id) && s'.tickets[id].reservation == s.tickets[id].reservation
      && s'.tickets[id].expiresAt == s.tickets[id].expiresAt
      && (s'.tickets[id].state == Reserved ==> s.tickets[id].state == Reserved)
  }

  lemma EasingKeeps(b: Both, s': D.Store)
    requires Coupled(b) && D.Inv(s') && forall id :: Eases(b.durable, s', id)
    ensures Coupled(b.(durable := s'))
  {
    forall id ensures CoupledAt(b.(durable := s'), id) {
      assert CoupledAt(b, id) && Eases(b.durable, s', id);
    }
  }

  lemma CreateKeeps(b: Both, t: Ticket, key: Id)
    requires Coupled(b) && t.Restorable()
    ensures Coupled(b.(durable := D.CreateQueued(b.durable, t, key).0))
  {
    D.CreateKeepsInv(b.durable, t, key);
    EasingKeeps(b, D.CreateQueued(b.durable, t, key).0);
  }

  lemma CancelKeeps(b: Both, id: Id, player: Id, key: Id, now: Time)
    requires Coupled(b)
    ensures Coupled(b.(durable := D.Cancel(b.durable, id, player, key, now).0))
  {
    D.CancelKeepsInv(b.durable, id, player, key, now);
    EasingKeeps(b, D.Cancel(b.durable, id, player, key, now).0);
  }

  lemma ReleaseKeeps(b: Both, r: Id, now: Time)
    requires Coupled(b)
    ensures Coupled(b.(durable := D.ReleaseAll(b.durable, r, now).0))
  {
    D.ReleaseKeepsInv(b.durable, r, now);
    if r in b.durable.reservations {
      D.ReleaseEffect(b.durable, r, now);
    }
    EasingKeeps(b, D.ReleaseAll(b.durable, r, now).0);
  }

  lemma AssignKeeps(b: Both, r: Id, m: Id, now: Time)
    requires Coupled(b)
    ensures Coupled(b.(durable := D.AssignAll(b.durable, r, m, now).0))
  {
    D.AssignKeepsInv(b.durable, r, m, now);
    if r in b.durable.reservations {
      D.AssignEffect(b.durable, r, m, now);
    }
    EasingKeeps(b, D.AssignAll(b.durable, r, m, now).0);
  }

  lemma CompleteKeeps(b: Both, m: Id)
    requires Coupled(b)
    ensures Coupled(b.(durable := D.CompleteAssignedTickets(b.durable, m).0))
  {
    D.CompleteKeepsInv(b.durable, m);
    EasingKeeps(b, D.CompleteAssignedTickets(b.durable, m).0);
  }

  lemma RecoverDurablyKeeps(b: Both, now: Time)
    requires Coupled(b)
    ensures Coupled(b.(durable := D.RecoverExpired(b.durable, now)))
  {
    D.RecoverKeepsInv(b.durable, now);
    D.RecoverEffect(b.durable, now);
    EasingKeeps(b, D.RecoverExpired(b.durable, now));
  }

  // A durable reservation is the only durable step that gives tickets away: Redis must hold them.
  lemma ReserveKeepsExactly(b: Both, ids: seq<Id>, r: Id, expires: Time, now: Time)
    requires Coupled(b)
    ensures Coupled(b.(durable := D.ReserveAll(b.durable, ids, r, expires, now).0)) <==>
              Timely(b, ReserveDurably(ids, r, expires, now))
  {
    var s' := D.ReserveAll(b.durable, ids, r, expires, now).0;
    D.ReserveKeepsInv(b.durable, ids, r, expires, now);
    if r !in b.durable.reservations && D.ReserveAll(b.durable, ids, r, expires, now).1.Ok? {
      D.ReserveEffect(b.durable, ids, r, expires, now);
      ReservedCoupledExactly(b, s', ids, r, expires, now);
    }
  }

  lemma ReservedCoupledExactly(b: Both, s': D.Store, ids: seq<Id>, r: Id, expires: Time, now: Time)
    requires Coupled(b) && D.Inv(s') && D.Reserves(b.durable, s', ids, r, expires, now) && D.AllQueued(b.durable, ids)
    ensures Coupled(b.(durable := s')) <==> forall id :: id in ids ==> HeldAs(b.redis, id, r, expires)
  {
    var b' := b.(durable := s');
    forall id ensures id !in ids ==> CoupledAt(b', id) { assert CoupledAt(b, id); }
    forall id | id in ids ensures CoupledAt(b', id) <==> HeldAs(b.redis, id, r, expires) {
      assert TicketAgrees(b.redis, id);
    }
    if Coupled(b') {
      forall id | id in ids ensures HeldAs(b.redis, id, r, expires) { assert CoupledAt(b', id); }
    }
  }

  /* The Redis side */

  // The step leaves the ticket's place in Redis as it is.
  predicate SamePlace(db: Redis, db': Redis, id: Id) {
    && (Waits(db', id) <==> Waits(db, id))
    && (id in db'.holders <==> id in db.holders) && (id in db.holders ==> db'.holders[id] == db.holders[id])
    && (id in db'.expiry <==> id in db.expiry) && (id in db.expiry ==> db'.expiry[id] == db.expiry[id])
  }

  // Coupling is lost at the given tickets only.
  lemma ElsewhereKeeps(b: Both, db': Redis, touched: set<Id>)
    requires Coupled(b) && Agree(db') && forall id :: id !in touched ==> SamePlace(b.redis, db', id)
    requires forall id :: id in touched ==> CoupledAt(b.(redis := db'), id)
    ensures Coupled(b.(redis := db'))
  {
    forall id ensures CoupledAt(b.(redis := db'), id) { assert CoupledAt(b, id); }
  }

  lemma HoldKeeps(b: Both, ids: set<Id>, r: Id, expires: Time)
    requires Coupled(b) && AllWaiting(b.redis, ids) && Agree(Hold(b.redis, ids, r, expires))
    ensures Coupled(b.(redis := Hold(b.redis, ids, r, expires)))
  {
    forall id | id in ids ensures CoupledAt(b.(redis := Hold(b.redis, ids, r, expires)), id) {
      assert CoupledAt(b, id);
    }
    ElsewhereKeeps(b, Hold(b.redis, ids, r, expires), ids);
  }

  // What Redis reserves waits there, so the durable side has not given it away.
  lemma RedisReserveKeeps(b: Both, ids: set<Id>, r: Id, expires: Time)
    requires Coupled(b)
    ensures Coupled(b.(redis := Reserve(b.redis, ids, r, expires).0))
  {
    var db' := Reserve(b.redis, ids, r, expires).0;
    ReserveAgrees(b.redis, ids, r, expires);
    if db' == b.redis.(members := db'.members) {
      ElsewhereKeeps(b, db', {});
    } else {
      HoldKeeps(b, ids, r, expires);
    }
  }

  lemma RedisReleaseKeepsExactly(b: Both, r: Id)
    requires Coupled(b)
    ensures Coupled(b.(redis := Release(b.redis, r).0)) <==> forall id :: id in HeldBy(b.redis, r) ==>
              !GivenAway(b.durable, id)
  {
    var db' := ReleasedPlaces(b.redis, r);
    RequeuedExactly(b, db', HeldBy(b.redis, r));
  }

  lemma RequeuedPlaces(db: Redis, db': Redis, ids: set<Id>)
    requires db'.states == Setting(db.states, ids, Queued) && db'.holders == db.holders - ids
             && db'.expiry == db.expiry - ids
    ensures forall id :: id in ids ==> Waits(db', id) && id !in db'.holders
    ensures forall id :: id !in ids ==> SamePlace(db, db', id)
  {
  }

  lemma SettledPlaces(db: Redis, db': Redis, ids: set<Id>)
    requires db'.states == Setting(db.states, ids, Assigned) && db'.holders == db.holders - ids
             && db'.expiry == db.expiry - ids
    ensures forall id :: id in ids ==> !Waits(db', id) && id !in db'.holders
    ensures forall id :: id !in ids ==> SamePlace(db, db', id)
  {
  }

  lemma ReleasedPlaces(db: Redis, r: Id) returns (db': Redis)
    requires Agree(db)
    ensures db' == Release(db, r).0 && Agree(db')
    ensures forall id :: id in HeldBy(db, r) ==> Waits(db', id)
    ensures forall id :: id !in HeldBy(db, r) ==> SamePlace(db, db', id)
  {
    ReleaseAgrees(db, r);
    db' := Release(db, r).0;
    RequeuedPlaces(db, db', HeldBy(db, r));
  }

  lemma FinalizedPlaces(db: Redis, r: Id, m: Id) returns (db': Redis)
    requires Agree(db)
    ensures db' == Finalize(db, r, m).0 && Agree(db')
    ensures forall id :: id in HeldBy(db, r) ==> !Waits(db', id) && id !in db'.holders
    ensures forall id :: id !in HeldBy(db, r) ==> SamePlace(db, db', id)
  {
    FinalizeAgrees(db, r, m);
    db' := Finalize(db, r, m).0;
    SettledPlaces(db, db', HeldBy(db, r));
  }

  lemma RecoveredPlaces(db: Redis, now: Time, limit: nat, due: seq<Id>) returns (db': Redis)
    requires Agree(db) && RangeByScore(db.expiry, now, limit, due)
    ensures db' == RecoverEach(db, due) && Agree(db')
    ensures forall id :: id in due ==> Waits(db', id) && id !in db'.holders
    ensures forall id :: id !in due ==> SamePlace(db, db', id)
  {
    assert Elements(due) <= db.expiry.Keys;
    RecoverEachAgrees(db, due);
    db' := RecoverEach(db, due);
    forall id | id in Elements(due) ensures id in db.states { assert TicketAgrees(db, id); }
    assert db'.states == Setting(db.states, Elements(due), Queued);
    assert forall id :: id in due <==> id in Elements(due);
    RequeuedPlaces(db, db', Elements(due));
  }

  // The tickets go back to their pools: none of them may be given away.
  lemma RequeuedExactly(b: Both, db': Redis, ids: set<Id>)
    requires Coupled(b) && Agree(db') && forall id :: id !in ids ==> SamePlace(b.redis, db', id)
    requires forall id :: id in ids ==> Waits(db', id)
    ensures Coupled(b.(redis := db')) <==> forall id :: id in ids ==> !GivenAway(b.durable, id)
  {
    var b' := b.(redis := db');
    if forall id :: id in ids ==> !GivenAway(b.durable, id) {
      ElsewhereKeeps(b, db', ids);
    } else {
      var id :| id in ids && GivenAway(b.durable, id);
      assert !CoupledAt(b', id);
    }
  }

  lemma RedisFinalizeKeepsExactly(b: Both, r: Id, m: Id)
    requires Coupled(b)
    ensures Coupled(b.(redis := Finalize(b.redis, r, m).0)) <==> forall id :: id in HeldBy(b.redis, r) ==>
              !IsReserved(b.durable, id)
  {
    var db' := FinalizedPlaces(b.redis, r, m);
    SettledExactly(b, db', HeldBy(b.redis, r));
  }

  // The tickets are neither held nor waiting any more: none of them may be reserved.
  lemma SettledExactly(b: Both, db': Redis, ids: set<Id>)
    requires Coupled(b) && Agree(db') && forall id :: id !in ids ==> SamePlace(b.redis, db', id)
    requires forall id :: id in ids ==> !Waits(db', id) && id !in db'.holders
    ensures Coupled(b.(redis := db')) <==> forall id :: id in ids ==> !IsReserved(b.durable, id)
  {
    var b' := b.(redis := db');
    if forall id :: id in ids ==> !IsReserved(b.durable, id) {
      ElsewhereKeeps(b, db', ids);
    } else {
      var id :| id in ids && IsReserved(b.durable, id);
      assert !CoupledAt(b', id);
    }
  }

  lemma RedisRecoverKeepsExactly(b: Both, now: Time, limit: nat, due: seq<Id>)
    requires Coupled(b) && RangeByScore(b.redis.expiry, now, limit, due)
    ensures Coupled(b.(redis := RecoverEach(b.redis, due))) <==> forall id :: id in due ==> !GivenAway(b.durable, id)
  {
    var db' := RecoveredPlaces(b.redis, now, limit, due);
    RequeuedExactly(b, db', Elements(due));
  }

  lemma RedisUpsertKeepsExactly(b: Both, id: Id, pool: PoolKey, score: int)
    requires Coupled(b) && Agree(Upsert(b.redis, id, pool, score))
    ensures Coupled(b.(redis := Upsert(b.redis, id, pool, score))) <==> !GivenAway(b.durable, id)
  {
    RequeuedExactly(b, Upsert(b.redis, id, pool, score), {id});
  }

  lemma RedisRemoveKeepsExactly(b: Both, id: Id, state: TicketState, pool: Option<PoolKey>, reservation: Option<Id>)
    requires Coupled(b) && state != Queued && state != Reserved && Agree(Remove(b.redis, id, state, pool, reservation))
    ensures Coupled(b.(redis := Remove(b.redis, id, state, pool, reservation))) <==> !IsReserved(b.durable, id)
  {
    SettledExactly(b, Remove(b.redis, id, state, pool, reservation), {id});
  }

  lemma RedisVanishKeeps(b: Both, r: Id)
    requires Coupled(b)
    ensures Coupled(b.(redis := Vanish(b.redis, r)))
  {
    R.VanishAgrees(b.redis, r);
    ElsewhereKeeps(b, Vanish(b.redis, r), {});
  }

  lemma RedisStepKeepsExactly(b: Both, c: R.Command)
    requires Coupled(b)
    ensures Coupled(b.(redis := R.Step(b.redis, c))) <==> R.Careful(b.redis, c) && TimelyOnRedis(b, c)
  {
    R.StepAgreesExactly(b.redis, c);
    if R.Careful(b.redis, c) {
      match c
      case ReserveCommand(ids, r, expires) => RedisReserveKeeps(b, ids, r, expires);
      case ReleaseCommand(r) => RedisReleaseKeepsExactly(b, r);
      case FinalizeCommand(r, m) => RedisFinalizeKeepsExactly(b, r, m);
      case RecoverCommand(now, limit, due) =>
        if RangeByScore(b.redis.expiry, now, limit, due) {
          RedisRecoverKeepsExactly(b, now, limit, due);
        }
      case VanishCommand(r) => RedisVanishKeeps(b, r);
      case UpsertCommand(id, pool, score) => RedisUpsertKeepsExactly(b, id, pool, score);
      case RemoveCommand(id, state, pool, reservation) =>
        if state != Queued && state != Reserved {
          RedisRemoveKeepsExactly(b, id, state, pool, reservation);
        }
    }
  }

  /* Steps and runs */

  /** Each step keeps the two sides coupled iff it finds what it must find. */
  lemma StepKeepsExactly(b: Both, step: Step)
    requires Coupled(b)
    ensures Coupled(Next(b, step)) <==> Timely(b, step)
  {
    match step
    case CreateDurably(t, key) => if t.Restorable() { CreateKeeps(b, t, key); }
    case CancelDurably(id, player, key, now) => CancelKeeps(b, id, player, key, now);
    case ReserveDurably(ids, r, expires, now) => ReserveKeepsExactly(b, ids, r, expires, now);
    case ReleaseDurably(r, now) => ReleaseKeeps(b, r, now);
    case AssignDurably(r, m, now) => AssignKeeps(b, r, m, now);
    case CompleteDurably(m) => CompleteKeeps(b, m);
    case RecoverDurably(now) => RecoverDurablyKeeps(b, now);
    case OnRedis(c) => RedisStepKeepsExactly(b, c);
  }

  const NOTHING := Both(D.EMPTY, EMPTY)

  ghost function Run(steps: seq<Step>): Both {
    if steps == [] then NOTHING else Next(Run(steps[..|steps| - 1]), steps[|steps| - 1])
  }

  // At every moment of the run.
  ghost predicate CoupledThroughout(steps: seq<Step>) {
    Coupled(Run(steps)) && (steps != [] ==> CoupledThroughout(steps[..|steps| - 1]))
  }

  ghost predicate TimelyThroughout(steps: seq<Step>) {
    steps != [] ==>
      TimelyThroughout(steps[..|steps| - 1]) && Timely(Run(steps[..|steps| - 1]), steps[|steps| - 1])
  }

  /** All through a run the two sides are coupled iff every step of it is timely. */
  lemma {:induction false} RunCoupledExactly(steps: seq<Step>)
    ensures CoupledThroughout(steps) <==> TimelyThroughout(steps)
  {
    if steps == [] {
      D.EmptyInv();
      EmptyAgrees();
    } else {
      var init := steps[..|steps| - 1];
      RunCoupledExactly(init);
      if CoupledThroughout(init) {
        StepKeepsExactly(Run(init), steps[|steps| - 1]);
      }
    }
  }

  /* The operations of the combined store */

  /**
    The Redis step of AssignAll and of a second FinalizeAssignment is timely: the reservation is gone from the
    durable side.
  */
  lemma FinalizeIsTimely(b: Both, r: Id, m: Id)
    requires Coupled(b) && r !in b.durable.reservations
    ensures Timely(b, OnRedis(R.FinalizeCommand(r, m)))
  {
    forall id | id in HeldBy(b.redis, r) ensures !IsReserved(b.durable, id) {
      assert CoupledAt(b, id) && D.TicketOk(b.durable, id);
    }
  }

  /**
    The Redis step of ReleaseAll, and the rollback of ReserveAll, find the reservation gone from the
    durable side: they are timely iff none of its tickets has been assigned meanwhile.
  */
  lemma ReleaseIsTimely(b: Both, r: Id)
    requires Coupled(b) && r !in b.durable.reservations
    ensures Timely(b, OnRedis(R.ReleaseCommand(r))) <==>
              forall id :: id in HeldBy(b.redis, r) && id in b.durable.tickets ==>
                  b.durable.tickets[id].state != Assigned
  {
    forall id | id in HeldBy(b.redis, r) ensures !IsReserved(b.durable, id) {
      assert CoupledAt(b, id) && D.TicketOk(b.durable, id);
    }
  }

  /** ReserveAll reserves in Redis first; its durable step is timely as long as Redis still holds the tickets. */
  lemma ReserveIsTimely(b: Both, ids: seq<Id>, r: Id, expires: Time, now: Time)
    requires Agree(b.redis) && Elements(ids) != {} && HeldBy(b.redis, r) == {}
             && Reserve(b.redis, Elements(ids), r, Millis(expires)).1.Ok?
    ensures Timely(b.(redis := Reserve(b.redis, Elements(ids), r, Millis(expires)).0),
                   ReserveDurably(ids, r, expires, now))
  {
    R.NotHeldYet(b.redis, Elements(ids), r);
    assert forall id :: id in ids ==> id in Elements(ids);
  }

  /**
    RecoverExpiredReservations recovers durably and then in Redis, which counts milliseconds.  The
    second step is timely iff it meets no ticket that was assigned but not yet finalized, and none
    whose hold runs out within the very millisecond.
  */
  lemma RecoveryIsTimely(b: Both, now: Time, limit: nat, due: seq<Id>)
    requires Coupled(b) && RangeByScore(b.redis.expiry, Millis(now), limit, due)
    requires forall id :: IsReserved(b.durable, id) ==> now < b.durable.tickets[id].expiresAt
    ensures Timely(b, OnRedis(R.RecoverCommand(Millis(now), limit, due))) <==>
              forall id :: id in due && id in b.durable.tickets ==>
                && b.durable.tickets[id].state != Assigned
                && !(b.durable.tickets[id].state == Reserved && Millis(b.durable.tickets[id].expiresAt) == Millis(now))
  {
    forall id | id in due && IsReserved(b.durable, id) ensures Millis(b.durable.tickets[id].expiresAt) == Millis(now) {
      assert CoupledAt(b, id);
      LaterMillis(now, b.durable.tickets[id].expiresAt);
    }
  }

  lemma LaterMillis(now: Time, expires: Time)
    requires now < expires
    ensures Millis(now) <= Millis(expires)
  {
  }

  /** What happens otherwise: a ticket given away that Redis recovers is offered. */
  lemma RecoveryOffers(b: Both, id: Id, now: Time, limit: nat, due: seq<Id>)
    requires Coupled(b) && GivenAway(b.durable, id) && RangeByScore(b.redis.expiry, now, limit, due) && id in due
    ensures Offered(Next(b, OnRedis(R.RecoverCommand(now, limit, due))), id)
  {
    var recovered := RecoveredPlaces(b.redis, now, limit, due);
  }

  /**
    So if Redis recovers a ticket between its durable assignment and the finalization, Redis offers
    it from then on, and the finalization does not help.
  */
  lemma LateFinalizationOffers(b: Both, id: Id, r: Id, m: Id, now: Time, limit: nat, due: seq<Id>)
    requires Coupled(b) && id in b.durable.tickets && b.durable.tickets[id].state == Assigned
    requires RangeByScore(b.redis.expiry, now, limit, due) && id in due
    ensures var recovered := Next(b, OnRedis(R.RecoverCommand(now, limit, due)));
            && Offered(recovered, id) && Offered(Next(recovered, OnRedis(R.FinalizeCommand(r, m))), id)
  {
    RecoveryOffers(b, id, now, limit, due);
    var recovered := RecoveredPlaces(b.redis, now, limit, due);
    StillWaits(recovered, id, r, m);
  }

  // Finalization does not touch what nobody holds.
  lemma StillWaits(db: Redis, id: Id, r: Id, m: Id)
    requires Agree(db) && Waits(db, id) && id !in db.holders
    ensures Waits(Finalize(db, r, m).0, id)
  {
    var finalized := FinalizedPlaces(db, r, m);
    assert id !in HeldBy(db, r);
  }

  /** But the durable side decides: no reservation of an offered ticket goes through. */
  lemma OfferedIsRefused(b: Both, id: Id, ids: seq<Id>, r: Id, expires: Time, now: Time)
    requires D.Inv(b.durable) && Offered(b, id) && id in ids && r !in b.durable.reservations
    ensures D.ReserveAll(b.durable, ids, r, expires, now) == (b.durable, Err(D.ReservationConflict))
  {
    D.ReserveExactly(b.durable, ids, r, expires, now);
  }
}
