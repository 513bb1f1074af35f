/**
  Runs of Redis beside the durable store (internal/matchmaking/repository/redis/store.go:56-165),
  from empty stores, after which Redis offers a ticket that the durable side has given away.
*/
module RedisRuns {
  import opened Prelude
  import opened Tickets
  import D = TicketStoreSpec
  import opened RedisScripts
  import R = RedisAgreement
  import opened RedisQueues
  import opened RedisDurable

  const POOL := PoolKey(1, 1, 1)

  const TICKET :=
    Ticket(Profile(1, 1, NO_ID, POOL, 1000.0, [Core], map[1 := 50], 1), Queued, 1, NO_ID, ZERO_TIME, NO_ID)

  lemma TicketIsAcceptable()
    ensures TICKET.profile.Acceptable() && TICKET.Restorable()
  {
    assert 1 in TICKET.profile.latency;
  }

  lemma OneMore(steps: seq<Step>, step: Step)
    ensures Run(steps + [step]) == Next(Run(steps), step)
  {
    assert (steps + [step])[..|steps|] == steps;
  }

  /* The states on the way */

  // Ticket 1 waits on both sides.
  ghost predicate Waiting(b: Both) {
    && Coupled(b) && b.durable.tickets == map[1 := TICKET] && b.durable.reservations == map[]
    && D.ScopedKey(1, 1) in b.durable.createKeys
    && AllWaiting(b.redis, {1}) && b.redis.holders == map[] && b.redis.expiry == map[] && b.redis.members == {}
  }

  // Redis holds it for reservation 7.
  ghost predicate HeldInRedis(b: Both, expires: Time) {
    && Coupled(b) && b.durable.tickets == map[1 := TICKET] && b.durable.reservations == map[]
    && D.ScopedKey(1, 1) in b.durable.createKeys
    && HeldAs(b.redis, 1, 7, expires) && b.redis.expiry == map[1 := Millis(expires)]
  }

  // So does the durable side.
  ghost predicate HeldOnBoth(b: Both, expires: Time) {
    && Coupled(b) && b.durable.tickets.Keys == {1} && 7 in b.durable.reservations && D.Held(b.durable, 1, 7)
    && b.durable.tickets[1].expiresAt == expires && b.redis.expiry == map[1 := Millis(expires)]
  }

  // The durable side has assigned it to match 9.
  ghost predicate Seated(b: Both, expires: Time) {
    && Coupled(b) && 1 in b.durable.tickets && b.durable.tickets[1].state == Assigned
    && b.redis.expiry == map[1 := Millis(expires)]
  }

  const CREATE := CreateDurably(TICKET, 1)
  const UPSERT := OnRedis(R.UpsertCommand(1, POOL, 1))

  function HoldStep(expires: Time): Step {
    OnRedis(R.ReserveCommand({1}, 7, Millis(expires)))
  }

  function ReserveStep(expires: Time): Step {
    ReserveDurably([1], 7, expires, 2)
  }

  const ASSIGN := AssignDurably(7, 9, 3)

  function RecoverStep(now: Time): Step {
    OnRedis(R.RecoverCommand(Millis(now), 1000, [1]))
  }

  const FINALIZE := OnRedis(R.FinalizeCommand(7, 9))

  lemma AfterCreate(b: Both)
    requires b == NOTHING
    ensures var b' := Next(b, CREATE);
            && Coupled(b') && b'.durable.tickets == map[1 := TICKET] && b'.durable.reservations == map[]
            && D.ScopedKey(1, 1) in b'.durable.createKeys && b'.redis == b.redis
  {
    D.EmptyInv();
    EmptyAgrees();
    StepKeepsExactly(b, CREATE);
  }

  lemma AfterUpsert(b: Both)
    requires Coupled(b) && b.durable.tickets == map[1 := TICKET] && b.durable.reservations == map[]
    requires D.ScopedKey(1, 1) in b.durable.createKeys && b.redis == NOTHING.redis
    ensures Waiting(Next(b, UPSERT))
  {
    StepKeepsExactly(b, UPSERT);
  }

  lemma BothCreated()
    ensures Waiting(Run([CREATE, UPSERT]))
  {
    assert [] + [CREATE] + [UPSERT] == [CREATE, UPSERT];
    OneMore([], CREATE);
    AfterCreate(Run([]));
    OneMore([] + [CREATE], UPSERT);
    AfterUpsert(Next(Run([]), CREATE));
  }

  lemma AfterHold(b: Both, expires: Time)
    requires Waiting(b)
    ensures HeldInRedis(Next(b, HoldStep(expires)), expires)
  {
    StepKeepsExactly(b, HoldStep(expires));
    assert HeldBy(b.redis, 7) == {};
    R.NotHeldYet(b.redis, {1}, 7);
  }

  lemma AfterReserve(b: Both, expires: Time)
    requires HeldInRedis(b, expires) && expires > 2
    ensures HeldOnBoth(Next(b, ReserveStep(expires)), expires)
  {
    D.ReserveExactly(b.durable, [1], 7, expires, 2);
    D.ReserveEffect(b.durable, [1], 7, expires, 2);
    StepKeepsExactly(b, ReserveStep(expires));
  }

  lemma AfterAssign(b: Both, expires: Time)
    requires HeldOnBoth(b, expires)
    ensures Seated(Next(b, ASSIGN), expires)
  {
    D.AssignEffect(b.durable, 7, 9, 3);
    StepKeepsExactly(b, ASSIGN);
  }

  lemma HeldRun(expires: Time)
    requires expires > 2
    ensures HeldInRedis(Run([CREATE, UPSERT, HoldStep(expires)]), expires)
    ensures HeldOnBoth(Run([CREATE, UPSERT, HoldStep(expires), ReserveStep(expires)]), expires)
  {
    var created := [CREATE, UPSERT];
    var held := created + [HoldStep(expires)];
    assert held == [CREATE, UPSERT, HoldStep(expires)];
    assert held + [ReserveStep(expires)] == [CREATE, UPSERT, HoldStep(expires), ReserveStep(expires)];
    BothCreated();
    OneMore(created, HoldStep(expires));
    AfterHold(Run(created), expires);
    OneMore(held, ReserveStep(expires));
    AfterReserve(Run(held), expires);
  }

  lemma IsDue(db: Redis, now: Time)
    requires db.expiry.Keys == {1} && db.expiry[1] <= now
    ensures RangeByScore(db.expiry, now, 1000, [1])
  {
  }

  /* A recovery before the finalization */

  function LateFinalization(expires: Time): seq<Step> {
    [CREATE, UPSERT, HoldStep(expires), ReserveStep(expires), ASSIGN, RecoverStep(expires), FINALIZE]
  }

  lemma OfferedLate(b: Both, expires: Time)
    requires Seated(b, expires)
    ensures Offered(Next(Next(b, RecoverStep(expires)), FINALIZE), 1)
  {
    IsDue(b.redis, Millis(expires));
    LateFinalizationOffers(b, 1, 7, 9, Millis(expires), 1000, [1]);
  }

  /** Redis offers a ticket that plays, because the recovery came before the finalization. */
  lemma LateFinalizationRun(expires: Time)
    requires expires > 2
    ensures Offered(Run(LateFinalization(expires)), 1)
  {
    var held := [CREATE, UPSERT, HoldStep(expires), ReserveStep(expires)];
    HeldRun(expires);
    OneMore(held, ASSIGN);
    AfterAssign(Run(held), expires);
    OneMore(held + [ASSIGN], RecoverStep(expires));
    OneMore(held + [ASSIGN] + [RecoverStep(expires)], FINALIZE);
    OfferedLate(Run(held + [ASSIGN]), expires);
    assert held + [ASSIGN] + [RecoverStep(expires)] + [FINALIZE] == LateFinalization(expires);
  }

  /* A recovery within the millisecond in which the hold expires */

  function EarlyRecovery(now: Time, expires: Time): seq<Step> {
    [CREATE, UPSERT, HoldStep(expires), ReserveStep(expires), RecoverDurably(now), RecoverStep(now)]
  }

  lemma NothingLapsed(b: Both, now: Time, expires: Time)
    requires HeldOnBoth(b, expires) && now < expires
    ensures HeldOnBoth(Next(b, RecoverDurably(now)), expires)
  {
    D.RecoverEffect(b.durable, now);
    D.LapseTogether(b.durable, 1, now);
    StepKeepsExactly(b, RecoverDurably(now));
  }

  lemma OfferedEarly(b: Both, now: Time, expires: Time)
    requires HeldOnBoth(b, expires) && Millis(now) == Millis(expires)
    ensures Offered(Next(b, RecoverStep(now)), 1)
    ensures D.Held(Next(b, RecoverStep(now)).durable, 1, 7)
  {
    IsDue(b.redis, Millis(now));
    RecoveryOffers(b, 1, Millis(now), 1000, [1]);
  }

  /** Redis offers a ticket that is still held durably, because the hold expires later in the same millisecond. */
  lemma EarlyRecoveryRun(now: Time, expires: Time)
    requires 2 < now < expires && Millis(now) == Millis(expires)
    ensures var b := Run(EarlyRecovery(now, expires)); Offered(b, 1) && D.Held(b.durable, 1, 7)
  {
    var held := [CREATE, UPSERT, HoldStep(expires), ReserveStep(expires)];
    HeldRun(expires);
    OneMore(held, RecoverDurably(now));
    NothingLapsed(Run(held), now, expires);
    OneMore(held + [RecoverDurably(now)], RecoverStep(now));
    OfferedEarly(Run(held + [RecoverDurably(now)]), now, expires);
    assert held + [RecoverDurably(now)] + [RecoverStep(now)] == EarlyRecovery(now, expires);
  }

  // Two such times.
  lemma SameMillisecond()
    ensures 2 < 5_000_000 < 5_000_001 && Millis(5_000_000) == Millis(5_000_001)
  {
  }

  /* A repeated creation between the two steps of a reservation */

  function RepeatedCreation(expires: Time): seq<Step> {
    [CREATE, UPSERT, HoldStep(expires), CREATE, UPSERT, ReserveStep(expires)]
  }

  lemma CreatedAgain(b: Both, expires: Time)
    requires HeldInRedis(b, expires)
    ensures Next(b, CREATE) == b
  {
  }

  lemma UpsertedAgain(b: Both, expires: Time)
    requires HeldInRedis(b, expires)
    ensures var b' := Next(b, UPSERT); b'.durable == b.durable && Waits(b'.redis, 1)
  {
  }

  lemma OfferedAnew(b: Both, expires: Time)
    requires D.Inv(b.durable) && b.durable.tickets == map[1 := TICKET] && b.durable.reservations == map[]
    requires Waits(b.redis, 1) && expires > 2
    ensures Offered(Next(b, ReserveStep(expires)), 1) && D.Held(Next(b, ReserveStep(expires)).durable, 1, 7)
  {
    D.ReserveExactly(b.durable, [1], 7, expires, 2);
    D.ReserveEffect(b.durable, [1], 7, expires, 2);
  }

  /** Redis offers a ticket that is held durably, because its creation was repeated meanwhile. */
  lemma RepeatedCreationRun(expires: Time)
    requires expires > 2
    ensures var b := Run(RepeatedCreation(expires)); Offered(b, 1) && D.Held(b.durable, 1, 7)
  {
    var held := [CREATE, UPSERT, HoldStep(expires)];
    HeldRun(expires);
    OneMore(held, CREATE);
    CreatedAgain(Run(held), expires);
    OneMore(held + [CREATE], UPSERT);
    UpsertedAgain(Run(held), expires);
    OneMore(held + [CREATE] + [UPSERT], ReserveStep(expires));
    OfferedAnew(Run(held + [CREATE] + [UPSERT]), expires);
    assert held + [CREATE] + [UPSERT] + [ReserveStep(expires)] == RepeatedCreation(expires);
  }
}
