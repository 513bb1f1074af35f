/**
  The Redis side of the queue (internal/matchmaking/repository/redis/scripts.go and queue.go):
  what each Lua script does to the hashes, sorted sets and sets, each script being atomic.

  Redis keeps no empty set, so a family of sets is the relation of its members: a pool's sorted
  set is the entries of that pool, a reservation's set the entries of that reservation.  The set
  of a reservation has a time to live and can vanish at any time.  Times are in milliseconds.
*/
module RedisScripts {
  import opened Prelude
  import opened Tickets

  datatype QueueEntry = QueueEntry(pool: PoolKey, ticket: Id)

  datatype SetEntry = SetEntry(reservation: Id, ticket: Id)

  datatype Redis = Redis(
    states: map<Id, TicketState>,
    pools: map<Id, PoolKey>,
    scores: map<Id, int>,
    holders: map<Id, Id>,
    expiry: map<Id, Time>,
    matches: map<Id, Id>,
    queues: map<QueueEntry, int>,
    members: set<SetEntry>)

  datatype ScriptError = ReservationConflict

  function Members(db: Redis, r: Id): set<Id> {
    set e | e in db.members && e.reservation == r :: e.ticket
  }

  function HeldBy(db: Redis, r: Id): set<Id> {
    set id | id in db.holders && db.holders[id] == r
  }

  function EntriesOf(ids: set<Id>, r: Id): set<SetEntry> {
    set id | id in ids :: SetEntry(r, id)
  }

  function Delete(members: set<SetEntry>, r: Id): set<SetEntry> {
    set e | e in members && e.reservation != r
  }

  // The ticket has a pool and a score to go back to.
  predicate Placed(db: Redis, id: Id) {
    id in db.states && id in db.pools && id in db.scores
  }

  predicate IsHeld(db: Redis, id: Id, r: Id) {
    id in db.states && db.states[id] == Reserved && id in db.holders && db.holders[id] == r
  }

  /* What the scripts' loops do to a set of tickets */

  function Positions(db: Redis, ids: set<Id>): set<QueueEntry> {
    set id | id in ids && id in db.pools :: QueueEntry(db.pools[id], id)
  }

  // HSET of one value for several fields.
  function Setting<V>(entries: map<Id, V>, ids: set<Id>, value: V): map<Id, V> {
    map id | id in entries.Keys + ids :: if id in ids then value else entries[id]
  }

  lemma SettingOne<V>(entries: map<Id, V>, id: Id, value: V)
    ensures Setting(entries, {id}, value) == entries[id := value]
  {
  }

  lemma SettingOneMore<V>(entries: map<Id, V>, ids: set<Id>, id: Id, value: V)
    ensures Setting(Setting(entries, ids, value), {id}, value) == Setting(entries, ids + {id}, value)
  {
  }

  // Where the tickets go back to.
  function Placements(pools: map<Id, PoolKey>, scores: map<Id, int>, ids: set<Id>): map<QueueEntry, int> {
    map id | id in ids && id in pools && id in scores :: QueueEntry(pools[id], id) := scores[id]
  }

  function Hold(db: Redis, ids: set<Id>, r: Id, expires: Time): Redis {
    db.(states := Setting(db.states, ids, Reserved),
        holders := Setting(db.holders, ids, r),
        expiry := Setting(db.expiry, ids, expires),
        queues := db.queues - Positions(db, ids),
        members := db.members + EntriesOf(ids, r))
  }

  function Requeue(db: Redis, ids: set<Id>): Redis {
    db.(states := Setting(db.states, ids, Queued),
        holders := db.holders - ids,
        expiry := db.expiry - ids,
        queues := db.queues + Placements(db.pools, db.scores, ids))
  }

  function Settle(db: Redis, ids: set<Id>, m: Id): Redis {
    db.(states := Setting(db.states, ids, Assigned),
        matches := Setting(db.matches, ids, m),
        holders := db.holders - ids,
        expiry := db.expiry - ids)
  }

  /* The scripts */

  predicate AllWaiting(db: Redis, ids: set<Id>) {
    forall id :: id in ids ==> Placed(db, id) && db.states[id] == Queued
  }

  predicate AllHeld(db: Redis, ids: set<Id>, r: Id) {
    forall id :: id in ids ==> Placed(db, id) && IsHeld(db, id, r)
  }

  // A first call takes waiting tickets for a reservation that holds nothing; a repeated call with
  // the tickets it already holds puts their set back.
  function Reserve(db: Redis, ids: set<Id>, r: Id, expires: Time): (Redis, Result<nat, ScriptError>) {
    if ids != {} && AllHeld(db, ids, r) && |HeldBy(db, r)| == |ids| then
      (db.(members := db.members + EntriesOf(ids, r)), Ok(|ids|))
    else if ids != {} && AllWaiting(db, ids) && HeldBy(db, r) == {} then (Hold(db, ids, r, expires), Ok(|ids|))
    else (db, Err(ReservationConflict))
  }

  function ListedBy(db: Redis, r: Id): set<Id> {
    if Members(db, r) == {} then HeldBy(db, r) else Members(db, r)
  }

  function Release(db: Redis, r: Id): (Redis, Result<nat, ScriptError>) {
    var ids := ListedBy(db, r);
    if ids == {} then (db, Ok(0))
    else if !AllHeld(db, ids, r) then (db, Err(ReservationConflict))
    else (Requeue(db, ids).(members := Delete(db.members, r)), Ok(|ids|))
  }

  function Finalize(db: Redis, r: Id, m: Id): (Redis, nat) {
    var ids := ListedBy(db, r);
    (Settle(db, (set id | id in ids && IsHeld(db, id, r)), m).(members := Delete(db.members, r)), |ids|)
  }

  // One ticket of the recovery loop.
  function RecoverOne(db: Redis, id: Id): Redis {
    if id in db.states && db.states[id] == Reserved && id in db.holders && id in db.pools && id in db.scores then
      Requeue(db, {id}).(members := db.members - {SetEntry(db.holders[id], id)})
    else
      db.(expiry := db.expiry - {id})
  }

  function RecoverEach(db: Redis, due: seq<Id>): Redis {
    if due == [] then db else RecoverOne(RecoverEach(db, due[..|due| - 1]), due[|due| - 1])
  }

  // What ZRANGEBYSCORE answers: the first entries up to a score, in the order of score and member.
  ghost predicate RangeByScore(entries: map<Id, Time>, upTo: Time, limit: nat, due: seq<Id>) {
    && Distinct(due) && |due| <= limit
    && (forall id :: id in due ==> id in entries && entries[id] <= upTo)
    && (forall i, j :: 0 <= i < j < |due| ==> Sooner(entries, due[i], due[j]))
    && (|due| < limit ==> forall id :: id in entries && entries[id] <= upTo ==> id in due)
    && (forall id, k :: id in entries && entries[id] <= upTo && id !in due && k in due ==> Sooner(entries, k, id))
  }

  predicate Sooner(entries: map<Id, Time>, a: Id, b: Id) {
    a in entries && b in entries && (entries[a] < entries[b] || (entries[a] == entries[b] && a < b))
  }

  // The set of a reservation reaches the end of its time to live.
  function Vanish(db: Redis, r: Id): Redis {
    db.(members := Delete(db.members, r))
  }

  // UpsertTicket of a queued ticket.
  function Upsert(db: Redis, id: Id, pool: PoolKey, score: int): Redis {
    db.(states := db.states[id := Queued], pools := db.pools[id := pool], scores := db.scores[id := score],
        queues := db.queues[QueueEntry(pool, id) := score],
        holders := db.holders - {id}, expiry := db.expiry - {id})
  }

  // The pipeline of RemoveTicket, with the pool and the reservation that were read before it.
  function Remove(db: Redis, id: Id, state: TicketState, pool: Option<PoolKey>, reservation: Option<Id>): Redis {
    db.(states := db.states[id := state],
        queues := if pool.Some? then db.queues - {QueueEntry(pool.value, id)} else db.queues,
        members := if reservation.Some? then db.members - {SetEntry(reservation.value, id)} else db.members,
        holders := db.holders - {id}, expiry := db.expiry - {id})
  }

  function PoolRead(db: Redis, id: Id): Option<PoolKey> {
    if id in db.pools then Some(db.pools[id]) else None
  }

  function HolderRead(db: Redis, id: Id): Option<Id> {
    if id in db.holders then Some(db.holders[id]) else None
  }

  /* Agreement */

  // A ticket waits in the sorted set of its pool, or is held in the hash and the expiry index, or neither.
  ghost predicate TicketAgrees(db: Redis, id: Id) {
    && (id in db.holders <==> id in db.states && db.states[id] == Reserved)
    && (id in db.expiry <==> id in db.states && db.states[id] == Reserved)
    && (id in db.states && db.states[id] in {Queued, Reserved} ==> id in db.pools && id in db.scores)
    && (id in db.states && db.states[id] == Queued ==> QueueEntry(db.pools[id], id) in db.queues)
  }

  ghost predicate EntryAgrees(db: Redis, e: QueueEntry) {
    e in db.queues ==>
      && Placed(db, e.ticket) && db.states[e.ticket] == Queued
      && db.pools[e.ticket] == e.pool && db.queues[e] == db.scores[e.ticket]
  }

  // The set of a reservation is gone, or lists exactly the tickets that the hash gives to it.
  ghost predicate SetAgrees(db: Redis, r: Id) {
    Members(db, r) == {} || Members(db, r) == HeldBy(db, r)
  }

  ghost predicate Agree(db: Redis) {
    && (forall id {:trigger TicketAgrees(db, id)} :: TicketAgrees(db, id))
    && (forall e {:trigger EntryAgrees(db, e)} :: EntryAgrees(db, e))
    && (forall r {:trigger SetAgrees(db, r)} :: SetAgrees(db, r))
  }

  const EMPTY := Redis(map[], map[], map[], map[], map[], map[], map[], {})

  lemma EmptyAgrees()
    ensures Agree(EMPTY)
  {
    forall r ensures SetAgrees(EMPTY, r) { assert Members(EMPTY, r) == {}; }
  }

  /* Every script keeps the agreement */

  lemma KeepSet(db: Redis, db': Redis, r: Id)
    requires SetAgrees(db, r)
    requires forall id :: id in HeldBy(db', r) <==> id in HeldBy(db, r)
    requires forall id :: SetEntry(r, id) in db'.members <==> SetEntry(r, id) in db.members
    ensures SetAgrees(db', r)
  {
    assert HeldBy(db', r) == HeldBy(db, r);
    SameMembers(db, db', r);
  }

  lemma SameMembers(db: Redis, db': Redis, r: Id)
    requires forall id :: SetEntry(r, id) in db'.members <==> SetEntry(r, id) in db.members
    ensures Members(db', r) == Members(db, r)
  {
    forall id ensures id in Members(db', r) <==> id in Members(db, r) {
      MemberEntry(db, r, id);
      MemberEntry(db', r, id);
    }
  }

  lemma MemberEntry(db: Redis, r: Id, id: Id)
    ensures id in Members(db, r) <==> SetEntry(r, id) in db.members
  {
    if SetEntry(r, id) in db.members {
      assert SetEntry(r, id).ticket in Members(db, r);
    }
  }

  lemma NoMembers(db: Redis, r: Id)
    requires forall id :: SetEntry(r, id) !in db.members
    ensures Members(db, r) == {}
  {
    forall id ensures id !in Members(db, r) { MemberEntry(db, r, id); }
  }

  lemma ReserveAgrees(db: Redis, ids: set<Id>, r: Id, expires: Time)
    requires Agree(db)
    ensures Agree(Reserve(db, ids, r, expires).0)
  {
    var db' := Reserve(db, ids, r, expires).0;
    if ids != {} && AllHeld(db, ids, r) && |HeldBy(db, r)| == |ids| {
      SubsetOfSameSize(ids, HeldBy(db, r));
      RelistedAgrees(db, db', r);
    } else if ids != {} && AllWaiting(db, ids) && HeldBy(db, r) == {} {
      HoldAgrees(db, ids, r, expires);
    }
  }

  lemma SubsetOfSameSize<T>(a: set<T>, b: set<T>)
    requires a <= b && |a| == |b|
    ensures a == b
  {
    assert b == a + (b - a);
  }

  lemma RelistedAgrees(db: Redis, db': Redis, r: Id)
    requires Agree(db) && db' == db.(members := db.members + EntriesOf(HeldBy(db, r), r))
    ensures Agree(db')
  {
    forall id ensures TicketAgrees(db', id) { assert TicketAgrees(db, id); }
    forall e ensures EntryAgrees(db', e) { assert EntryAgrees(db, e); }
    forall q ensures SetAgrees(db', q) {
      assert SetAgrees(db, q);
      if q == r {
        forall id ensures id in Members(db', r) <==> id in HeldBy(db, r) {
          MemberEntry(db', r, id);
          MemberEntry(db, r, id);
        }
        assert Members(db', r) == HeldBy(db', r);
      } else {
        KeepSet(db, db', q);
      }
    }
  }

  lemma HoldAgrees(db: Redis, ids: set<Id>, r: Id, expires: Time)
    requires Agree(db) && AllWaiting(db, ids) && HeldBy(db, r) == {}
    ensures Agree(Hold(db, ids, r, expires))
  {
    var db' := Hold(db, ids, r, expires);
    forall id ensures TicketAgrees(db', id) { assert TicketAgrees(db, id); }
    forall e ensures EntryAgrees(db', e) {
      assert EntryAgrees(db, e);
      if e in db.queues && e.ticket in ids {
        assert QueueEntry(db.pools[e.ticket], e.ticket) in Positions(db, ids);
      }
    }
    forall q ensures SetAgrees(db', q) {
      assert SetAgrees(db, q);
      if q == r {
        forall id ensures id in Members(db', r) <==> id in HeldBy(db', r) {
          MemberEntry(db', r, id);
          MemberEntry(db, r, id);
          assert TicketAgrees(db, id);
        }
        assert Members(db', r) == HeldBy(db', r);
      } else {
        forall id ensures id in HeldBy(db', q) <==> id in HeldBy(db, q) { assert TicketAgrees(db, id); }
        KeepSet(db, db', q);
      }
    }
  }

  // All tickets of a reservation go back to their pools.
  lemma RequeueAgrees(db: Redis, ids: set<Id>, db': Redis)
    requires Agree(db) && forall id :: id in ids ==> Placed(db, id) && db.states[id] == Reserved
    requires db' == Requeue(db, ids).(members := db'.members)
    requires forall r {:trigger SetAgrees(db', r)} :: SetAgrees(db', r)
    ensures Agree(db')
  {
    forall id ensures TicketAgrees(db', id) {
      RequeuedTicket(db, ids, db', id);
    }
    forall e ensures EntryAgrees(db', e) {
      RequeuedEntry(db, ids, db', e);
    }
  }

  lemma RequeuedTicket(db: Redis, ids: set<Id>, db': Redis, id: Id)
    requires TicketAgrees(db, id) && (id in ids ==> Placed(db, id) && db.states[id] == Reserved)
    requires db' == Requeue(db, ids).(members := db'.members)
    ensures TicketAgrees(db', id)
  {
  }

  lemma RequeuedEntry(db: Redis, ids: set<Id>, db': Redis, e: QueueEntry)
    requires EntryAgrees(db, e)
    requires e.ticket in ids ==> Placed(db, e.ticket) && db.states[e.ticket] == Reserved
    requires db' == Requeue(db, ids).(members := db'.members)
    ensures EntryAgrees(db', e)
  {
  }

  // What release and finalize find in the set is what they would find in the hash.
  lemma ListedIsHeld(db: Redis, r: Id)
    requires Agree(db)
    ensures ListedBy(db, r) == HeldBy(db, r) && AllHeld(db, HeldBy(db, r), r)
  {
    assert SetAgrees(db, r);
    forall id | id in HeldBy(db, r) ensures Placed(db, id) && IsHeld(db, id, r) { assert TicketAgrees(db, id); }
  }

  lemma EndedSets(db: Redis, db': Redis, r: Id)
    requires Agree(db) && db'.holders == db.holders - HeldBy(db, r) && db'.members == Delete(db.members, r)
    ensures forall q :: SetAgrees(db', q)
  {
    forall q ensures SetAgrees(db', q) {
      assert SetAgrees(db, q);
      if q == r {
        NoMembers(db', r);
      } else {
        KeepSet(db, db', q);
      }
    }
  }

  /** Releasing never conflicts; it puts back every ticket that the reservation holds. */
  lemma ReleaseAgrees(db: Redis, r: Id)
    requires Agree(db)
    ensures Release(db, r).1 == Ok(|HeldBy(db, r)|)
    ensures Release(db, r).0 == Requeue(db, HeldBy(db, r)).(members := Delete(db.members, r))
    ensures Agree(Release(db, r).0)
  {
    ListedIsHeld(db, r);
    var ids := HeldBy(db, r);
    var db' := Requeue(db, ids).(members := Delete(db.members, r));
    EndedSets(db, db', r);
    RequeueAgrees(db, ids, db');
    if ids == {} {
      NothingToRelease(db, r);
    }
  }

  lemma NothingToRelease(db: Redis, r: Id)
    requires SetAgrees(db, r) && HeldBy(db, r) == {}
    ensures Requeue(db, {}) == db && Delete(db.members, r) == db.members
  {
    assert Placements(db.pools, db.scores, {}) == map[];
    forall e ensures e in Delete(db.members, r) <==> e in db.members {
      MemberEntry(db, r, e.ticket);
    }
  }

  /** Finalizing settles every ticket that the reservation holds. */
  lemma FinalizeAgrees(db: Redis, r: Id, m: Id)
    requires Agree(db)
    ensures Finalize(db, r, m) == (Settle(db, HeldBy(db, r), m).(members := Delete(db.members, r)), |HeldBy(db, r)|)
    ensures Agree(Finalize(db, r, m).0)
  {
    ListedIsHeld(db, r);
    var db' := Finalize(db, r, m).0;
    assert (set id | id in HeldBy(db, r) && IsHeld(db, id, r)) == HeldBy(db, r);
    forall id ensures TicketAgrees(db', id) { assert TicketAgrees(db, id); }
    forall e ensures EntryAgrees(db', e) { assert EntryAgrees(db, e); }
    EndedSets(db, db', r);
  }

  lemma RecoverOneAgrees(db: Redis, id: Id)
    requires Agree(db) && id in db.expiry
    ensures Agree(RecoverOne(db, id))
    ensures id in db.holders && RecoverOne(db, id)
            == Requeue(db, {id}).(members := db.members - {SetEntry(db.holders[id], id)})
    ensures RecoverOne(db, id).expiry == db.expiry - {id}
  {
    assert TicketAgrees(db, id);
    var q := db.holders[id];
    var db' := RecoverOne(db, id);
    forall r ensures SetAgrees(db', r) {
      assert SetAgrees(db, r);
      if r == q {
        forall x ensures x in Members(db', r) <==> x in Members(db, r) && x != id {
          MemberEntry(db, r, x);
          MemberEntry(db', r, x);
        }
        assert HeldBy(db', r) == HeldBy(db, r) - {id};
        assert Members(db', r) == Members(db, r) - {id};
      } else {
        KeepSet(db, db', r);
      }
    }
    RequeueAgrees(db, {id}, db');
  }

  ghost function Elements(ids: seq<Id>): set<Id> {
    set id | id in ids
  }

  // Together the rounds of the loop put back exactly the tickets that are due.
  ghost predicate Recovered(db: Redis, db': Redis, due: set<Id>) {
    && db'.pools == db.pools && db'.scores == db.scores && db'.matches == db.matches
    && db'.states == (map id | id in db.states :: if id in due then Queued else db.states[id])
    && db'.holders == db.holders - due && db'.expiry == db.expiry - due
    && db'.queues == Requeue(db, due).queues
    && db'.members == set e | e in db.members && e.ticket !in due
  }

  lemma {:induction false} RecoverEachAgrees(db: Redis, due: seq<Id>)
    requires Agree(db) && Distinct(due) && Elements(due) <= db.expiry.Keys
    ensures Agree(RecoverEach(db, due)) && Recovered(db, RecoverEach(db, due), Elements(due))
  {
    if due == [] {
      NothingRecovered(db);
      assert Elements(due) == {};
    } else {
      var n := |due| - 1;
      SplitDue(due, n);
      RecoverEachAgrees(db, due[..n]);
      RecoveredOneMore(db, RecoverEach(db, due[..n]), Elements(due[..n]), due[n]);
    }
  }

  lemma NothingRecovered(db: Redis)
    ensures Recovered(db, db, {})
  {
    assert Placements(db.pools, db.scores, {}) == map[];
    NobodyDue(db.states, db.members);
  }

  lemma NobodyDue(states: map<Id, TicketState>, members: set<SetEntry>)
    ensures (map id | id in states :: if id in {} then Queued else states[id]) == states
    ensures (set e | e in members && e.ticket !in {}) == members
  {
  }

  lemma SplitDue(due: seq<Id>, n: nat)
    requires n == |due| - 1 && Distinct(due)
    ensures Elements(due) == Elements(due[..n]) + {due[n]} && due[n] !in Elements(due[..n])
  {
    assert due == due[..n] + [due[n]];
  }

  lemma RecoveredOneMore(db: Redis, before: Redis, done: set<Id>, id: Id)
    requires Agree(db) && Agree(before) && Recovered(db, before, done) && id in db.expiry && id !in done
    requires done <= db.expiry.Keys
    ensures Agree(RecoverOne(before, id)) && Recovered(db, RecoverOne(before, id), done + {id})
  {
    RecoverOneAgrees(before, id);
    MembersOneMore(db, before, done, id);
    QueuesOneMore(db, before, done, id);
    assert TicketAgrees(db, id) && TicketAgrees(before, id);
  }

  lemma MembersOneMore(db: Redis, before: Redis, done: set<Id>, id: Id)
    requires Agree(before) && id in before.holders && before.members == set e | e in db.members && e.ticket !in done
    ensures before.members - {SetEntry(before.holders[id], id)} == set e | e in db.members && e.ticket !in done + {id}
  {
    forall e | e in before.members && e.ticket == id ensures e == SetEntry(before.holders[id], id) {
      OnlyHolderLists(before, e, id);
    }
  }

  lemma MergeTwice<K, V>(a: map<K, V>, b: map<K, V>, c: map<K, V>)
    ensures (a + b) + c == a + (b + c)
  {
  }

  lemma QueuesOneMore(db: Redis, before: Redis, done: set<Id>, id: Id)
    requires before.pools == db.pools && before.scores == db.scores && before.queues == Requeue(db, done).queues
    ensures Requeue(before, {id}).queues == Requeue(db, done + {id}).queues
  {
    PlacementsOneMore(db.pools, db.scores, done, id);
    MergeTwice(db.queues, Placements(db.pools, db.scores, done), Placements(db.pools, db.scores, {id}));
  }

  lemma PlacementsOneMore(pools: map<Id, PoolKey>, scores: map<Id, int>, done: set<Id>, id: Id)
    ensures Placements(pools, scores, done + {id}) == Placements(pools, scores, done) + Placements(pools, scores, {id})
  {
    var all, some, one := Placements(pools, scores, done + {id}), Placements(pools, scores, done),
                          Placements(pools, scores, {id});
    forall e ensures e in all <==> e in some || e in one {
      Placing(pools, scores, done + {id}, e);
      Placing(pools, scores, done, e);
      Placing(pools, scores, {id}, e);
    }
  }

  lemma Placing(pools: map<Id, PoolKey>, scores: map<Id, int>, ids: set<Id>, e: QueueEntry)
    ensures e in Placements(pools, scores, ids) <==>
              e.ticket in ids && e.ticket in pools && e.ticket in scores && e.pool == pools[e.ticket]
  {
  }

  // A held ticket is listed by no set but its holder's.
  lemma OnlyHolderLists(db: Redis, e: SetEntry, id: Id)
    requires Agree(db) && e in db.members && e.ticket == id
    ensures id in db.holders && e == SetEntry(db.holders[id], id)
  {
    assert SetAgrees(db, e.reservation);
    MemberEntry(db, e.reservation, id);
  }
}
