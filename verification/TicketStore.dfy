/**
  The in-memory ticket store (internal/matchmaking/repository/memory/ticket_store.go) as a
  value: what each mutex-protected method does to the six maps, and the representation
  invariant that all of them keep.
*/
module TicketStoreSpec {
  import opened Prelude
  import opened Sorting
  import opened Tickets

  datatype StoreError =
    | ActiveTicketExists
    | TicketNotFound
    | TicketForbidden
    | InvalidTicketState
    | IllegalTicketTransition
    | ReservationConflict
    | InvalidMatch

  // Idempotency keys are scoped by their owner.
  datatype ScopedKey = ScopedKey(owner: Id, key: Id)

  datatype Store = Store(
    tickets: map<Id, Ticket>,
    active: map<Id, Id>,
    createKeys: map<ScopedKey, Id>,
    cancelKeys: map<ScopedKey, Id>,
    pools: map<PoolKey, seq<Id>>,
    reservations: map<Id, seq<Id>>)

  const EMPTY := Store(map[], map[], map[], map[], map[], map[])

  // Queue order inside a pool: creation time, then id.
  predicate Precedes(tickets: map<Id, Ticket>, a: Id, b: Id) {
    a in tickets && b in tickets
    && var x, y := tickets[a].profile.createdAt, tickets[b].profile.createdAt;
       if x == y then a < b else x < y
  }

  function Older(tickets: map<Id, Ticket>): (Id, Id) -> bool {
    (a: Id, b: Id) => Precedes(tickets, a, b)
  }

  ghost predicate OldestFirst(tickets: map<Id, Ticket>, ids: seq<Id>) {
    forall i, j :: 0 <= i < j < |ids| ==> Precedes(tickets, ids[i], ids[j])
  }

  function PoolOf(s: Store, key: PoolKey): seq<Id> {
    if key in s.pools then s.pools[key] else []
  }

  function CreateQueued(s: Store, t: Ticket, key: Id): (Store, Result<Id, StoreError>) {
    var scoped := ScopedKey(t.profile.player, key);
    if scoped in s.createKeys then (s, Ok(s.createKeys[scoped]))
    else if t.profile.id in s.tickets then (s, Err(ActiveTicketExists))
    else if t.profile.player in s.active && s.active[t.profile.player] in s.tickets
      && s.tickets[s.active[t.profile.player]].IsActive() then
      (s, Err(ActiveTicketExists))
    else if t.state != Queued then (s, Err(InvalidTicketState))
    else
      var tickets := s.tickets[t.profile.id := t];
      (s.(tickets := tickets,
          active := s.active[t.profile.player := t.profile.id],
          createKeys := s.createKeys[scoped := t.profile.id],
          pools := s.pools[t.profile.pool := StableSort(Older(tickets), PoolOf(s, t.profile.pool) + [t.profile.id])]),
       Ok(t.profile.id))
  }

  function RemoveFirst(ids: seq<Id>, id: Id): seq<Id> {
    if ids == [] then []
    else if ids[0] == id then ids[1..]
    else [ids[0]] + RemoveFirst(ids[1..], id)
  }

  function RemoveFromPool(pools: map<PoolKey, seq<Id>>, key: PoolKey, id: Id): map<PoolKey, seq<Id>> {
    if key in pools && id in pools[key] then pools[key := RemoveFirst(pools[key], id)] else pools
  }

  function Cancel(s: Store, id: Id, player: Id, key: Id, now: Time): (Store, Result<Id, StoreError>) {
    var scoped := ScopedKey(player, key);
    if scoped in s.cancelKeys then
      if s.cancelKeys[scoped] != id then (s, Err(TicketForbidden)) else (s, Ok(id))
    else if id !in s.tickets then (s, Err(TicketNotFound))
    else if s.tickets[id].profile.player != player then (s, Err(TicketForbidden))
    else
      match s.tickets[id].Cancel(now)
      case Err(_) => (s, Err(IllegalTicketTransition))
      case Ok(t) =>
        (s.(tickets := s.tickets[id := t],
            cancelKeys := s.cancelKeys[scoped := id],
            active := if player in s.active && s.active[player] == id then s.active - {player} else s.active,
            pools := RemoveFromPool(s.pools, t.profile.pool, id)),
         Ok(id))
  }

  predicate CanReserve(s: Store, id: Id, r: Id, expires: Time, now: Time) {
    id in s.tickets && s.tickets[id].Reserve(r, expires, now).Ok?
  }

  // The check that rejects a repeated ticket, a ticket that is not queued and a repeated player.
  predicate Reservable(s: Store, ids: seq<Id>, r: Id, expires: Time, now: Time) {
    && (forall i :: 0 <= i < |ids| ==> CanReserve(s, ids[i], r, expires, now))
    && (forall i, j :: 0 <= i < j < |ids| ==> ids[i] != ids[j])
    && (forall i, j :: 0 <= i < j < |ids| ==> s.tickets[ids[i]].profile.player != s.tickets[ids[j]].profile.player)
  }

  function ReserveTickets(s: Store, ids: seq<Id>, r: Id, expires: Time, now: Time): map<Id, Ticket>
    requires Reservable(s, ids, r, expires, now)
  {
    map id | id in s.tickets :: if id in ids then s.tickets[id].Reserve(r, expires, now).value else s.tickets[id]
  }

  function ReserveAll(s: Store, ids: seq<Id>, r: Id, expires: Time, now: Time): (Store, Result<(), StoreError>) {
    if r == NO_ID || ids == [] then (s, Err(ReservationConflict))
    else if r in s.reservations then
      (s, if multiset(s.reservations[r]) == multiset(ids) then Ok(()) else Err(ReservationConflict))
    else if !Reservable(s, ids, r, expires, now) then (s, Err(ReservationConflict))
    else
      (s.(tickets := ReserveTickets(s, ids, r, expires, now), reservations := s.reservations[r := ids]), Ok(()))
  }

  function ReleaseAll(s: Store, r: Id, now: Time): (Store, Result<(), StoreError>) {
    if r !in s.reservations then (s, Err(ReservationConflict))
    else
      var ids := s.reservations[r];
      if exists i :: 0 <= i < |ids| && !(ids[i] in s.tickets && s.tickets[ids[i]].ReleaseReservation(r, now).Ok?) then
        (s, Err(ReservationConflict))
      else
        (s.(tickets := map id | id in s.tickets ::
              if id in ids then s.tickets[id].ReleaseReservation(r, now).value else s.tickets[id],
            reservations := s.reservations - {r}),
         Ok(()))
  }

  function RemoveAll(pools: map<PoolKey, seq<Id>>, tickets: map<Id, Ticket>, ids: seq<Id>): map<PoolKey, seq<Id>>
    requires forall i :: 0 <= i < |ids| ==> ids[i] in tickets
  {
    if ids == [] then pools
    else
      var n := |ids| - 1;
      RemoveFromPool(RemoveAll(pools, tickets, ids[..n]), tickets[ids[n]].profile.pool, ids[n])
  }

  function AssignAll(s: Store, r: Id, m: Id, now: Time): (Store, Result<(), StoreError>) {
    if r !in s.reservations then (s, Err(ReservationConflict))
    else
      var ids := s.reservations[r];
      if exists i :: 0 <= i < |ids| && !(ids[i] in s.tickets && s.tickets[ids[i]].Assign(r, m, now).Ok?) then
        (s, Err(ReservationConflict))
      else
        (s.(tickets := map id | id in s.tickets ::
              if id in ids then s.tickets[id].Assign(r, m, now).value else s.tickets[id],
            pools := RemoveAll(s.pools, s.tickets, ids),
            reservations := s.reservations - {r}),
         Ok(()))
  }

  predicate AssignedTo(t: Ticket, m: Id) {
    t.state == Assigned && t.matchId == m
  }

  function CompleteAssignedTickets(s: Store, m: Id): (Store, Result<(), StoreError>) {
    if m == NO_ID then (s, Err(InvalidMatch))
    else
      (s.(active := map p | p in s.active && !(s.active[p] in s.tickets && s.tickets[s.active[p]].profile.player == p
                                               && AssignedTo(s.tickets[s.active[p]], m)) :: s.active[p]),
       Ok(()))
  }

  // A reservation that a recovery at the given time releases.
  predicate Lapsed(s: Store, r: Id, now: Time) {
    r in s.reservations
    && (s.reservations[r] == []
        || (s.reservations[r][0] in s.tickets && s.tickets[s.reservations[r][0]].expiresAt <= now))
  }

  function RecoveredTicket(s: Store, t: Ticket, now: Time): Ticket {
    if t.state == Reserved && Lapsed(s, t.reservation, now) && t.ReleaseExpired(now).Ok?
      then t.ReleaseExpired(now).value else t
  }

  // Releases every lapsed reservation.  RecoverExpiredReservations ranges over the reservations in an
  // arbitrary order and would stop at a conflict; the invariant rules conflicts out.
  function RecoverExpired(s: Store, now: Time): Store {
    s.(tickets := map id | id in s.tickets :: RecoveredTicket(s, s.tickets[id], now),
       reservations := map r | r in s.reservations && !Lapsed(s, r, now) :: s.reservations[r])
  }

  function RecoveredIds(s: Store, now: Time): set<Id> {
    set id | id in s.tickets && s.tickets[id].state == Reserved && Lapsed(s, s.tickets[id].reservation, now)
  }

  /* Reads */

  function Candidates(s: Store, ids: seq<Id>): seq<Id> {
    if ids == [] then []
    else
      var init := Candidates(s, ids[..|ids| - 1]);
      var id := ids[|ids| - 1];
      if id in s.tickets && s.tickets[id].IsQueueCandidate() then init + [id] else init
  }

  function QueueSnapshot(s: Store, key: PoolKey, limit: int): seq<Id> {
    var all := Candidates(s, PoolOf(s, key));
    if limit <= 0 || limit >= |all| then all else all[..limit]
  }

  /* The representation invariant, one named clause per entry */

  ghost predicate Held(s: Store, id: Id, r: Id) {
    id in s.tickets && s.tickets[id].state == Reserved && s.tickets[id].reservation == r
  }

  ghost predicate IsActiveOf(s: Store, id: Id) {
    id in s.tickets && s.tickets[id].profile.player in s.active && s.active[s.tickets[id].profile.player] == id
  }

  // A stored ticket is one that RestoreTicket accepts; a waiting one is its owner's active ticket,
  // and one that is held belongs to a known reservation.
  ghost predicate TicketOk(s: Store, id: Id) {
    id in s.tickets ==>
      var t := s.tickets[id];
      && t.profile.id == id && t.Restorable() && t.state in {Queued, Reserved, Assigned, Cancelled}
      && (t.Waiting() ==> IsActiveOf(s, id))
      && (t.state == Reserved ==> t.reservation in s.reservations)
  }

  // A pool lists exactly the waiting tickets of its key, oldest first and each once.
  ghost predicate PoolOk(s: Store, key: PoolKey) {
    && OldestFirst(s.tickets, PoolOf(s, key))
    && forall id :: id in PoolOf(s, key) <==> InPool(s, key, id)
  }

  ghost predicate InPool(s: Store, key: PoolKey, id: Id) {
    id in s.tickets && s.tickets[id].profile.pool == key && s.tickets[id].Waiting()
  }

  // A reservation lists, without repetition, exactly the tickets held by it, and they expire together.
  ghost predicate ReservationOk(s: Store, r: Id) {
    r in s.reservations ==>
      && r != NO_ID && s.reservations[r] != [] && Distinct(s.reservations[r])
      && (forall id :: id in s.reservations[r] <==> Held(s, id, r))
      && (forall a, b :: Held(s, a, r) && Held(s, b, r) ==> s.tickets[a].expiresAt == s.tickets[b].expiresAt)
  }

  // The active index points at a live ticket of its owner.
  ghost predicate ActiveOk(s: Store, p: Id) {
    p in s.active ==>
      s.active[p] in s.tickets && s.tickets[s.active[p]].profile.player == p && s.tickets[s.active[p]].IsActive()
  }

  ghost predicate KeyOk(s: Store, k: ScopedKey) {
    && (k in s.createKeys ==> s.createKeys[k] in s.tickets && s.tickets[s.createKeys[k]].profile.player == k.owner)
    && (k in s.cancelKeys ==>
          s.cancelKeys[k] in s.tickets && s.tickets[s.cancelKeys[k]].profile.player == k.owner
          && s.tickets[s.cancelKeys[k]].state == Cancelled)
  }

  ghost predicate Inv(s: Store) {
    && (forall id {:trigger TicketOk(s, id)} :: TicketOk(s, id))
    && (forall key {:trigger PoolOk(s, key)} :: PoolOk(s, key))
    && (forall r {:trigger ReservationOk(s, r)} :: ReservationOk(s, r))
    && (forall p {:trigger ActiveOk(s, p)} :: ActiveOk(s, p))
    && (forall k {:trigger KeyOk(s, k)} :: KeyOk(s, k))
  }

  lemma EmptyInv()
    ensures Inv(EMPTY)
  {
  }

  /* Order inside the pools */

  lemma OlderIsLinear(tickets: map<Id, Ticket>, ids: multiset<Id>)
    requires forall id :: id in ids ==> id in tickets
    ensures Linear(Older(tickets), ids)
  {
    var less := Older(tickets);
    forall x, y | x in ids && y in ids && x != y ensures less(x, y) || less(y, x) {}
    forall x, y, z | x in ids && y in ids && z in ids && less(x, y) && less(y, z) ensures less(x, z) {}
  }

  ghost predicate SameProfile(a: map<Id, Ticket>, b: map<Id, Ticket>, id: Id) {
    id in a && id in b && a[id].profile == b[id].profile
  }

  lemma OlderSame(a: map<Id, Ticket>, b: map<Id, Ticket>, ids: seq<Id>)
    requires OldestFirst(a, ids)
    requires forall i :: 0 <= i < |ids| ==> SameProfile(a, b, ids[i])
    ensures OldestFirst(b, ids)
  {
    forall i, j | 0 <= i < j < |ids| ensures Precedes(b, ids[i], ids[j]) {
      assert Precedes(a, ids[i], ids[j]) && SameProfile(a, b, ids[i]) && SameProfile(a, b, ids[j]);
    }
  }

  lemma OldestFirstDistinct(tickets: map<Id, Ticket>, ids: seq<Id>)
    requires OldestFirst(tickets, ids)
    ensures Distinct(ids)
  {
    forall i, j | 0 <= i < j < |ids| ensures ids[i] != ids[j] {
      assert Precedes(tickets, ids[i], ids[j]);
    }
  }

  lemma SortedPool(tickets: map<Id, Ticket>, ids: seq<Id>)
    requires Distinct(ids) && forall i :: 0 <= i < |ids| ==> ids[i] in tickets
    ensures OldestFirst(tickets, StableSort(Older(tickets), ids))
    ensures multiset(StableSort(Older(tickets), ids)) == multiset(ids)
  {
    var less := Older(tickets);
    var sorted := StableSort(less, ids);
    OlderIsLinear(tickets, multiset(ids));
    SortAscending(less, ids);
    SortPermutes(less, ids);
    forall i, j | 0 <= i < j < |sorted| ensures Precedes(tickets, sorted[i], sorted[j]) {
      assert less(sorted[i], sorted[j]);
    }
  }

  lemma {:induction false} RemoveFirstMembers(ids: seq<Id>, id: Id)
    requires Distinct(ids)
    ensures Distinct(RemoveFirst(ids, id))
    ensures forall x :: x in RemoveFirst(ids, id) <==> x in ids && x != id
  {
    if ids != [] {
      RemoveFirstMembers(ids[1..], id);
      assert ids == [ids[0]] + ids[1..];
      assert ids[0] !in ids[1..];
      if ids[0] != id {
        DistinctConcat([ids[0]], RemoveFirst(ids[1..], id));
      }
    }
  }

  lemma {:induction false} RemoveFirstOldestFirst(tickets: map<Id, Ticket>, ids: seq<Id>, id: Id)
    requires OldestFirst(tickets, ids)
    ensures OldestFirst(tickets, RemoveFirst(ids, id))
  {
    OldestFirstDistinct(tickets, ids);
    if ids != [] && ids[0] != id {
      var r := RemoveFirst(ids[1..], id);
      RemoveFirstOldestFirst(tickets, ids[1..], id);
      RemoveFirstMembers(ids[1..], id);
      forall j | 0 <= j < |r| ensures Precedes(tickets, ids[0], r[j]) {
        assert r[j] in r && r[j] in ids[1..];
        var k :| 0 <= k < |ids[1..]| && ids[1..][k] == r[j];
        assert Precedes(tickets, ids[0], ids[k + 1]);
      }
    }
  }

  ghost function Elements(ids: seq<Id>): set<Id> {
    set id | id in ids
  }

  function PoolIn(pools: map<PoolKey, seq<Id>>, key: PoolKey): seq<Id> {
    if key in pools then pools[key] else []
  }

  // A pool in order, and what it holds: those of before that are not gone.
  ghost predicate Shrunk(pools: map<PoolKey, seq<Id>>, pools': map<PoolKey, seq<Id>>, tickets: map<Id, Ticket>,
                         gone: set<Id>, key: PoolKey)
  {
    && OldestFirst(tickets, PoolIn(pools', key))
    && forall x :: x in PoolIn(pools', key) <==> x in PoolIn(pools, key) && x !in gone
  }

  lemma {:induction false} RemoveAllShrinks(pools: map<PoolKey, seq<Id>>, tickets: map<Id, Ticket>, ids: seq<Id>,
                                            key: PoolKey)
    requires forall i :: 0 <= i < |ids| ==> ids[i] in tickets
    requires OldestFirst(tickets, PoolIn(pools, key))
    requires forall id :: id in PoolIn(pools, key) ==> id in tickets && tickets[id].profile.pool == key
    ensures Shrunk(pools, RemoveAll(pools, tickets, ids), tickets, Elements(ids), key)
  {
    if ids != [] {
      var n := |ids| - 1;
      var init := RemoveAll(pools, tickets, ids[..n]);
      RemoveAllShrinks(pools, tickets, ids[..n], key);
      assert Shrunk(pools, init, tickets, Elements(ids[..n]), key);
      RemoveOneShrinks(init, tickets, ids[n], key);
      SplitLast(ids);
      forall x ensures x in PoolIn(RemoveAll(pools, tickets, ids), key) <==> x in PoolIn(pools, key) && x !in ids {
        assert x in PoolIn(init, key) <==> x in PoolIn(pools, key) && x !in Elements(ids[..n]);
        assert x in ids <==> x in ids[..n] || x == ids[n];
      }
    }
  }

  lemma RemoveOneShrinks(pools: map<PoolKey, seq<Id>>, tickets: map<Id, Ticket>, id: Id, key: PoolKey)
    requires id in tickets && OldestFirst(tickets, PoolIn(pools, key))
    requires forall x :: x in PoolIn(pools, key) ==> x in tickets && tickets[x].profile.pool == key
    ensures Shrunk(pools, RemoveFromPool(pools, tickets[id].profile.pool, id), tickets, {id}, key)
  {
    OldestFirstDistinct(tickets, PoolIn(pools, key));
    RemoveFirstMembers(PoolIn(pools, key), id);
    RemoveFirstOldestFirst(tickets, PoolIn(pools, key), id);
  }

  /* Frames: which clauses an operation cannot touch */

  lemma KeepPool(s: Store, s': Store, key: PoolKey)
    requires PoolOk(s, key) && PoolOf(s', key) == PoolOf(s, key)
    requires forall id :: InPool(s', key, id) <==> InPool(s, key, id)
    requires forall id :: id in s.tickets ==> SameProfile(s.tickets, s'.tickets, id)
    ensures PoolOk(s', key)
  {
    forall i | 0 <= i < |PoolOf(s, key)| ensures SameProfile(s.tickets, s'.tickets, PoolOf(s, key)[i]) {
      assert InPool(s, key, PoolOf(s, key)[i]);
    }
    OlderSame(s.tickets, s'.tickets, PoolOf(s, key));
  }

  lemma ShrinkPool(s: Store, s': Store, gone: set<Id>, key: PoolKey)
    requires PoolOk(s, key) && Shrunk(s.pools, s'.pools, s.tickets, gone, key)
    requires forall id :: InPool(s', key, id) <==> InPool(s, key, id) && id !in gone
    requires forall id :: id in s.tickets ==> SameProfile(s.tickets, s'.tickets, id)
    ensures PoolOk(s', key)
  {
    var ids := PoolOf(s', key);
    assert ids == PoolIn(s'.pools, key) && PoolOf(s, key) == PoolIn(s.pools, key);
    forall i | 0 <= i < |ids| ensures SameProfile(s.tickets, s'.tickets, ids[i]) {
      assert ids[i] in PoolIn(s.pools, key);
      assert InPool(s, key, ids[i]);
    }
    OlderSame(s.tickets, s'.tickets, ids);
    forall id ensures id in ids <==> InPool(s', key, id) {
      assert id in PoolIn(s.pools, key) <==> InPool(s, key, id);
    }
  }

  // Reservation r keeps its list, its tickets and their expiry.
  ghost predicate SameHolders(s: Store, s': Store, r: Id) {
    forall id :: (Held(s, id, r) <==> Held(s', id, r))
              && (Held(s, id, r) ==> s'.tickets[id].expiresAt == s.tickets[id].expiresAt)
  }

  lemma KeepReservation(s: Store, s': Store, r: Id)
    requires ReservationOk(s, r)
    requires r in s'.reservations ==>
               r in s.reservations && s'.reservations[r] == s.reservations[r]
               && SameHolders(s, s', r)
    ensures ReservationOk(s', r)
  {
  }

  // s' differs from s only in reservations and in which waiting tickets are held.
  ghost predicate OnlyHolds(s: Store, s': Store) {
    && s' == s.(tickets := s'.tickets, reservations := s'.reservations)
    && s'.tickets.Keys == s.tickets.Keys
    && forall id :: id in s.tickets ==>
         && SameProfile(s.tickets, s'.tickets, id)
         && (s.tickets[id].Waiting() <==> s'.tickets[id].Waiting())
         && (!s.tickets[id].Waiting() ==> s'.tickets[id] == s.tickets[id])
  }

  lemma HoldsKeepIndexes(s: Store, s': Store)
    requires Inv(s) && OnlyHolds(s, s')
    ensures forall key :: PoolOk(s', key)
    ensures forall p :: ActiveOk(s', p)
    ensures forall k :: KeyOk(s', k)
  {
    forall key ensures PoolOk(s', key) {
      assert PoolOk(s, key);
      KeepPool(s, s', key);
    }
    forall p ensures ActiveOk(s', p) { assert ActiveOk(s, p); }
    forall k ensures KeyOk(s', k) { assert KeyOk(s, k); }
  }

  /* Every operation keeps the invariant */

  // What storing a new ticket changes.
  ghost predicate Creates(s: Store, s': Store, t: Ticket, key: Id) {
    && t.profile.id !in s.tickets && t.state == Queued
    && (t.profile.player in s.active ==>
          s.active[t.profile.player] in s.tickets ==> !s.tickets[s.active[t.profile.player]].IsActive())
    && s' == s.(tickets := s.tickets[t.profile.id := t],
                active := s.active[t.profile.player := t.profile.id],
                createKeys := s.createKeys[ScopedKey(t.profile.player, key) := t.profile.id],
                pools := s.pools[t.profile.pool := StableSort(Older(s.tickets[t.profile.id := t]),
                                                              PoolOf(s, t.profile.pool) + [t.profile.id])])
  }

  lemma CreateKeepsInv(s: Store, t: Ticket, key: Id)
    requires Inv(s) && t.Restorable()
    ensures Inv(CreateQueued(s, t, key).0)
  {
    var s' := CreateQueued(s, t, key).0;
    if s' != s {
      CreatedInv(s, s', t, key);
    }
  }

  lemma CreatedInv(s: Store, s': Store, t: Ticket, key: Id)
    requires Inv(s) && t.Restorable() && Creates(s, s', t, key)
    ensures Inv(s')
  {
    forall x ensures TicketOk(s', x) {
      CreatedTicketOk(s, s', t, key, x);
    }
    forall k ensures PoolOk(s', k) {
      CreatedPoolOk(s, s', t, key, k);
    }
    forall r ensures ReservationOk(s', r) {
      assert ReservationOk(s, r);
      KeepReservation(s, s', r);
    }
    forall p ensures ActiveOk(s', p) { assert ActiveOk(s, p); }
    forall k ensures KeyOk(s', k) { assert KeyOk(s, k); }
  }

  lemma CreatedTicketOk(s: Store, s': Store, t: Ticket, key: Id, x: Id)
    requires TicketOk(s, x) && ActiveOk(s, t.profile.player) && t.Restorable() && Creates(s, s', t, key)
    ensures TicketOk(s', x)
  {
  }

  lemma CreatedPoolOk(s: Store, s': Store, t: Ticket, key: Id, k: PoolKey)
    requires PoolOk(s, k) && t.Restorable() && Creates(s, s', t, key)
    ensures PoolOk(s', k)
  {
    if k == t.profile.pool {
      AppendToPool(s, s', t);
    } else {
      KeepPool(s, s', k);
    }
  }

  lemma AppendToPool(s: Store, s': Store, t: Ticket)
    requires PoolOk(s, t.profile.pool) && t.profile.id !in s.tickets && t.state == Queued
    requires s'.tickets == s.tickets[t.profile.id := t]
    requires s'.pools
             == s.pools[t.profile.pool := StableSort(Older(s'.tickets), PoolOf(s, t.profile.pool) + [t.profile.id])]
    ensures PoolOk(s', t.profile.pool)
  {
    var key := t.profile.pool;
    var before := PoolOf(s, key);
    var ids := before + [t.profile.id];
    forall i | 0 <= i < |before| ensures before[i] in s.tickets {
      assert InPool(s, key, before[i]);
    }
    OldestFirstDistinct(s.tickets, before);
    DistinctConcat(before, [t.profile.id]);
    SortedPool(s'.tickets, ids);
    forall id ensures id in PoolOf(s', key) <==> InPool(s', key, id) {
      AppendedMember(s, s', t, id);
    }
  }

  lemma AppendedMember(s: Store, s': Store, t: Ticket, id: Id)
    requires PoolOk(s, t.profile.pool) && t.state == Queued && s'.tickets == s.tickets[t.profile.id := t]
    requires t.profile.id !in s.tickets
    requires multiset(PoolOf(s', t.profile.pool)) == multiset(PoolOf(s, t.profile.pool) + [t.profile.id])
    ensures id in PoolOf(s', t.profile.pool) <==> InPool(s', t.profile.pool, id)
  {
    MemberOfPermutation(PoolOf(s', t.profile.pool), PoolOf(s, t.profile.pool) + [t.profile.id], id);
    assert id in PoolOf(s, t.profile.pool) <==> InPool(s, t.profile.pool, id);
  }

  lemma CancelKeepsInv(s: Store, id: Id, player: Id, key: Id, now: Time)
    requires Inv(s)
    ensures Inv(Cancel(s, id, player, key, now).0)
  {
    var s' := Cancel(s, id, player, key, now).0;
    if s' != s {
      var t := s.tickets[id].Cancel(now).value;
      assert TicketOk(s, id);
      assert s'.tickets == s.tickets[id := t] && t.state == Cancelled && t.profile == s.tickets[id].profile;
      forall x ensures TicketOk(s', x) { assert TicketOk(s, x); }
      forall k ensures PoolOk(s', k) {
        LeavesPool(s, s', id, k);
      }
      LeavesOthers(s, s', id, player);
    }
  }

  lemma LeavesOthers(s: Store, s': Store, id: Id, player: Id)
    requires Inv(s) && id in s.tickets && s.tickets[id].profile.player == player && s.tickets[id].state != Reserved
    requires s'.tickets.Keys == s.tickets.Keys
    requires forall x :: x in s.tickets && x != id ==> s'.tickets[x] == s.tickets[x]
    requires s'.tickets[id].state == Cancelled && s'.tickets[id].profile == s.tickets[id].profile
    requires s'.reservations == s.reservations && s'.createKeys == s.createKeys
    requires forall k :: k in s'.cancelKeys ==>
               if k in s.cancelKeys then s'.cancelKeys[k] == s.cancelKeys[k]
               else s'.cancelKeys[k] == id && k.owner == player
    requires s'.active == if player in s.active && s.active[player] == id then s.active - {player} else s.active
    ensures forall r :: ReservationOk(s', r)
    ensures forall p :: ActiveOk(s', p)
    ensures forall k :: KeyOk(s', k)
  {
    assert TicketOk(s, id);
    forall r ensures ReservationOk(s', r) {
      assert ReservationOk(s, r);
      KeepReservation(s, s', r);
    }
    forall p ensures ActiveOk(s', p) { assert ActiveOk(s, p); }
    forall k ensures KeyOk(s', k) { assert KeyOk(s, k); }
  }

  // A ticket that no longer waits is taken out of its pool.
  lemma LeavesPool(s: Store, s': Store, id: Id, key: PoolKey)
    requires PoolOk(s, key) && id in s.tickets && s'.tickets.Keys == s.tickets.Keys
    requires s'.pools == RemoveFromPool(s.pools, s.tickets[id].profile.pool, id)
    requires s'.tickets[id].profile == s.tickets[id].profile && !s'.tickets[id].Waiting()
    requires forall x :: x in s.tickets && x != id ==> s'.tickets[x] == s.tickets[x]
    ensures PoolOk(s', key)
  {
    assert PoolIn(s.pools, key) == PoolOf(s, key);
    RemoveOneShrinks(s.pools, s.tickets, id, key);
    ShrinkPool(s, s', {id}, key);
  }

  // What a granted reservation changes.
  ghost predicate Reserves(s: Store, s': Store, ids: seq<Id>, r: Id, expires: Time, now: Time) {
    && s' == s.(tickets := s'.tickets, reservations := s.reservations[r := ids])
    && s'.tickets.Keys == s.tickets.Keys
    && forall id :: id in s.tickets ==>
         s'.tickets[id] == if id in ids then s.tickets[id].(state := Reserved, reservation := r, expiresAt := expires,
                                                            updatedAt := now)
                           else s.tickets[id]
  }

  ghost predicate AllQueued(s: Store, ids: seq<Id>) {
    forall id :: id in ids ==> id in s.tickets && s.tickets[id].state == Queued
  }

  lemma ReserveEffect(s: Store, ids: seq<Id>, r: Id, expires: Time, now: Time)
    requires r !in s.reservations && ReserveAll(s, ids, r, expires, now).1.Ok?
    ensures Reserves(s, ReserveAll(s, ids, r, expires, now).0, ids, r, expires, now)
    ensures r != NO_ID && ids != [] && Distinct(ids) && expires != ZERO_TIME && now < expires
    ensures AllQueued(s, ids)
  {
    assert CanReserve(s, ids[0], r, expires, now);
    forall id | id in ids ensures id in s.tickets && s.tickets[id].state == Queued {
      var i :| 0 <= i < |ids| && ids[i] == id;
      assert CanReserve(s, ids[i], r, expires, now);
    }
  }

  lemma ReserveKeepsInv(s: Store, ids: seq<Id>, r: Id, expires: Time, now: Time)
    requires Inv(s)
    ensures Inv(ReserveAll(s, ids, r, expires, now).0)
  {
    if r !in s.reservations && ReserveAll(s, ids, r, expires, now).1.Ok? {
      ReserveEffect(s, ids, r, expires, now);
      ReservedInv(s, ReserveAll(s, ids, r, expires, now).0, ids, r, expires, now);
    }
  }

  lemma ReservedInv(s: Store, s': Store, ids: seq<Id>, r: Id, expires: Time, now: Time)
    requires Inv(s) && Reserves(s, s', ids, r, expires, now) && AllQueued(s, ids)
    requires r !in s.reservations && r != NO_ID && ids != [] && Distinct(ids) && expires != ZERO_TIME
    ensures Inv(s')
  {
    HoldsKeepIndexes(s, s');
    forall x ensures TicketOk(s', x) {
      assert TicketOk(s, x);
      assert IsActiveOf(s, x) ==> IsActiveOf(s', x);
    }
    forall q ensures ReservationOk(s', q) {
      assert ReservationOk(s, q);
      if q == r {
        forall id ensures Held(s', id, r) <==> id in ids {
          assert TicketOk(s, id);
        }
      } else {
        KeepReservation(s, s', q);
      }
    }
  }

  // What the end of reservation r changes: each of its tickets moves on to f of it.
  ghost predicate Ends(s: Store, s': Store, r: Id) {
    && r in s.reservations && s'.reservations == s.reservations - {r}
    && s'.tickets.Keys == s.tickets.Keys
    && forall id :: id in s.tickets ==>
         if Held(s, id, r) then s'.tickets[id].state != Reserved else s'.tickets[id] == s.tickets[id]
  }

  lemma EndKeepsReservations(s: Store, s': Store, r: Id)
    requires Inv(s) && Ends(s, s', r)
    ensures forall q :: ReservationOk(s', q)
  {
    forall q ensures ReservationOk(s', q) {
      assert ReservationOk(s, q);
      KeepReservation(s, s', q);
    }
  }

  // A held ticket that waits again.
  function Requeued(t: Ticket, now: Time): Ticket {
    t.(state := Queued, reservation := NO_ID, expiresAt := ZERO_TIME, updatedAt := now)
  }

  ghost predicate Releases(s: Store, s': Store, r: Id, now: Time) {
    && r in s.reservations
    && s' == s.(tickets := s'.tickets, reservations := s.reservations - {r})
    && s'.tickets.Keys == s.tickets.Keys
    && forall id :: id in s.tickets ==>
         s'.tickets[id] == if Held(s, id, r) then Requeued(s.tickets[id], now) else s.tickets[id]
  }

  /** Releasing a known reservation never reaches the conflict branch. */
  lemma ReleaseEffect(s: Store, r: Id, now: Time)
    requires Inv(s) && r in s.reservations
    ensures ReleaseAll(s, r, now).1.Ok?
    ensures Releases(s, ReleaseAll(s, r, now).0, r, now)
  {
    assert ReservationOk(s, r);
    forall i | 0 <= i < |s.reservations[r]| ensures Held(s, s.reservations[r][i], r) {
      assert s.reservations[r][i] in s.reservations[r];
    }
  }

  lemma ReleaseKeepsInv(s: Store, r: Id, now: Time)
    requires Inv(s)
    ensures Inv(ReleaseAll(s, r, now).0)
    ensures ReleaseAll(s, r, now).1.Ok? <==> r in s.reservations
  {
    if r in s.reservations {
      ReleaseEffect(s, r, now);
      ReleasedInv(s, ReleaseAll(s, r, now).0, r, now);
    }
  }

  lemma ReleasedInv(s: Store, s': Store, r: Id, now: Time)
    requires Inv(s) && Releases(s, s', r, now)
    ensures Inv(s')
  {
    HoldsKeepIndexes(s, s');
    EndKeepsReservations(s, s', r);
    forall x ensures TicketOk(s', x) {
      assert TicketOk(s, x);
      assert IsActiveOf(s, x) ==> IsActiveOf(s', x);
    }
  }

  ghost predicate Assigns(s: Store, s': Store, r: Id, m: Id, now: Time) {
    && r in s.reservations && m != NO_ID
    && s' == s.(tickets := s'.tickets, pools := s'.pools, reservations := s.reservations - {r})
    && s'.tickets.Keys == s.tickets.Keys
    && (forall id :: id in s.tickets ==>
         s'.tickets[id] == if Held(s, id, r) then s.tickets[id].(state := Assigned, matchId := m, updatedAt := now)
                           else s.tickets[id])
    && forall key {:trigger PoolOf(s', key)} :: Shrunk(s.pools, s'.pools, s.tickets, Elements(s.reservations[r]), key)
  }

  /** Assigning a known reservation to a non-blank match never reaches the conflict branch. */
  lemma AssignEffect(s: Store, r: Id, m: Id, now: Time)
    requires Inv(s) && r in s.reservations
    ensures AssignAll(s, r, m, now).1.Ok? <==> m != NO_ID
    ensures m != NO_ID ==> Assigns(s, AssignAll(s, r, m, now).0, r, m, now)
  {
    assert ReservationOk(s, r);
    var ids := s.reservations[r];
    forall i | 0 <= i < |ids| ensures Held(s, ids[i], r) {
      assert ids[i] in ids;
    }
    if m == NO_ID {
      assert !s.tickets[ids[0]].Assign(r, m, now).Ok?;
    } else {
      forall key ensures Shrunk(s.pools, RemoveAll(s.pools, s.tickets, ids), s.tickets, Elements(ids), key) {
        assert PoolOk(s, key);
        assert PoolIn(s.pools, key) == PoolOf(s, key);
        RemoveAllShrinks(s.pools, s.tickets, ids, key);
      }
    }
  }

  lemma AssignKeepsInv(s: Store, r: Id, m: Id, now: Time)
    requires Inv(s)
    ensures Inv(AssignAll(s, r, m, now).0)
    ensures AssignAll(s, r, m, now).1.Ok? <==> r in s.reservations && m != NO_ID
  {
    if r in s.reservations {
      AssignEffect(s, r, m, now);
      if m != NO_ID {
        AssignedInv(s, AssignAll(s, r, m, now).0, r, m, now);
      }
    }
  }

  lemma AssignedInv(s: Store, s': Store, r: Id, m: Id, now: Time)
    requires Inv(s) && Assigns(s, s', r, m, now)
    ensures Inv(s')
  {
    assert ReservationOk(s, r);
    EndKeepsReservations(s, s', r);
    forall x ensures TicketOk(s', x) {
      assert TicketOk(s, x);
      assert IsActiveOf(s, x) ==> IsActiveOf(s', x);
    }
    forall key ensures PoolOk(s', key) {
      assert PoolOk(s, key);
      assert PoolOf(s', key) == PoolIn(s'.pools, key);
      ShrinkPool(s, s', Elements(s.reservations[r]), key);
    }
    forall p ensures ActiveOk(s', p) { assert ActiveOk(s, p); }
    forall k ensures KeyOk(s', k) { assert KeyOk(s, k); }
  }

  lemma CompleteKeepsInv(s: Store, m: Id)
    requires Inv(s)
    ensures Inv(CompleteAssignedTickets(s, m).0)
  {
    var s' := CompleteAssignedTickets(s, m).0;
    forall x ensures TicketOk(s', x) { assert TicketOk(s, x); }
    forall key ensures PoolOk(s', key) {
      assert PoolOk(s, key);
      KeepPool(s, s', key);
    }
    forall r ensures ReservationOk(s', r) {
      assert ReservationOk(s, r);
      KeepReservation(s, s', r);
    }
    forall p ensures ActiveOk(s', p) { assert ActiveOk(s, p); }
    forall k ensures KeyOk(s', k) { assert KeyOk(s, k); }
  }

  // The tickets of a reservation lapse together.
  lemma LapseTogether(s: Store, id: Id, now: Time)
    requires Inv(s) && id in s.tickets && s.tickets[id].state == Reserved
    ensures s.tickets[id].reservation in s.reservations
    ensures Lapsed(s, s.tickets[id].reservation, now) <==> s.tickets[id].expiresAt <= now
  {
    var r := s.tickets[id].reservation;
    assert TicketOk(s, id) && ReservationOk(s, r) && Held(s, id, r);
    assert s.reservations[r][0] in s.reservations[r];
    assert Held(s, s.reservations[r][0], r);
  }

  ghost predicate Recovers(s: Store, s': Store, now: Time) {
    && s' == s.(tickets := s'.tickets, reservations := s'.reservations)
    && s'.tickets.Keys == s.tickets.Keys
    && (forall id :: id in s.tickets ==>
         s'.tickets[id] == if s.tickets[id].state == Reserved && s.tickets[id].expiresAt <= now
                           then Requeued(s.tickets[id], now) else s.tickets[id])
    && (forall r :: r in s'.reservations <==> r in s.reservations && !Lapsed(s, r, now))
    && (forall r :: r in s'.reservations ==> s'.reservations[r] == s.reservations[r])
  }

  /** Recovery puts exactly the tickets whose hold has expired back into the queue. */
  lemma RecoverEffect(s: Store, now: Time)
    requires Inv(s)
    ensures Recovers(s, RecoverExpired(s, now), now)
  {
    forall id | id in s.tickets && s.tickets[id].state == Reserved
      ensures Lapsed(s, s.tickets[id].reservation, now) <==> s.tickets[id].expiresAt <= now
    {
      LapseTogether(s, id, now);
    }
  }

  lemma RecoverKeepsInv(s: Store, now: Time)
    requires Inv(s)
    ensures Inv(RecoverExpired(s, now))
  {
    RecoverEffect(s, now);
    RecoveredInv(s, RecoverExpired(s, now), now);
  }

  lemma RecoveredInv(s: Store, s': Store, now: Time)
    requires Inv(s) && Recovers(s, s', now)
    ensures Inv(s')
  {
    HoldsKeepIndexes(s, s');
    forall x ensures TicketOk(s', x) {
      assert TicketOk(s, x);
      assert IsActiveOf(s, x) ==> IsActiveOf(s', x);
      if x in s.tickets && s.tickets[x].state == Reserved {
        LapseTogether(s, x, now);
      }
    }
    forall q ensures ReservationOk(s', q) {
      RecoveredReservation(s, s', now, q);
    }
  }

  lemma RecoveredReservation(s: Store, s': Store, now: Time, q: Id)
    requires Inv(s) && Recovers(s, s', now)
    ensures ReservationOk(s', q)
  {
    assert ReservationOk(s, q);
    if q in s'.reservations {
      forall id ensures Held(s, id, q) <==> Held(s', id, q) {
        if Held(s, id, q) {
          LapseTogether(s, id, now);
        }
      }
      assert SameHolders(s, s', q);
    }
    KeepReservation(s, s', q);
  }

  /* Results */

  /**
    A reservation under a fresh id is granted iff the tickets are different, all queued and the
    expiry lies ahead: the check for repeated players never fires.
  */
  lemma ReserveExactly(s: Store, ids: seq<Id>, r: Id, expires: Time, now: Time)
    requires Inv(s) && r !in s.reservations
    ensures ReserveAll(s, ids, r, expires, now).1.Ok? <==>
            && r != NO_ID && ids != [] && Distinct(ids) && expires != ZERO_TIME && now < expires
            && AllQueued(s, ids)
  {
    if r != NO_ID && ids != [] && Distinct(ids) && expires != ZERO_TIME && now < expires && AllQueued(s, ids) {
      forall i, j | 0 <= i < j < |ids| ensures s.tickets[ids[i]].profile.player != s.tickets[ids[j]].profile.player {
        assert ids[i] in ids && ids[j] in ids;
        assert TicketOk(s, ids[i]) && TicketOk(s, ids[j]);
      }
      forall i | 0 <= i < |ids| ensures CanReserve(s, ids[i], r, expires, now) {
        assert ids[i] in ids;
      }
      assert Reservable(s, ids, r, expires, now);
    }
    if ReserveAll(s, ids, r, expires, now).1.Ok? {
      ReserveEffect(s, ids, r, expires, now);
    }
  }

  /** Releasing what was just reserved restores the store, except for the tickets' update times. */
  lemma ReserveThenRelease(s: Store, ids: seq<Id>, r: Id, expires: Time, now: Time, later: Time)
    requires Inv(s) && r !in s.reservations && ReserveAll(s, ids, r, expires, now).1.Ok?
    ensures var held := ReserveAll(s, ids, r, expires, now).0;
            && ReleaseAll(held, r, later).1.Ok?
            && ReleaseAll(held, r, later).0 ==
               s.(tickets := map id | id in s.tickets :: if id in ids then s.tickets[id].(updatedAt := later)
                  else s.tickets[id])
  {
    var held := ReserveAll(s, ids, r, expires, now).0;
    ReserveKeepsInv(s, ids, r, expires, now);
    ReserveEffect(s, ids, r, expires, now);
    ReleaseEffect(held, r, later);
    RoundTrip(s, held, ReleaseAll(held, r, later).0, ids, r, expires, now, later);
  }

  lemma RoundTrip(s: Store, held: Store, released: Store, ids: seq<Id>, r: Id, expires: Time, now: Time, later: Time)
    requires Inv(s) && Inv(held) && r !in s.reservations && AllQueued(s, ids)
    requires Reserves(s, held, ids, r, expires, now) && Releases(held, released, r, later)
    ensures released == s.(tickets := map id | id in s.tickets :: if id in ids then s.tickets[id].(updatedAt := later)
                           else s.tickets[id])
  {
    assert released.reservations == s.reservations;
    forall id | id in s.tickets
      ensures released.tickets[id] == if id in ids then s.tickets[id].(updatedAt := later) else s.tickets[id]
    {
      TicketRoundTrip(s, held, released, ids, r, expires, now, later, id);
    }
  }

  lemma TicketRoundTrip(s: Store, held: Store, released: Store, ids: seq<Id>, r: Id, expires: Time, now: Time,
                        later: Time, id: Id)
    requires TicketOk(s, id) && ReservationOk(held, r) && r !in s.reservations && AllQueued(s, ids) && id in s.tickets
    requires Reserves(s, held, ids, r, expires, now) && Releases(held, released, r, later)
    ensures released.tickets[id] == if id in ids then s.tickets[id].(updatedAt := later) else s.tickets[id]
  {
    assert id in ids <==> Held(held, id, r);
  }
}
