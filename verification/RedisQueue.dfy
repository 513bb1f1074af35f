/**
  The Redis queue with its structures updated in place, command by command, as the Lua scripts
  and the Go code around them do (internal/matchmaking/repository/redis/scripts.go and queue.go).
  A set or a hash is ranged over in an arbitrary order.
*/
module RedisQueues {
  import opened Prelude
  import opened Tickets
  import opened RedisScripts
  import opened RedisAgreement

  const RECOVERY_LIMIT: nat := 1000

  // time.Time.UnixMilli of a time in nanoseconds.
  function Millis(t: Time): Time {
    t / 1000000
  }

  class RedisQueue {
    var states: map<Id, TicketState>
    var ticketPools: map<Id, PoolKey>
    var ticketScores: map<Id, int>
    var reservations: map<Id, Id>
    var expiry: map<Id, Time>
    var matches: map<Id, Id>
    var queues: map<QueueEntry, int>
    var members: set<SetEntry>

    ghost function State(): Redis
      reads this
    {
      Redis(states, ticketPools, ticketScores, reservations, expiry, matches, queues, members)
    }

    constructor ()
      ensures State() == EMPTY
    {
      states, ticketPools, ticketScores, reservations := map[], map[], map[], map[];
      expiry, matches, queues, members := map[], map[], map[], {};
    }

    /** The checks of the Go method, then the reserve script. */
    method ReserveAll(ids: seq<Id>, r: Id, expires: Time, now: Time) returns (result: Result<(), ScriptError>)
      modifies this
      ensures !Acceptable(ids, r, expires, now) ==> State() == old(State()) && result.Err?
      ensures Acceptable(ids, r, expires, now) ==>
                State() == Reserve(old(State()), Elements(ids), r, Millis(expires)).0
                && (result.Ok? <==> Reserve(old(State()), Elements(ids), r, Millis(expires)).1.Ok?)
    {
      if r == NO_ID || |ids| == 0 || expires <= now {
        return Err(ReservationConflict);
      }
      var seen: set<Id> := {};
      for i := 0 to |ids|
        invariant seen == Elements(ids[..i]) && Distinct(ids[..i]) && NO_ID !in ids[..i]
      {
        assert ids[..i + 1] == ids[..i] + [ids[i]];
        if ids[i] == NO_ID || ids[i] in seen {
          return Err(ReservationConflict);
        }
        seen := seen + {ids[i]};
      }
      assert ids[..|ids|] == ids;
      result := ReserveScript(ids, r, Millis(expires));
    }

    method ReserveScript(ids: seq<Id>, r: Id, expires: Time) returns (result: Result<(), ScriptError>)
      requires ids != [] && Distinct(ids)
      modifies this
      ensures State() == Reserve(old(State()), Elements(ids), r, expires).0
      ensures result.Ok? <==> Reserve(old(State()), Elements(ids), r, expires).1.Ok?
    {
      CountElements(ids);
      assert ids[0] in Elements(ids);
      var ok, queued, reserved := CheckTickets(ids, r);
      if !ok || (queued > 0 && reserved > 0) {
        return Err(ReservationConflict);
      }
      var count := CountHeld(r);
      if queued > 0 && count > 0 {
        return Err(ReservationConflict);
      }
      if reserved == |ids| {
        if count != reserved {
          return Err(ReservationConflict);
        }
        Relist(ids, r);
        return Ok(());
      }
      assert count == 0 ==> HeldBy(State(), r) == {};
      HoldEach(ids, r, expires);
      return Ok(());
    }

    method CheckTickets(ids: seq<Id>, r: Id) returns (ok: bool, queued: nat, reserved: nat)
      ensures ok ==> queued + reserved == |ids|
      ensures ok ==>
                (queued == 0 <==> AllHeld(State(), Elements(ids), r))
                && (reserved == 0 <==> AllWaiting(State(), Elements(ids)))
      ensures !ok ==> !AllHeld(State(), Elements(ids), r) && !AllWaiting(State(), Elements(ids))
    {
      queued, reserved := 0, 0;
      for i := 0 to |ids|
        invariant queued + reserved == i
        invariant queued == 0 <==> AllHeld(State(), Elements(ids[..i]), r)
        invariant reserved == 0 <==> AllWaiting(State(), Elements(ids[..i]))
      {
        var id := ids[i];
        assert id in Elements(ids);
        assert ids[..i + 1] == ids[..i] + [id];
        assert Elements(ids[..i + 1]) == Elements(ids[..i]) + {id};
        if id !in states || id !in ticketPools || id !in ticketScores {
          assert !Placed(State(), id);
          return false, 0, 0;
        }
        if states[id] == Queued {
          queued := queued + 1;
        } else if states[id] == Reserved && id in reservations && reservations[id] == r {
          reserved := reserved + 1;
        } else {
          assert !IsHeld(State(), id, r);
          return false, 0, 0;
        }
      }
      assert ids[..|ids|] == ids;
      return true, queued, reserved;
    }

    method CountHeld(r: Id) returns (count: nat)
      ensures count == |HeldBy(State(), r)|
    {
      count := 0;
      var todo := reservations.Keys;
      assert HeldBy(State(), r) - todo == {};
      while todo != {}
        invariant todo <= reservations.Keys && count == |HeldBy(State(), r) - todo|
      {
        var id :| id in todo;
        assert HeldBy(State(), r) - (todo - {id}) == (HeldBy(State(), r) - todo) + if reservations[id] == r then {id}
               else {};
        if reservations[id] == r {
          count := count + 1;
        }
        todo := todo - {id};
      }
      assert HeldBy(State(), r) - {} == HeldBy(State(), r);
    }

    method Relist(ids: seq<Id>, r: Id)
      modifies this`members
      ensures members == old(members) + EntriesOf(Elements(ids), r)
    {
      for i := 0 to |ids|
        invariant members == old(members) + EntriesOf(Elements(ids[..i]), r)
      {
        assert ids[..i + 1] == ids[..i] + [ids[i]];
        assert EntriesOf(Elements(ids[..i + 1]), r) == EntriesOf(Elements(ids[..i]), r) + {SetEntry(r, ids[i])};
        members := members + {SetEntry(r, ids[i])};
      }
      assert ids[..|ids|] == ids;
    }

    method HoldEach(ids: seq<Id>, r: Id, expires: Time)
      requires AllWaiting(State(), Elements(ids))
      modifies this
      ensures State() == Hold(old(State()), Elements(ids), r, expires)
    {
      HoldNothing(State(), r, expires);
      assert Elements(ids[..0]) == {};
      for i := 0 to |ids|
        invariant State() == Hold(old(State()), Elements(ids[..i]), r, expires)
      {
        assert ids[..i + 1] == ids[..i] + [ids[i]];
        assert Elements(ids[..i + 1]) == Elements(ids[..i]) + {ids[i]};
        HoldOneMore(old(State()), Elements(ids[..i]), ids[i], r, expires);
        assert ids[i] in Elements(ids);
        HoldOne(ids[i], r, expires);
      }
      assert ids[..|ids|] == ids;
    }

    method HoldOne(id: Id, r: Id, expires: Time)
      requires id in ticketPools
      modifies this
      ensures State() == Hold(old(State()), {id}, r, expires)
    {
      var pool := ticketPools[id];
      SettingOne(states, id, Reserved);
      SettingOne(reservations, id, r);
      SettingOne(expiry, id, expires);
      assert Positions(State(), {id}) == {QueueEntry(pool, id)};
      queues := queues - {QueueEntry(pool, id)};
      states := states[id := Reserved];
      reservations := reservations[id := r];
      expiry := expiry[id := expires];
      members := members + {SetEntry(r, id)};
      assert EntriesOf({id}, r) == {SetEntry(r, id)};
    }

    /** The release script: the set if it is there, else the hash, says which tickets go back. */
    method ReleaseScript(r: Id) returns (result: Result<nat, ScriptError>)
      modifies this
      ensures (State(), result) == Release(old(State()), r)
    {
      var tickets := Listed(r);
      if tickets == {} {
        return Ok(0);
      }
      var held := AllStillHeld(tickets, r);
      if !held {
        return Err(ReservationConflict);
      }
      RequeueEach(tickets);
      members := Delete(members, r);
      return Ok(|tickets|);
    }

    method Listed(r: Id) returns (tickets: set<Id>)
      ensures tickets == ListedBy(State(), r)
    {
      tickets := set e | e in members && e.reservation == r :: e.ticket;
      if tickets == {} {
        var todo := reservations.Keys;
        while todo != {}
          invariant todo <= reservations.Keys && tickets == HeldBy(State(), r) - todo
        {
          var id :| id in todo;
          if reservations[id] == r {
            tickets := tickets + {id};
          }
          todo := todo - {id};
        }
      }
    }

    method AllStillHeld(tickets: set<Id>, r: Id) returns (held: bool)
      ensures held <==> AllHeld(State(), tickets, r)
    {
      var todo := tickets;
      while todo != {}
        invariant todo <= tickets && AllHeld(State(), tickets - todo, r)
      {
        var id :| id in todo;
        if id !in states || states[id] != Reserved || id !in reservations || reservations[id] != r
          || id !in ticketPools || id !in ticketScores {
          return false;
        }
        todo := todo - {id};
      }
      assert tickets - {} == tickets;
      return true;
    }

    method RequeueEach(tickets: set<Id>)
      requires forall id :: id in tickets ==> Placed(State(), id)
      modifies this
      ensures State() == Requeue(old(State()), tickets)
    {
      var todo := tickets;
      RequeueNothing(State());
      assert tickets - todo == {};
      while todo != {}
        invariant todo <= tickets && State() == Requeue(old(State()), tickets - todo)
      {
        var id :| id in todo;
        RequeueOneMore(old(State()), tickets - todo, id);
        assert tickets - (todo - {id}) == tickets - todo + {id};
        RequeueOne(id);
        todo := todo - {id};
      }
      assert tickets - {} == tickets;
    }

    method RequeueOne(id: Id)
      requires id in ticketPools && id in ticketScores
      modifies this
      ensures State() == Requeue(old(State()), {id})
    {
      var pool, score := ticketPools[id], ticketScores[id];
      SettingOne(states, id, Queued);
      PlacingOne(ticketPools, ticketScores, id, queues);
      states := states[id := Queued];
      reservations := reservations - {id};
      expiry := expiry - {id};
      queues := queues[QueueEntry(pool, id) := score];
    }

    /** The finalize script: settles the listed tickets that are still held, and skips the others. */
    method FinalizeScript(r: Id, m: Id) returns (count: nat)
      modifies this
      ensures (State(), count) == Finalize(old(State()), r, m)
    {
      var tickets := Listed(r);
      ghost var before := State();
      ghost var settled: set<Id> := {};
      SettleNothing(before, m);
      var todo := tickets;
      while todo != {}
        invariant todo <= tickets && settled == HeldAmong(before, tickets - todo, r)
        invariant State() == Settle(before, settled, m)
      {
        var id :| id in todo;
        HeldOneMore(before, tickets, todo, id, r);
        SettleIfHeld(before, settled, id, r, m);
        settled := settled + if IsHeld(before, id, r) then {id} else {};
        todo := todo - {id};
      }
      assert tickets - {} == tickets;
      members := Delete(members, r);
      return |tickets|;
    }

    // The loop's body.
    method SettleIfHeld(ghost before: Redis, ghost settled: set<Id>, id: Id, r: Id, m: Id)
      requires State() == Settle(before, settled, m) && id !in settled
      modifies this
      ensures State() == Settle(before, settled + if IsHeld(before, id, r) then {id} else {}, m)
    {
      StillHeld(before, settled, id, r, m);
      if id in states && states[id] == Reserved && id in reservations && reservations[id] == r {
        SettleOneMore(before, settled, id, m);
        SettleOne(id, m);
      } else {
        assert settled + {} == settled;
      }
    }

    method SettleOne(id: Id, m: Id)
      modifies this
      ensures State() == Settle(old(State()), {id}, m)
    {
      SettingOne(states, id, Assigned);
      SettingOne(matches, id, m);
      states := states[id := Assigned];
      matches := matches[id := m];
      reservations := reservations - {id};
      expiry := expiry - {id};
    }

    /** The recover script with its limit of 1000 tickets a call. */
    method RecoverScript(now: Time) returns (ghost due: seq<Id>)
      modifies this
      ensures RangeByScore(old(expiry), now, RECOVERY_LIMIT, due) && State() == RecoverEach(old(State()), due)
    {
      var tickets := ZRangeByScore(now, RECOVERY_LIMIT);
      for i := 0 to |tickets|
        invariant State() == RecoverEach(old(State()), tickets[..i])
      {
        assert tickets[..i + 1][..i] == tickets[..i];
        RecoverTicket(tickets[i]);
      }
      assert tickets[..|tickets|] == tickets;
      due := tickets;
    }

    method RecoverTicket(id: Id)
      modifies this
      ensures State() == RecoverOne(old(State()), id)
    {
      if id in states && states[id] == Reserved && id in reservations && id in ticketPools && id in ticketScores {
        var reservation := reservations[id];
        RequeueOne(id);
        members := members - {SetEntry(reservation, id)};
      } else {
        expiry := expiry - {id};
      }
    }

    // ZRANGEBYSCORE key -inf now LIMIT 0 limit.
    method ZRangeByScore(now: Time, limit: nat) returns (due: seq<Id>)
      ensures RangeByScore(expiry, now, limit, due)
    {
      due := [];
      var rest := set id | id in expiry && expiry[id] <= now;
      while rest != {} && |due| < limit
        invariant Distinct(due) && |due| <= limit
        invariant forall id :: id in expiry && expiry[id] <= now <==> id in due || id in rest
        invariant forall id :: id in due ==> id !in rest
        invariant forall i, j :: 0 <= i < j < |due| ==> Sooner(expiry, due[i], due[j])
        invariant forall k, id :: k in due && id in rest ==> Sooner(expiry, k, id)
        decreases rest
      {
        var next := Soonest(rest);
        due := due + [next];
        rest := rest - {next};
      }
    }

    method Soonest(candidates: set<Id>) returns (best: Id)
      requires candidates != {} && candidates <= expiry.Keys
      ensures best in candidates && forall id :: id in candidates && id != best ==> Sooner(expiry, best, id)
    {
      best :| best in candidates;
      var todo := candidates - {best};
      while todo != {}
        invariant todo <= candidates && best in candidates && best !in todo
        invariant forall x :: x in candidates && x !in todo && x != best ==> Sooner(expiry, best, x)
      {
        var id :| id in todo;
        if expiry[id] < expiry[best] || (expiry[id] == expiry[best] && id < best) {
          best := id;
        }
        todo := todo - {id};
      }
    }

    method UpsertQueued(id: Id, pool: PoolKey, score: int)
      modifies this
      ensures State() == Upsert(old(State()), id, pool, score)
    {
      states := states[id := Queued];
      ticketPools := ticketPools[id := pool];
      ticketScores := ticketScores[id := score];
      queues := queues[QueueEntry(pool, id) := score];
      reservations := reservations - {id};
      expiry := expiry - {id};
    }

    /** Two reads and a pipeline; undisturbed, the reads are current and the structures go on agreeing. */
    method RemoveTicket(id: Id, state: TicketState)
      requires state != Queued && state != Reserved
      modifies this
      ensures State() == Remove(old(State()), id, state, PoolRead(old(State()), id), HolderRead(old(State()), id))
      ensures old(Agree(State())) ==> Agree(State())
    {
      var pool := if id in ticketPools then Some(ticketPools[id]) else None;
      var reservation := if id in reservations then Some(reservations[id]) else None;
      if Agree(State()) {
        RemoveAgreesExactly(State(), id, state, pool, reservation);
      }
      if pool.Some? {
        queues := queues - {QueueEntry(pool.value, id)};
      }
      if reservation.Some? {
        members := members - {SetEntry(reservation.value, id)};
      }
      states := states[id := state];
      reservations := reservations - {id};
      expiry := expiry - {id};
    }
  }

  predicate Acceptable(ids: seq<Id>, r: Id, expires: Time, now: Time) {
    r != NO_ID && ids != [] && now < expires && NO_ID !in ids && forall i, j :: 0 <= i < j < |ids| ==> ids[i] != ids[j]
  }

  lemma {:induction false} CountElements(ids: seq<Id>)
    requires Distinct(ids)
    ensures |Elements(ids)| == |ids|
  {
    if ids != [] {
      var n := |ids| - 1;
      CountElements(ids[..n]);
      assert ids == ids[..n] + [ids[n]];
      assert Elements(ids) == Elements(ids[..n]) + {ids[n]};
    }
  }

  lemma HoldNothing(db: Redis, r: Id, expires: Time)
    ensures Hold(db, {}, r, expires) == db
  {
    assert Positions(db, {}) == {} && EntriesOf({}, r) == {};
  }

  ghost function HeldAmong(db: Redis, ids: set<Id>, r: Id): set<Id> {
    set id | id in ids && IsHeld(db, id, r)
  }

  lemma HeldOneMore(db: Redis, ids: set<Id>, todo: set<Id>, id: Id, r: Id)
    requires id in todo && todo <= ids
    ensures HeldAmong(db, ids - (todo - {id}), r)
            == HeldAmong(db, ids - todo, r) + if IsHeld(db, id, r) then {id} else {}
  {
  }

  lemma HoldOneMore(db: Redis, done: set<Id>, id: Id, r: Id, expires: Time)
    ensures Hold(Hold(db, done, r, expires), {id}, r, expires) == Hold(db, done + {id}, r, expires)
  {
    SettingOneMore(db.states, done, id, Reserved);
    SettingOneMore(db.holders, done, id, r);
    SettingOneMore(db.expiry, done, id, expires);
    QueuesWithout(db, done, id);
    MembersWith(db.members, done, id, r);
  }

  lemma QueuesWithout(db: Redis, done: set<Id>, id: Id)
    ensures db.queues - Positions(db, done) - Positions(db, {id}) == db.queues - Positions(db, done + {id})
  {
    assert Positions(db, done + {id}) == Positions(db, done) + Positions(db, {id});
  }

  lemma MembersWith(members: set<SetEntry>, done: set<Id>, id: Id, r: Id)
    ensures members + EntriesOf(done, r) + EntriesOf({id}, r) == members + EntriesOf(done + {id}, r)
  {
    assert EntriesOf(done + {id}, r) == EntriesOf(done, r) + EntriesOf({id}, r);
  }

  lemma PlacingOne(pools: map<Id, PoolKey>, scores: map<Id, int>, id: Id, queues: map<QueueEntry, int>)
    requires id in pools && id in scores
    ensures queues + Placements(pools, scores, {id}) == queues[QueueEntry(pools[id], id) := scores[id]]
  {
    assert Placements(pools, scores, {id}) == map[QueueEntry(pools[id], id) := scores[id]];
  }

  lemma RequeueNothing(db: Redis)
    ensures Requeue(db, {}) == db
  {
    assert Placements(db.pools, db.scores, {}) == map[];
  }

  lemma RequeueOneMore(db: Redis, done: set<Id>, id: Id)
    ensures Requeue(Requeue(db, done), {id}) == Requeue(db, done + {id})
  {
    SettingOneMore(db.states, done, id, Queued);
    PlacementsOneMore(db.pools, db.scores, done, id);
    MergeTwice(db.queues, Placements(db.pools, db.scores, done), Placements(db.pools, db.scores, {id}));
  }

  lemma SettleNothing(db: Redis, m: Id)
    ensures Settle(db, {}, m) == db
  {
  }

  lemma StillHeld(db: Redis, done: set<Id>, id: Id, r: Id, m: Id)
    requires id !in done
    ensures IsHeld(Settle(db, done, m), id, r) <==> IsHeld(db, id, r)
  {
  }

  lemma SettleOneMore(db: Redis, done: set<Id>, id: Id, m: Id)
    ensures Settle(Settle(db, done, m), {id}, m) == Settle(db, done + {id}, m)
  {
    SettingOneMore(db.states, done, id, Assigned);
    SettingOneMore(db.matches, done, id, m);
  }
}
