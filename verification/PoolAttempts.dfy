/**
  What one attempt to make a match from a pool comes to (internal/matchmaking/application/worker.go:200-364),
  in terms of what the worker is given: the snapshot, the players that are eligible, the engine's
  lineup, the ids, the token and the times.
*/
module PoolAttempts {
  import opened Prelude
  import T = Tickets
  import opened TicketStoreSpec
  import opened StoreStability
  import opened EligibleTickets
  import opened Matches
  import opened MatchStores
  import opened Allocators
  import opened Saga
  import opened SagaInvariant
  import opened SagaSafety
  import opened AttemptCalls
  import Undisturbed = UndisturbedAttempts

  // What the engine and the choice of a region come up with; the tickets are those of the players, in the same order.
  datatype Lineup = Lineup(
    teamA: MatchTeam,
    teamB: MatchTeam,
    region: Id,
    policyVersion: Id,
    quality: MatchQuality,
    tickets: seq<T.Ticket>)

  // The players are those of the tickets, and the tickets are among the candidates.
  ghost predicate DrawnFrom(l: Lineup, candidates: seq<T.Ticket>) {
    && |l.tickets| == |l.teamA.players + l.teamB.players|
    && forall i {:trigger l.tickets[i]} :: 0 <= i < |l.tickets| ==>
         && l.tickets[i] in candidates
         && (l.teamA.players + l.teamB.players)[i].ticket == l.tickets[i].profile.id
         && (l.teamA.players + l.teamB.players)[i].player == l.tickets[i].profile.player
  }

  function PlanFor(pool: T.PoolKey, l: Lineup, reservation: Id, now: Time, expires: Time): Plan {
    Plan(reservation, pool.mode, l.teamA, l.teamB, l.region, l.policyVersion, l.quality, now, expires)
  }

  // The system with the given ticket store and a new attempt.
  function Starting(s: System, store: Store, m: Id, p: Plan): (s': System)
    ensures m in s'.attempts
  {
    s.(store := store, attempts := s.attempts[m := Attempt(p, ToReserve)])
  }

  // The lineup that an attempt goes for, if any, and the store after the filters.
  function ChosenLineup(s: Store, snapshot: seq<T.Ticket>, eligible: set<Id>, stillEligible: set<Id>,
                        form: seq<T.Ticket> -> Option<Lineup>, keyOf: Id -> Id, now: Time): (Store, Option<Lineup>)
  {
    var first := Purged(s, snapshot, eligible, keyOf, now);
    var candidates := EligibleOnly(snapshot, eligible);
    if !first.1 then (first.0, None)
    else FormedLineup(first.0, candidates, stillEligible, form, keyOf, now)
  }

  function FormedLineup(s: Store, candidates: seq<T.Ticket>, stillEligible: set<Id>,
                        form: seq<T.Ticket> -> Option<Lineup>, keyOf: Id -> Id, now: Time): (Store, Option<Lineup>)
  {
    if candidates == [] || form(candidates).None? then (s, None)
    else Confirmed(s, form(candidates).value, stillEligible, keyOf, now)
  }

  // The second look at the players of a lineup.
  function Confirmed(s: Store, l: Lineup, stillEligible: set<Id>, keyOf: Id -> Id, now: Time): (Store, Option<Lineup>) {
    var second := Purged(s, l.tickets, stillEligible, keyOf, now);
    (second.0, if second.1 && |EligibleOnly(l.tickets, stillEligible)| == 10 then Some(l) else None)
  }

  /**
    The lineup is the engine's for the eligible players' tickets of the snapshot, in their order, and
    all of its ten players are still eligible at the second look.  There is none iff a filter gives
    up, nobody is eligible, the engine finds none, or not all ten are still eligible.
  */
  lemma ChosenLineupIs(s: Store, snapshot: seq<T.Ticket>, eligible: set<Id>, stillEligible: set<Id>,
                       form: seq<T.Ticket> -> Option<Lineup>, keyOf: Id -> Id, now: Time)
    requires forall ts :: form(ts).Some? ==> |form(ts).value.tickets| == 10 && DrawnFrom(form(ts).value, ts)
    ensures var kept, first := EligibleOnly(snapshot, eligible), Purged(s, snapshot, eligible, keyOf, now);
            var chosen := ChosenLineup(s, snapshot, eligible, stillEligible, form, keyOf, now).1;
            && (chosen.Some? <==>
                  && first.1 && kept != [] && form(kept).Some?
                  && Purged(first.0, form(kept).value.tickets, stillEligible, keyOf, now).1
                  && forall t :: t in form(kept).value.tickets ==> t.profile.player in stillEligible)
            && (chosen.Some? ==>
                  && chosen == form(kept)
                  && forall t :: t in chosen.value.tickets ==>
                       t in snapshot && t.profile.player in eligible && t.profile.player in stillEligible)
  {
    var kept := EligibleOnly(snapshot, eligible);
    EligibleAreTickets(snapshot, eligible);
    if kept != [] && form(kept).Some? {
      var l := form(kept).value;
      AllStillEligible(l.tickets, stillEligible);
      forall t | t in l.tickets ensures t in kept {
        var i :| 0 <= i < |l.tickets| && l.tickets[i] == t;
      }
    }
  }

  lemma {:induction false} AllStillEligible(tickets: seq<T.Ticket>, eligible: set<Id>)
    ensures |EligibleOnly(tickets, eligible)| == |tickets| <==>
              forall t :: t in tickets ==> t.profile.player in eligible
  {
    if tickets != [] {
      var n := |tickets| - 1;
      assert tickets == tickets[..n] + [tickets[n]];
      AllStillEligible(tickets[..n], eligible);
      EligibleAreTickets(tickets[..n], eligible);
    }
  }

  /* From the lineup on */

  function IdsOf(l: Lineup): set<Id> {
    set t | t in l.tickets :: t.profile.id
  }

  // The lineup's tickets are different and wait, and the hold lies ahead.
  ghost predicate CanHold(store: Store, l: Lineup, now: Time, expires: Time) {
    && l.tickets != []
    && (forall i, j :: 0 <= i < j < |l.tickets| ==> l.tickets[i].profile.id != l.tickets[j].profile.id)
    && (forall t :: t in l.tickets ==> t.profile.id in store.tickets && store.tickets[t.profile.id].state == T.Queued)
    && now < expires && expires != ZERO_TIME
  }

  // The match is one that the aggregate accepts.
  predicate Playable(pool: T.PoolKey, l: Lineup, now: Time) {
    && pool.mode != NO_ID && l.region != NO_ID && l.policyVersion != NO_ID && now != ZERO_TIME
    && ValidTeams(l.teamA, l.teamB) && 0.0 <= l.quality.total <= 100.0
    && 0.0 <= l.quality.predictedWinA <= 1.0 && 0.0 <= l.quality.predictedWinB <= 1.0
  }

  // The region has a slot to spare, for which there is a token.
  predicate Servable(s: System, l: Lineup, token: Option<Id>) {
    CapacityOf(s.capacities, l.region) > |SlotsIn(s.slots, l.region)| && token.Some? && token.value != NO_ID
  }

  // What becomes of the lineup's tickets.
  function Seating(t: T.Ticket, reservation: Id, m: Id, now: Time, expires: Time): T.Ticket {
    t.(state := T.Assigned, reservation := reservation, expiresAt := expires, matchId := m, updatedAt := now)
  }

  // The lineup's tickets are assigned and leave their pools; the rest of the store stays.
  ghost predicate TakesSeats(store: Store, after: Store, l: Lineup, reservation: Id, m: Id, now: Time, expires: Time) {
    && after == store.(tickets := after.tickets, pools := after.pools) && after.tickets.Keys == store.tickets.Keys
    && (forall id :: id in store.tickets ==>
          after.tickets[id] == if id in IdsOf(l) then Seating(store.tickets[id], reservation, m, now, expires)
                               else store.tickets[id])
    && forall key, id :: id in PoolOf(after, key) <==> id in PoolOf(store, key) && id !in IdsOf(l)
  }

  // The match with everything that the lineup gives it, in its third revision.
  function MatchOf(pool: T.PoolKey, l: Lineup, m: Id, token: Id, now: Time): Match {
    Match(m, pool.mode, l.teamA, l.teamB, Ready, l.region, AddressOf(l.region), token, l.policyVersion, l.quality, None,
          3, now, now)
  }

  // The match is stored, its tickets are assigned to it and it has a slot; nothing else in the stores is touched.
  ghost predicate Made(s: System, store: Store, s': System, pool: T.PoolKey, l: Lineup, reservation: Id, m: Id,
                       token: Id, now: Time, expires: Time)
  {
    && s'.slots == s.slots[m := Slot(l.region, AddressOf(l.region), token)]
    && s'.matches == s.matches[m := MatchOf(pool, l, m, token, now)]
    && TakesSeats(store, s'.store, l, reservation, m, now, expires)
  }

  // The same match without a server.
  function FailedOf(pool: T.PoolKey, l: Lineup, m: Id, now: Time): Match {
    MatchOf(pool, l, m, NO_ID, now).(state := MatchState.Failed, address := NO_ID)
  }

  // The stores are as before, but for the update times of the tickets if they were held, and a match
  // that has failed if it could be made.
  ghost predicate Missed(s: System, store: Store, s': System, pool: T.PoolKey, l: Lineup, m: Id, now: Time,
                         expires: Time)
  {
    var held := CanHold(store, l, now, expires);
    && s'.slots == s.slots
    && s'.matches == (if held && Playable(pool, l, now) then s.matches[m := FailedOf(pool, l, m, now)] else s.matches)
    && s'.store == store.(tickets := s'.store.tickets) && s'.store.tickets.Keys == store.tickets.Keys
    && forall id :: id in store.tickets ==>
         s'.store.tickets[id]
         == if held && id in IdsOf(l) then store.tickets[id].(updatedAt := now) else store.tickets[id]
  }

  // What the attempt for a lineup comes to.
  ghost predicate Settled(s: System, store: Store, s': System, pool: T.PoolKey, l: Lineup, reservation: Id, m: Id,
                          token: Option<Id>, now: Time, expires: Time, ok: bool)
  {
    && (ok <==> CanHold(store, l, now, expires) && Playable(pool, l, now) && Servable(s, l, token))
    && (ok ==> token.Some? && Made(s, store, s', pool, l, reservation, m, token.value, now, expires))
    && (!ok ==> Missed(s, store, s', pool, l, m, now, expires))
  }

  // Without a lineup nothing happens beyond the filters.
  ghost predicate Concluded(before: System, after: System, picked: (Store, Option<Lineup>),
                            pool: T.PoolKey, reservation: Id, m: Id, token: Option<Id>, now: Time,
                            expires: Time, ok: bool)
  {
    match picked.1
    case None => !ok && after == before.(store := picked.0)
    case Some(l) => Settled(before, picked.0, after, pool, l, reservation, m, token, now, expires, ok)
  }

  // Only the stores' other parts count before the filters.
  lemma ConcludedFrom(before: System, mid: System, after: System, picked: (Store, Option<Lineup>), pool: T.PoolKey,
                      reservation: Id, m: Id, token: Option<Id>, now: Time, expires: Time, ok: bool)
    requires mid == before.(store := mid.store)
    requires Concluded(mid, after, picked, pool, reservation, m, token, now, expires, ok)
    ensures Concluded(before, after, picked, pool, reservation, m, token, now, expires, ok)
  {
    match picked.1
    case None => assert mid.(store := picked.0) == before.(store := picked.0);
    case Some(l) => SettledFrom(before, mid, picked.0, after, pool, l, reservation, m, token, now, expires, ok);
  }

  lemma SettledFrom(before: System, mid: System, store: Store, after: System, pool: T.PoolKey, l: Lineup,
                    reservation: Id, m: Id, token: Option<Id>, now: Time, expires: Time, ok: bool)
    requires mid == before.(store := mid.store)
    requires Settled(mid, store, after, pool, l, reservation, m, token, now, expires, ok)
    ensures Settled(before, store, after, pool, l, reservation, m, token, now, expires, ok)
  {
  }

  /* The machine's attempt does that */

  // The machine's attempt for the lineup, from the given store.
  ghost predicate Begun(s: System, store: Store, s0: System, pool: T.PoolKey, l: Lineup, reservation: Id, m: Id,
                        now: Time, expires: Time)
  {
    && s0 == Starting(s, store, m, PlanFor(pool, l, reservation, now, expires)) && Reachable(s0)
    && |l.tickets| == |l.teamA.players + l.teamB.players|
    && forall i :: 0 <= i < |l.tickets| ==>
         (l.teamA.players + l.teamB.players)[i].ticket == l.tickets[i].profile.id
  }

  lemma SameIds(p: Plan, l: Lineup)
    requires p.teamA == l.teamA && p.teamB == l.teamB && |l.tickets| == |l.teamA.players + l.teamB.players|
    requires forall i :: 0 <= i < |l.tickets| ==>
               (l.teamA.players + l.teamB.players)[i].ticket == l.tickets[i].profile.id
    ensures |p.TicketIds()| == |l.tickets| && forall i :: 0 <= i < |l.tickets| ==>
              p.TicketIds()[i] == l.tickets[i].profile.id
    ensures forall id :: id in p.TicketIds() <==> id in IdsOf(l)
  {
    forall id | id in IdsOf(l) ensures id in p.TicketIds() {
      var t :| t in l.tickets && t.profile.id == id;
      var i :| 0 <= i < |l.tickets| && l.tickets[i] == t;
      assert p.TicketIds()[i] == id;
    }
  }

  lemma HoldIs(s: System, store: Store, s0: System, pool: T.PoolKey, l: Lineup, reservation: Id, m: Id, now: Time,
               expires: Time)
    requires Begun(s, store, s0, pool, l, reservation, m, now, expires)
    ensures Undisturbed.CanHold(s0, PlanFor(pool, l, reservation, now, expires)) <==> CanHold(store, l, now, expires)
  {
    var p := PlanFor(pool, l, reservation, now, expires);
    SameIds(p, l);
    if CanHold(store, l, now, expires) {
      forall id | id in p.TicketIds() ensures id in store.tickets && store.tickets[id].state == T.Queued {
        assert id in IdsOf(l);
      }
    }
    if Undisturbed.CanHold(s0, p) {
      forall t | t in l.tickets ensures t.profile.id in store.tickets && store.tickets[t.profile.id].state == T.Queued {
        assert t.profile.id in IdsOf(l);
      }
    }
  }

  lemma SupplyIs(s: System, store: Store, s0: System, pool: T.PoolKey, l: Lineup, reservation: Id, m: Id,
                 token: Option<Id>, now: Time, expires: Time)
    requires Begun(s, store, s0, pool, l, reservation, m, now, expires) && m != NO_ID
    ensures Undisturbed.Supplied(s0, m, PlanFor(pool, l, reservation, now, expires), token) <==>
              Playable(pool, l, now) && Servable(s, l, token)
  {
  }

  // What assigning the lineup's tickets right after reserving them comes to.
  lemma SeatedAtOnce(store: Store, l: Lineup, ids: seq<Id>, reservation: Id, m: Id, now: Time, expires: Time)
    requires Inv(store) && reservation !in store.reservations && m != NO_ID
    requires ReserveAll(store, ids, reservation, expires, now).1.Ok? && forall id :: id in ids <==> id in IdsOf(l)
    ensures var after := AssignAll(ReserveAll(store, ids, reservation, expires, now).0, reservation, m, now).0;
            TakesSeats(store, after, l, reservation, m, now, expires)
  {
    var held := ReserveAll(store, ids, reservation, expires, now).0;
    ReserveEffect(store, ids, reservation, expires, now);
    ReserveKeepsInv(store, ids, reservation, expires, now);
    AssignEffect(held, reservation, m, now);
    AssignKeepsInv(held, reservation, m, now);
    var after := AssignAll(held, reservation, m, now).0;
    assert ReservationOk(held, reservation);
    forall id | id in store.tickets ensures Held(held, id, reservation) <==> id in ids {}
    SeatsAre(store, held, after, l, ids, reservation, m, now, expires);
  }

  lemma SeatsAre(store: Store, held: Store, after: Store, l: Lineup, ids: seq<Id>, reservation: Id, m: Id, now: Time,
                 expires: Time)
    requires Inv(store) && Inv(after) && reservation !in store.reservations && AllQueued(store, ids)
    requires Reserves(store, held, ids, reservation, expires, now) && Assigns(held, after, reservation, m, now)
    requires forall id :: id in store.tickets ==> (Held(held, id, reservation) <==> id in ids)
    requires forall id :: id in ids <==> id in IdsOf(l)
    ensures TakesSeats(store, after, l, reservation, m, now, expires)
  {
    assert after.reservations == store.reservations;
    forall key, id ensures id in PoolOf(after, key) <==> id in PoolOf(store, key) && id !in IdsOf(l) {
      assert PoolOk(after, key) && PoolOk(store, key);
      assert InPool(after, key, id) <==> InPool(store, key, id) && id !in IdsOf(l);
    }
  }

  /** The undisturbed attempt for a lineup succeeds exactly when it can, and does what it should. */
  lemma AttemptSettles(s: System, store: Store, s0: System, pool: T.PoolKey, l: Lineup, reservation: Id, m: Id,
                       token: Option<Id>, now: Time, expires: Time)
    requires Begun(s, store, s0, pool, l, reservation, m, now, expires) && m !in s.attempts
    ensures Settled(s, store, Outcome(s0, m, token), pool, l, reservation, m, token, now, expires,
                    Outcome(s0, m, token).attempts[m].phase == Succeeded)
  {
    var p := PlanFor(pool, l, reservation, now, expires);
    PhaseFacts(s0, m, p, ToReserve);
    HoldIs(s, store, s0, pool, l, reservation, m, now, expires);
    SupplyIs(s, store, s0, pool, l, reservation, m, token, now, expires);
    Undisturbed.SucceedsExactly(s0, m, p, token);
    if Undisturbed.Feasible(s0, m, p, token) {
      AttemptMakes(s, store, s0, pool, l, reservation, m, token, now, expires);
    } else {
      AttemptMisses(s, store, s0, pool, l, reservation, m, token, now, expires);
    }
  }

  lemma AttemptMakes(s: System, store: Store, s0: System, pool: T.PoolKey, l: Lineup, reservation: Id, m: Id,
                     token: Option<Id>, now: Time, expires: Time)
    requires Begun(s, store, s0, pool, l, reservation, m, now, expires) && m !in s.attempts
    requires Undisturbed.Feasible(s0, m, PlanFor(pool, l, reservation, now, expires), token)
    ensures token.Some? && Made(s, store, Outcome(s0, m, token), pool, l, reservation, m, token.value, now, expires)
  {
    var p := PlanFor(pool, l, reservation, now, expires);
    SameIds(p, l);
    PhaseFacts(s0, m, p, ToReserve);
    Undisturbed.SuccessMakesMatch(s0, m, p, token);
    Undisturbed.HoldsExactly(s0, m, p);
    SeatedAtOnce(store, l, p.TicketIds(), reservation, m, now, expires);
    MatchesMade(s0.matches, Outcome(s0, m, token).matches, m, MatchOf(pool, l, m, token.value, now));
  }

  lemma AttemptMisses(s: System, store: Store, s0: System, pool: T.PoolKey, l: Lineup, reservation: Id, m: Id,
                      token: Option<Id>, now: Time, expires: Time)
    requires Begun(s, store, s0, pool, l, reservation, m, now, expires) && m !in s.attempts
    requires !Undisturbed.Feasible(s0, m, PlanFor(pool, l, reservation, now, expires), token)
    ensures Missed(s, store, Outcome(s0, m, token), pool, l, m, now, expires)
  {
    var p := PlanFor(pool, l, reservation, now, expires);
    var s' := Outcome(s0, m, token);
    SameIds(p, l);
    HoldIs(s, store, s0, pool, l, reservation, m, now, expires);
    MatchesMissed(s0, m, p);
    MadeIs(pool, l, reservation, m, now, expires);
    Undisturbed.FailurePutsBack(s0, m, p, token);
    var made := CanHold(store, l, now, expires) && Playable(pool, l, now);
    OwnOnly(s0.matches, s'.matches, m, if made then Some(FailedOf(pool, l, m, now)) else None);
    StoreMissed(store, s'.store, l, p, CanHold(store, l, now, expires));
  }

  lemma MadeIs(pool: T.PoolKey, l: Lineup, reservation: Id, m: Id, now: Time, expires: Time)
    requires m != NO_ID
    ensures var p := PlanFor(pool, l, reservation, now, expires);
            && (Undisturbed.CanBeMade(m, p) <==> Playable(pool, l, now))
            && Undisturbed.FailedMatch(m, p) == FailedOf(pool, l, m, now)
  {
  }

  lemma StoreMissed(store: Store, after: Store, l: Lineup, p: Plan, held: bool)
    requires Undisturbed.Restored(store, after, p, held) && forall id :: id in p.TicketIds() <==> id in IdsOf(l)
    ensures after == store.(tickets := after.tickets) && after.tickets.Keys == store.tickets.Keys
    ensures forall id :: id in store.tickets ==>
              after.tickets[id] == if held && id in IdsOf(l) then store.tickets[id].(updatedAt := p.now)
                                   else store.tickets[id]
  {
  }

  lemma OwnOnly(matches: map<Id, Match>, matches': map<Id, Match>, m: Id, own: Option<Match>)
    requires m !in matches && matches' - {m} == matches && Undisturbed.OwnIs(matches', m, own)
    ensures matches' == if own.Some? then matches[m := own.value] else matches
  {
    if own.Some? {
      MatchesMade(matches, matches', m, own.value);
    } else {
      assert matches' - {m} == matches';
    }
  }

  lemma MatchesMissed(s0: System, m: Id, p: Plan)
    requires Is(s0, m, p, ToReserve)
    ensures m != NO_ID && m !in s0.matches && s0.matches - {m} == s0.matches
  {
    PhaseFacts(s0, m, p, ToReserve);
  }

  lemma MatchesMade(matches: map<Id, Match>, matches': map<Id, Match>, m: Id, ready: Match)
    requires matches' - {m} == matches && m in matches' && matches'[m] == ready
    ensures matches' == matches[m := ready]
  {
    assert matches' == (matches' - {m})[m := matches'[m]];
  }
}
