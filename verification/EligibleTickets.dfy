/**
  Worker.filterEligibleTickets (internal/matchmaking/application/worker.go:366-394): which tickets
  of a list remain, what becomes of the others, and when the filter gives up.
*/
module EligibleTickets {
  import opened Prelude
  import T = Tickets
  import opened TicketStoreSpec
  import opened StoreStability
  import Effects = StoreEffects

  function EligibleOnly(tickets: seq<T.Ticket>, eligible: set<Id>): seq<T.Ticket> {
    if tickets == [] then []
    else
      var n := |tickets| - 1;
      EligibleOnly(tickets[..n], eligible) + if tickets[n].profile.player in eligible then [tickets[n]] else []
  }

  lemma {:induction false} EligibleAreTickets(tickets: seq<T.Ticket>, eligible: set<Id>)
    ensures |EligibleOnly(tickets, eligible)| <= |tickets|
    ensures forall t :: t in EligibleOnly(tickets, eligible) <==> t in tickets && t.profile.player in eligible
  {
    if tickets != [] {
      var n := |tickets| - 1;
      assert tickets == tickets[..n] + [tickets[n]];
      EligibleAreTickets(tickets[..n], eligible);
    }
  }

  lemma EligibleOneMore(tickets: seq<T.Ticket>, t: T.Ticket, eligible: set<Id>)
    ensures EligibleOnly(tickets + [t], eligible)
            == if t.profile.player in eligible then EligibleOnly(tickets, eligible) + [t]
               else EligibleOnly(tickets, eligible)
  {
    assert (tickets + [t])[..|tickets|] == tickets;
  }

  /** The filter keeps of a part of the list what it would keep of it alone: the eligible tickets, in their order. */
  lemma {:induction false} EligibleByParts(a: seq<T.Ticket>, b: seq<T.Ticket>, eligible: set<Id>)
    ensures EligibleOnly(a + b, eligible) == EligibleOnly(a, eligible) + EligibleOnly(b, eligible)
  {
    if b == [] {
      assert a + b == a;
    } else {
      var init, t := b[..|b| - 1], b[|b| - 1];
      assert b == init + [t] && a + b == (a + init) + [t];
      EligibleByParts(a, init, eligible);
      EligibleOneMore(init, t, eligible);
      EligibleOneMore(a + init, t, eligible);
    }
  }

  // Each ticket is in the store, though it may have moved on.
  ghost predicate InStore(s: Store, tickets: seq<T.Ticket>) {
    forall i {:trigger tickets[i]} :: 0 <= i < |tickets| ==>
      tickets[i].profile.id in s.tickets && s.tickets[tickets[i].profile.id].profile == tickets[i].profile
  }

  lemma StillInStore(s: Store, s': Store, tickets: seq<T.Ticket>, r: Id, m: Id)
    requires InStore(s, tickets) && Steady(s, s', r, m)
    ensures InStore(s', tickets)
  {
    forall i | 0 <= i < |tickets|
      ensures tickets[i].profile.id in s'.tickets
              && s'.tickets[tickets[i].profile.id].profile == tickets[i].profile
    {
      assert SameProfile(s.tickets, s'.tickets, tickets[i].profile.id);
    }
  }

  // The tickets of ineligible players are cancelled one by one, each under its own key; the first
  // refusal that is not due to the ticket's own state stops the filter.
  function Purged(s: Store, tickets: seq<T.Ticket>, eligible: set<Id>, keyOf: Id -> Id, now: Time): (Store, bool) {
    if tickets == [] then (s, true)
    else
      var before := Purged(s, tickets[..|tickets| - 1], eligible, keyOf, now);
      var t := tickets[|tickets| - 1].profile;
      if !before.1 || t.player in eligible then before
      else
        var r := Cancel(before.0, t.id, t.player, keyOf(t.id), now);
        (r.0, r.1 != Err(TicketForbidden))
  }

  lemma {:induction false} PurgeStops(s: Store, tickets: seq<T.Ticket>, n: nat, m: nat, eligible: set<Id>,
                                      keyOf: Id -> Id, now: Time)
    requires n <= m <= |tickets| && !Purged(s, tickets[..n], eligible, keyOf, now).1
    ensures Purged(s, tickets[..m], eligible, keyOf, now) == Purged(s, tickets[..n], eligible, keyOf, now)
  {
    if n < m {
      PurgeStops(s, tickets, n, m - 1, eligible, keyOf, now);
      assert tickets[..m][..m - 1] == tickets[..m - 1];
    }
  }

  // The player has used the ticket's key for another ticket of his.
  predicate Taken(s: Store, t: T.Profile, keyOf: Id -> Id) {
    var key := ScopedKey(t.player, keyOf(t.id));
    key in s.cancelKeys && s.cancelKeys[key] != t.id
  }

  ghost predicate Injective(keyOf: Id -> Id) {
    forall a, b :: keyOf(a) == keyOf(b) ==> a == b
  }

  // What a run of the filter may have added to the cancellation keys.
  ghost predicate KeysGrown(s: Store, s': Store, tickets: seq<T.Ticket>, keyOf: Id -> Id) {
    && (forall k :: k in s.cancelKeys ==> k in s'.cancelKeys && s'.cancelKeys[k] == s.cancelKeys[k])
    && (forall k :: k in s'.cancelKeys && k !in s.cancelKeys ==>
          exists i :: 0 <= i < |tickets| && k == ScopedKey(tickets[i].profile.player, keyOf(tickets[i].profile.id))
                      && s'.cancelKeys[k] == tickets[i].profile.id)
  }

  ghost predicate NotWaiting(s: Store, id: Id) {
    id in s.tickets && s.tickets[id].state != T.Queued
  }

  // No ineligible player of the list has a ticket of it in the queue.
  ghost predicate Expelled(s: Store, tickets: seq<T.Ticket>, eligible: set<Id>) {
    forall i :: 0 <= i < |tickets| && tickets[i].profile.player !in eligible ==> NotWaiting(s, tickets[i].profile.id)
  }

  // One cancellation of a stored ticket by the system.
  lemma OneCancelled(s: Store, t: T.Profile, keyOf: Id -> Id, now: Time)
    requires Inv(s) && t.id in s.tickets && s.tickets[t.id].profile == t
    ensures var r := Cancel(s, t.id, t.player, keyOf(t.id), now);
            && (r.1 != Err(TicketForbidden) <==> !Taken(s, t, keyOf))
            && (r.1 != Err(TicketForbidden) ==> NotWaiting(r.0, t.id))
            && (forall id :: NotWaiting(s, id) ==> NotWaiting(r.0, id))
            && (forall k :: k in s.cancelKeys ==> k in r.0.cancelKeys && r.0.cancelKeys[k] == s.cancelKeys[k])
            && (forall k :: k in r.0.cancelKeys && k !in s.cancelKeys ==>
                  k == ScopedKey(t.player, keyOf(t.id)) && r.0.cancelKeys[k] == t.id)
  {
    assert KeyOk(s, ScopedKey(t.player, keyOf(t.id)));
  }

  ghost predicate NoneTaken(s: Store, tickets: seq<T.Ticket>, eligible: set<Id>, keyOf: Id -> Id) {
    forall i :: 0 <= i < |tickets| && tickets[i].profile.player !in eligible ==> !Taken(s, tickets[i].profile, keyOf)
  }

  /**
    The filter gives up iff the player of some ineligible ticket has already used that ticket's key
    for another ticket of his.  Otherwise no ineligible ticket of the list waits any more.
  */
  lemma {:induction false} PurgeExactly(s: Store, tickets: seq<T.Ticket>, eligible: set<Id>, keyOf: Id -> Id, now: Time)
    requires Inv(s) && InStore(s, tickets) && Injective(keyOf)
    ensures var r := Purged(s, tickets, eligible, keyOf, now);
            && (r.1 <==> NoneTaken(s, tickets, eligible, keyOf))
            && (r.1 ==> Expelled(r.0, tickets, eligible))
            && KeysGrown(s, r.0, tickets, keyOf)
  {
    if tickets != [] {
      var n := |tickets| - 1;
      var init := tickets[..n];
      assert tickets == init + [tickets[n]];
      assert InStore(s, init) by { assert forall i :: 0 <= i < n ==> init[i] == tickets[i]; }
      PurgeExactly(s, init, eligible, keyOf, now);
      PurgeKeepsProfiles(s, init, eligible, keyOf, now);
      var before := Purged(s, init, eligible, keyOf, now);
      OneMoreTicket(s, before.0, init, tickets[n], eligible, keyOf);
      if before.1 && tickets[n].profile.player !in eligible {
        assert SameProfile(s.tickets, before.0.tickets, tickets[n].profile.id);
        OneMoreCancelled(s, before.0, init, tickets[n], eligible, keyOf, now);
      }
    }
  }

  /* What the filter does to the store */

  // A ticket of the list whose player is not eligible.
  ghost predicate Ousted(tickets: seq<T.Ticket>, eligible: set<Id>, id: Id) {
    exists t :: t in tickets && t.profile.id == id && t.profile.player !in eligible
  }

  // The ticket as the filter leaves it.
  function Withdrawn(t: T.Ticket, now: Time): T.Ticket {
    if t.state == T.Queued then
      t.(state := T.Cancelled, reservation := NO_ID, expiresAt := ZERO_TIME, updatedAt := now)
    else t
  }

  // Only tickets, the players' index and the keys change, and the pools lose what is cancelled.
  ghost predicate Withdraws(s: Store, s': Store, tickets: seq<T.Ticket>, eligible: set<Id>, now: Time) {
    && s' == s.(tickets := s'.tickets, active := s'.active, cancelKeys := s'.cancelKeys, pools := s'.pools)
    && s'.tickets.Keys == s.tickets.Keys
    && forall id :: id in s.tickets ==>
         s'.tickets[id] == if Ousted(tickets, eligible, id) then Withdrawn(s.tickets[id], now) else s.tickets[id]
  }

  lemma CancelWithdraws(s: Store, t: T.Profile, key: Id, now: Time)
    requires Inv(s) && t.id in s.tickets && s.tickets[t.id].profile == t
    requires Cancel(s, t.id, t.player, key, now).1 != Err(TicketForbidden)
    ensures var s' := Cancel(s, t.id, t.player, key, now).0;
            && s' == s.(tickets := s'.tickets, active := s'.active, cancelKeys := s'.cancelKeys, pools := s'.pools)
            && s'.tickets == s.tickets[t.id := Withdrawn(s.tickets[t.id], now)]
  {
    assert TicketOk(s, t.id) && KeyOk(s, ScopedKey(t.player, key));
    Effects.CancelExactly(s, t.id, t.player, key, now);
  }

  /** The filter, if it does not give up, cancels every ousted ticket that waits; all others stay as they are. */
  lemma {:induction false} PurgeWithdraws(s: Store, tickets: seq<T.Ticket>, eligible: set<Id>, keyOf: Id -> Id,
                                          now: Time)
    requires Inv(s) && InStore(s, tickets) && Purged(s, tickets, eligible, keyOf, now).1
    ensures Withdraws(s, Purged(s, tickets, eligible, keyOf, now).0, tickets, eligible, now)
  {
    if tickets != [] {
      var n := |tickets| - 1;
      var init, t := tickets[..n], tickets[n];
      assert InStore(s, init) by { assert forall i :: 0 <= i < n ==> init[i] == tickets[i]; }
      PurgeWithdraws(s, init, eligible, keyOf, now);
      PurgeKeepsProfiles(s, init, eligible, keyOf, now);
      var before := Purged(s, init, eligible, keyOf, now).0;
      assert SameProfile(s.tickets, before.tickets, t.profile.id);
      if t.profile.player !in eligible {
        CancelWithdraws(before, t.profile, keyOf(t.profile.id), now);
      }
      OneMoreOusted(tickets, eligible);
      WithdrawnOnce(s, before, Purged(s, tickets, eligible, keyOf, now).0, tickets, eligible, now);
    }
  }

  lemma OneMoreOusted(tickets: seq<T.Ticket>, eligible: set<Id>)
    requires tickets != []
    ensures var init, t := tickets[..|tickets| - 1], tickets[|tickets| - 1].profile;
            forall id :: Ousted(tickets, eligible, id) <==>
                         Ousted(init, eligible, id) || (id == t.id && t.player !in eligible)
  {
    var n := |tickets| - 1;
    assert tickets == tickets[..n] + [tickets[n]];
    assert tickets[n] in tickets;
  }

  lemma WithdrawnOnce(s: Store, before: Store, s': Store, tickets: seq<T.Ticket>, eligible: set<Id>, now: Time)
    requires tickets != [] && Withdraws(s, before, tickets[..|tickets| - 1], eligible, now)
    requires var t := tickets[|tickets| - 1].profile;
             && t.id in before.tickets
             && s' == before.(tickets := s'.tickets, active := s'.active, cancelKeys := s'.cancelKeys,
                              pools := s'.pools)
             && s'.tickets == if t.player in eligible then before.tickets
                              else before.tickets[t.id := Withdrawn(before.tickets[t.id], now)]
    requires var init, t := tickets[..|tickets| - 1], tickets[|tickets| - 1].profile;
             forall id :: Ousted(tickets, eligible, id) <==>
                          Ousted(init, eligible, id) || (id == t.id && t.player !in eligible)
    ensures Withdraws(s, s', tickets, eligible, now)
  {
  }

  lemma OneMoreTicket(s: Store, before: Store, init: seq<T.Ticket>, t: T.Ticket, eligible: set<Id>, keyOf: Id -> Id)
    requires KeysGrown(s, before, init, keyOf)
    ensures KeysGrown(s, before, init + [t], keyOf)
    ensures !NoneTaken(s, init, eligible, keyOf) ==> !NoneTaken(s, init + [t], eligible, keyOf)
    ensures t.profile.player in eligible && NoneTaken(s, init, eligible, keyOf) ==>
              NoneTaken(s, init + [t], eligible, keyOf)
    ensures t.profile.player in eligible && Expelled(before, init, eligible) ==> Expelled(before, init + [t], eligible)
  {
    var all := init + [t];
    assert forall i :: 0 <= i < |init| ==> all[i] == init[i];
  }

  lemma OneMoreCancelled(s: Store, before: Store, init: seq<T.Ticket>, t: T.Ticket, eligible: set<Id>, keyOf: Id -> Id,
                         now: Time)
    requires Inv(before) && Injective(keyOf) && t.profile.player !in eligible
    requires KeysGrown(s, before, init, keyOf) && NoneTaken(s, init, eligible, keyOf)
             && Expelled(before, init, eligible)
    requires t.profile.id in before.tickets && before.tickets[t.profile.id].profile == t.profile
    ensures var r := Cancel(before, t.profile.id, t.profile.player, keyOf(t.profile.id), now);
            && (r.1 != Err(TicketForbidden) <==> NoneTaken(s, init + [t], eligible, keyOf))
            && (r.1 != Err(TicketForbidden) ==> Expelled(r.0, init + [t], eligible))
            && KeysGrown(s, r.0, init + [t], keyOf)
  {
    var all := init + [t];
    assert forall i :: 0 <= i < |init| ==> all[i] == init[i];
    assert all[|init|] == t;
    OneCancelled(before, t.profile, keyOf, now);
    SameTaken(s, before, init, t.profile, keyOf);
  }

  lemma {:induction false} PurgeKeepsProfiles(s: Store, tickets: seq<T.Ticket>, eligible: set<Id>, keyOf: Id -> Id,
                                              now: Time)
    requires Inv(s)
    ensures var s' := Purged(s, tickets, eligible, keyOf, now).0;
            Inv(s') && forall id :: id in s.tickets ==> SameProfile(s.tickets, s'.tickets, id)
  {
    if tickets != [] {
      var init, t := tickets[..|tickets| - 1], tickets[|tickets| - 1].profile;
      PurgeKeepsProfiles(s, init, eligible, keyOf, now);
      var before := Purged(s, init, eligible, keyOf, now).0;
      CancelKeepsInv(before, t.id, t.player, keyOf(t.id), now);
      CancelIsSteady(before, t.id, t.player, keyOf(t.id), now);
    }
  }

  lemma SameTaken(s: Store, s': Store, tickets: seq<T.Ticket>, t: T.Profile, keyOf: Id -> Id)
    requires Injective(keyOf) && KeysGrown(s, s', tickets, keyOf)
    ensures Taken(s', t, keyOf) <==> Taken(s, t, keyOf)
  {
  }

  /* A run to a store in which a key is taken */

  const POOL := T.PoolKey(1, 1, 1)

  // Ticket id of player 1, as it is queued.
  function TicketOf(id: Id): T.Ticket {
    T.Ticket(T.Profile(id, 1, NO_ID, POOL, 1000.0, [T.Core], map[1 := 50], id), T.Queued, id, NO_ID, ZERO_TIME, NO_ID)
  }

  lemma TicketIsAcceptable(id: Id)
    requires id != NO_ID
    ensures TicketOf(id).profile.Acceptable() && TicketOf(id).Restorable()
  {
    assert 1 in TicketOf(id).profile.latency;
  }

  // Player 1 queues, cancels, queues again, and cancels his first ticket once more: under the key
  // that the worker keeps for the second.
  function KeyTaken(keyOf: Id -> Id, created: Id, createdAgain: Id, cancelled: Id): Store {
    var first := Cancel(CreateQueued(EMPTY, TicketOf(1), created).0, 1, 1, cancelled, 1).0;
    Cancel(CreateQueued(first, TicketOf(2), createdAgain).0, 1, 1, keyOf(2), 2).0
  }

  lemma AfterFirst(created: Id, cancelled: Id)
    ensures var s := Cancel(CreateQueued(EMPTY, TicketOf(1), created).0, 1, 1, cancelled, 1).0;
            && Inv(s) && s.tickets == map[1 := TicketOf(1).(state := T.Cancelled)] && s.active == map[]
            && s.createKeys == map[ScopedKey(1, created) := 1] && s.cancelKeys == map[ScopedKey(1, cancelled) := 1]
  {
    EmptyInv();
    var s := CreateQueued(EMPTY, TicketOf(1), created).0;
    CreateKeepsInv(EMPTY, TicketOf(1), created);
    CancelKeepsInv(s, 1, 1, cancelled, 1);
  }

  lemma AfterSecond(s: Store, keyOf: Id -> Id, created: Id, createdAgain: Id, cancelled: Id)
    requires Inv(s) && s.tickets == map[1 := TicketOf(1).(state := T.Cancelled)] && s.active == map[]
    requires s.createKeys == map[ScopedKey(1, created) := 1] && s.cancelKeys == map[ScopedKey(1, cancelled) := 1]
    requires createdAgain != created && keyOf(2) != cancelled
    ensures var s' := Cancel(CreateQueued(s, TicketOf(2), createdAgain).0, 1, 1, keyOf(2), 2).0;
            && Inv(s') && 2 in s'.tickets && s'.tickets[2] == TicketOf(2) && Taken(s', TicketOf(2).profile, keyOf)
  {
    CreateKeepsInv(s, TicketOf(2), createdAgain);
    CancelKeepsInv(CreateQueued(s, TicketOf(2), createdAgain).0, 1, 1, keyOf(2), 2);
  }

  /**
    In that store the second ticket waits, and the filter gives up on every list with it if the player is not
    eligible.
  */
  lemma KeyTakenRun(keyOf: Id -> Id, created: Id, createdAgain: Id, cancelled: Id, tickets: seq<T.Ticket>,
                    eligible: set<Id>, now: Time)
    requires createdAgain != created && keyOf(2) != cancelled && Injective(keyOf)
    ensures var s := KeyTaken(keyOf, created, createdAgain, cancelled);
            && Inv(s) && 2 in s.tickets && s.tickets[2] == TicketOf(2)
            && (InStore(s, tickets) && TicketOf(2) in tickets && 1 !in eligible ==>
                  !Purged(s, tickets, eligible, keyOf, now).1)
  {
    var s := KeyTaken(keyOf, created, createdAgain, cancelled);
    AfterFirst(created, cancelled);
    AfterSecond(Cancel(CreateQueued(EMPTY, TicketOf(1), created).0, 1, 1, cancelled, 1).0,
                keyOf, created, createdAgain, cancelled);
    if InStore(s, tickets) && TicketOf(2) in tickets && 1 !in eligible {
      PurgeExactly(s, tickets, eligible, keyOf, now);
    }
  }
}
