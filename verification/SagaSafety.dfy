/**
  Safety of the matchmaking saga: in every state of every interleaving.
*/
module SagaSafety {
  import opened Prelude
  import Tickets
  import opened TicketStoreSpec
  import opened StoreStability
  import opened Matches
  import opened MatchStores
  import opened Allocators
  import opened Saga
  import opened SagaInvariant

  /* The callers' steps */

  // A step of caller c about match m.
  lemma CallerStep(s: System, s': System, c: nat, m: Id)
    requires Safe(s)
    requires s' == s.(store := s'.store, matches := s'.matches, slots := s'.slots, calls := s'.calls,
                      history := s'.history, finisher := s'.finisher)
    requires c in s'.calls && s'.calls == s.calls[c := s'.calls[c]]
    requires c in s.calls && (s.calls[c].Freeing? || s.calls[c].Releasing?) ==> s.calls[c].copy.id == m
    requires forall k :: k != m ==> SameEntry(s, s', k)
    requires forall k :: k != m ==>
               (k in s.finisher <==> k in s'.finisher)
               && (k in s.finisher ==> s'.finisher[k] == s.finisher[k])
    requires Inv(s'.store) && Steady(s.store, s'.store, NO_ID, m)
    requires EntryOk(s', m) && Grows(s, s', m) && SlotOwned(s', m) && CallOk(s', c)
    requires forall r {:trigger WithinCapacity(s'.slots, s'.capacities, r)} ::
             WithinCapacity(s'.slots, s'.capacities, r)
    ensures Safe(s')
  {
    forall k ensures EntryOk(s', k) && Grows(s, s', k) {
      if k != m {
        assert EntryOk(s, k) && SameEntry(s, s', k);
        KeepEntry(s, s', k, NO_ID, m);
      }
    }
    forall k ensures SlotOwned(s', k) {
      if k != m {
        OthersSlot(s, s', c, m, k);
      }
    }
    forall d ensures CallOk(s', d) {
      assert CallOk(s, d);
      if d != c && d in s.calls {
        KeepCall(s, s', d);
      }
    }
    KeepApart(s, s');
  }

  lemma OthersSlot(s: System, s': System, c: nat, m: Id, k: Id)
    requires Safe(s) && k != m && SameEntry(s, s', k)
    requires c in s'.calls && s'.calls == s.calls[c := s'.calls[c]]
    requires c in s.calls && (s.calls[c].Freeing? || s.calls[c].Releasing?) ==> s.calls[c].copy.id == m
    requires (k in s.finisher <==> k in s'.finisher) && (k in s.finisher ==> s'.finisher[k] == s.finisher[k])
    ensures SlotOwned(s', k)
  {
    assert SlotOwned(s, k) && EntryOk(s, k);
  }

  // A caller that only changes its own mind.
  lemma Answering(s: System, c: nat, call: Call)
    requires Safe(s) && CallOk(s.Answer(c, call), c)
    requires c in s.calls ==> !s.calls[c].Freeing? && !s.calls[c].Releasing?
    ensures Safe(s.Answer(c, call))
  {
    var s' := s.Answer(c, call);
    assert EntryOk(s, NO_ID);
    assert SlotOwned(s, NO_ID);
    KeepEntry(s, s', NO_ID, NO_ID, NO_ID);
    CallerStep(s, s', c, NO_ID);
  }

  lemma ReadVersion(s: System, m: Id)
    requires Safe(s) && m in s.matches
    ensures s.matches[m].id == m && m in s.history && s.matches[m] in s.history[m]
    ensures s.matches[m].revision == |s.history[m]| && s.history[m][s.matches[m].revision - 1] == s.matches[m]
    ensures 1 <= s.matches[m].revision
  {
    assert EntryOk(s, m);
  }

  lemma ProposesNext(s: System, m: Id, copy: Match)
    requires Safe(s) && m in s.matches && Follows(s.matches[m], copy)
    ensures Proposes(s, copy)
  {
    ReadVersion(s, m);
  }

  lemma CallingStartIsSafe(s: System, c: nat, m: Id, now: Time)
    requires Safe(s) && c !in s.calls
    ensures Safe(s.Answer(c, StartCall(s.matches, m, now)))
  {
    if m !in s.matches {
      Answering(s, c, Refused);
    } else if s.matches[m].state == Running {
      ReadVersion(s, m);
      Answering(s, c, Started(s.matches[m]));
    } else {
      match s.matches[m].Start(now)
      case Err(_) => Answering(s, c, Refused);
      case Ok(copy) =>
        ProposesNext(s, m, copy);
        Answering(s, c, StartUpdate(copy));
    }
  }

  lemma CallingCompleteIsSafe(s: System, c: nat, m: Id, outcome: MatchResult, now: Time)
    requires Safe(s) && c !in s.calls
    ensures Safe(s.Answer(c, CompleteCall(s.matches, m, outcome, now)))
  {
    if m !in s.matches {
      Answering(s, c, Refused);
    } else if s.matches[m].state == Finished {
      ReadVersion(s, m);
      Answering(s, c, Freeing(s.matches[m]));
    } else {
      match s.matches[m].Complete(outcome, now)
      case Err(_) => Answering(s, c, Refused);
      case Ok(copy) =>
        ProposesNext(s, m, copy);
        Answering(s, c, CompleteUpdate(copy));
    }
  }

  // Passing the revision check means following the stored version.
  lemma CheckedVersion(s: System, copy: Match)
    requires Safe(s) && Proposes(s, copy) && Updating(s.matches, copy).1.Ok?
    ensures Follows(s.matches[copy.id], copy) && EntryOk(s, copy.id) && HistoryOk(s.Stored(copy), copy.id)
    ensures s.history[copy.id] <= s.Stored(copy).history[copy.id]
  {
    ReadVersion(s, copy.id);
    assert s.history[copy.id][copy.revision - 2] == s.matches[copy.id];
    assert EntryOk(s, copy.id);
    NextVersion(s, copy.id, copy);
  }

  // A caller's accepted update: one more version of one match, and the caller goes on.
  ghost predicate StoresVersion(s: System, s': System, c: nat, copy: Match, call: Call) {
    && s' == s.(matches := s.matches[copy.id := copy], history := s'.history, calls := s.calls[c := call],
                finisher := s'.finisher)
    && (forall k :: k != copy.id ==> SameEntry(s, s', k))
    && (forall k :: k != copy.id ==>
          (k in s.finisher <==> k in s'.finisher) && (k in s.finisher ==> s'.finisher[k] == s.finisher[k]))
  }

  lemma StartStores(s: System, c: nat, copy: Match)
    ensures StoresVersion(s, s.Stored(copy).Answer(c, Started(copy)), c, copy, Started(copy))
  {
  }

  lemma CompletionStores(s: System, c: nat, copy: Match)
    ensures var s' := s.Stored(copy).Answer(c, Freeing(copy)).(finisher := s.finisher[copy.id := c]);
            StoresVersion(s, s', c, copy, Freeing(copy))
  {
  }

  // The match itself, before and after.
  lemma VersionEntry(s: System, s': System, c: nat, copy: Match, call: Call)
    requires StoresVersion(s, s', c, copy, call) && EntryOk(s, copy.id) && HistoryOk(s', copy.id)
    requires copy.id in s.matches && Follows(s.matches[copy.id], copy) && copy.state in {Running, Finished}
    requires copy.id in s'.history && s.history[copy.id] <= s'.history[copy.id]
    ensures EntryOk(s', copy.id) && Grows(s, s', copy.id)
  {
  }

  lemma StoringIsSafe(s: System, s': System, c: nat, copy: Match, call: Call)
    requires Safe(s) && c in s.calls && !s.calls[c].Freeing? && !s.calls[c].Releasing?
    requires StoresVersion(s, s', c, copy, call)
    requires EntryOk(s', copy.id) && Grows(s, s', copy.id) && SlotOwned(s', copy.id) && CallOk(s', c)
    ensures Safe(s')
  {
    forall r ensures WithinCapacity(s'.slots, s'.capacities, r) {
      assert WithinCapacity(s.slots, s.capacities, r);
    }
    CallerStep(s, s', c, copy.id);
  }

  lemma StartingIsStored(s: System, c: nat)
    requires Safe(s) && c in s.calls && s.calls[c].StartUpdate? && Updating(s.matches, s.calls[c].copy).1.Ok?
    ensures Safe(s.Stored(s.calls[c].copy).Answer(c, Started(s.calls[c].copy)))
  {
    var copy := s.calls[c].copy;
    var s' := s.Stored(copy).Answer(c, Started(copy));
    assert CallOk(s, c);
    CheckedVersion(s, copy);
    StartStores(s, c, copy);
    StartEntry(s, s', c, copy);
    StoringIsSafe(s, s', c, copy, Started(copy));
  }

  lemma StartEntry(s: System, s': System, c: nat, copy: Match)
    requires s' == s.Stored(copy).Answer(c, Started(copy)) && StoresVersion(s, s', c, copy, Started(copy))
    requires EntryOk(s, copy.id) && HistoryOk(s.Stored(copy), copy.id) && copy.state == Running
    requires copy.id in s.matches && Follows(s.matches[copy.id], copy)
    requires s.history[copy.id] <= s.Stored(copy).history[copy.id]
    ensures EntryOk(s', copy.id) && Grows(s, s', copy.id) && SlotOwned(s', copy.id) && CallOk(s', c)
  {
    VersionEntry(s, s', c, copy, Started(copy));
    assert s'.history[copy.id][|s.history[copy.id]|] == copy;
  }

  lemma CompletionIsStored(s: System, c: nat)
    requires Safe(s) && c in s.calls && s.calls[c].CompleteUpdate? && Updating(s.matches, s.calls[c].copy).1.Ok?
    ensures var copy := s.calls[c].copy;
            Safe(s.Stored(copy).Answer(c, Freeing(copy)).(finisher := s.finisher[copy.id := c]))
  {
    var copy := s.calls[c].copy;
    var s' := s.Stored(copy).Answer(c, Freeing(copy)).(finisher := s.finisher[copy.id := c]);
    assert CallOk(s, c);
    CheckedVersion(s, copy);
    CompletionStores(s, c, copy);
    CompletionEntry(s, s', c, copy);
    StoringIsSafe(s, s', c, copy, Freeing(copy));
  }

  lemma CompletionEntry(s: System, s': System, c: nat, copy: Match)
    requires s' == s.Stored(copy).Answer(c, Freeing(copy)).(finisher := s.finisher[copy.id := c])
    requires StoresVersion(s, s', c, copy, Freeing(copy))
    requires EntryOk(s, copy.id) && HistoryOk(s.Stored(copy), copy.id) && copy.state == Finished
    requires copy.id in s.matches && Follows(s.matches[copy.id], copy)
    requires s.history[copy.id] <= s.Stored(copy).history[copy.id]
    ensures EntryOk(s', copy.id) && Grows(s, s', copy.id) && SlotOwned(s', copy.id) && CallOk(s', c)
  {
    VersionEntry(s, s', c, copy, Freeing(copy));
  }

  // The players of a finished match have been freed.
  lemma FreedEntry(s: System, s': System, m: Id)
    requires EntryOk(s, m) && SameEntry(s, s', m) && m in s.matches && s.matches[m].state == Finished
    requires Steady(s.store, s'.store, NO_ID, m)
    ensures EntryOk(s', m)
  {
    if m in s.attempts {
      KnownStays(s.store, s'.store, s.attempts[m].plan, NO_ID, m);
    }
  }

  lemma FreedIsSafe(s: System, c: nat, store: Store)
    requires Safe(s) && c in s.calls && s.calls[c].Freeing?
    requires var m := s.calls[c].copy.id; Inv(store) && Steady(s.store, store, NO_ID, m) && Freed(store, m)
    ensures Safe(s.(store := store).Answer(c, Releasing(s.calls[c].copy)))
  {
    var copy := s.calls[c].copy;
    var s' := s.(store := store).Answer(c, Releasing(copy));
    assert CallOk(s, c) && EntryOk(s, copy.id) && SlotOwned(s, copy.id);
    FreedEntry(s, s', copy.id);
    CallerStep(s, s', c, copy.id);
  }

  lemma FreeingIsSafe(s: System, c: nat)
    requires Safe(s) && c in s.calls && s.calls[c].Freeing?
    ensures Safe(Proceeding(s, c))
  {
    var copy := s.calls[c].copy;
    assert CallOk(s, c) && EntryOk(s, copy.id);
    CompleteIsSteady(s.store, copy.id);
    CompleteKeepsInv(s.store, copy.id);
    FreedIsSafe(s, c, CompleteAssignedTickets(s.store, copy.id).0);
  }

  lemma ReleasingSlotIsSafe(s: System, c: nat)
    requires Safe(s) && c in s.calls && s.calls[c].Releasing?
    ensures Safe(Proceeding(s, c))
  {
    var copy := s.calls[c].copy;
    assert CallOk(s, c) && EntryOk(s, copy.id);
    forall region ensures WithinCapacity(s.slots - {copy.id}, s.capacities, region) {
      ReleaseWithin(s.slots, s.capacities, copy.id, region);
    }
    var s' := s.(slots := s.slots - {copy.id}).Answer(c, Completed(copy));
    ReleasedEntry(s, s', c, copy);
    CallerStep(s, s', c, copy.id);
  }

  lemma ReleasedEntry(s: System, s': System, c: nat, copy: Match)
    requires s' == s.(slots := s.slots - {copy.id}).Answer(c, Completed(copy)) && EntryOk(s, copy.id)
    requires FinishedAs(s, copy) && Freed(s.store, copy.id)
    ensures EntryOk(s', copy.id) && Grows(s, s', copy.id) && SlotOwned(s', copy.id) && CallOk(s', c)
    ensures forall k :: k != copy.id ==> SameEntry(s, s', k)
  {
  }

  lemma LookingAgainIsSafe(s: System, c: nat)
    requires Safe(s) && c in s.calls && (s.calls[c].StartAgain? || s.calls[c].CompleteAgain?)
    ensures Safe(Proceeding(s, c))
  {
    var m := s.calls[c].id;
    var wanted := if s.calls[c].StartAgain? then Running else Finished;
    if m in s.matches && s.matches[m].state == wanted {
      ReadVersion(s, m);
      Answering(s, c, if s.calls[c].StartAgain? then Started(s.matches[m]) else Freeing(s.matches[m]));
    } else {
      Answering(s, c, Refused);
    }
  }

  lemma UpdatingIsSafe(s: System, c: nat)
    requires Safe(s) && c in s.calls && (s.calls[c].StartUpdate? || s.calls[c].CompleteUpdate?)
    ensures Safe(Proceeding(s, c))
  {
    var call := s.calls[c];
    if Updating(s.matches, call.copy).1.Err? {
      Answering(s, c, Proceeding(s, c).calls[c]);
    } else if call.StartUpdate? {
      StartingIsStored(s, c);
    } else {
      CompletionIsStored(s, c);
    }
  }

  lemma ProceedingIsSafe(s: System, c: nat)
    requires Safe(s) && c in s.calls
    ensures Safe(Proceeding(s, c))
  {
    var call := s.calls[c];
    if call.StartUpdate? || call.CompleteUpdate? {
      UpdatingIsSafe(s, c);
    } else if call.StartAgain? || call.CompleteAgain? {
      LookingAgainIsSafe(s, c);
    } else if call.Freeing? {
      FreeingIsSafe(s, c);
    } else if call.Releasing? {
      ReleasingSlotIsSafe(s, c);
    } else {
      assert Proceeding(s, c) == s;
    }
  }

  /* Every step */

  lemma BeginningIsSafe(s: System, m: Id, plan: Plan)
    requires Safe(s) && CanBegin(s, m, plan)
    ensures Safe(s.(attempts := s.attempts[m := Attempt(plan, ToReserve)]))
  {
    var s' := s.(attempts := s.attempts[m := Attempt(plan, ToReserve)]);
    assert EntryOk(s, m);
    forall k ensures EntryOk(s', k) && Grows(s, s', k) {
      assert EntryOk(s, k);
      if k != m {
        KeepEntry(s, s', k, NO_ID, NO_ID);
      }
    }
    Others(s, s');
    forall a, b ensures Apart(s', a, b) { assert Apart(s, a, b); }
  }

  lemma StoreEventIsSafe(s: System, e: Event)
    requires Safe(s) && (e.CreateTicket? || e.CancelTicket? || e.Recover?)
    ensures Safe(Next(s, e))
  {
    match e
    case CreateTicket(t, key) =>
      if t.Restorable() {
        CreateKeepsInv(s.store, t, key);
        CreateIsSteady(s.store, t, key);
        StoreStep(s, CreateQueued(s.store, t, key).0);
      }
    case CancelTicket(id, player, key, now) =>
      CancelKeepsInv(s.store, id, player, key, now);
      CancelIsSteady(s.store, id, player, key, now);
      StoreStep(s, TicketStoreSpec.Cancel(s.store, id, player, key, now).0);
    case Recover(now) =>
      RecoverKeepsInv(s.store, now);
      RecoverIsSteady(s.store, now);
      StoreStep(s, RecoverExpired(s.store, now));
  }

  /** Every step of every worker, caller or player keeps the invariant. */
  lemma NextIsSafe(s: System, e: Event)
    requires Safe(s)
    ensures Safe(Next(s, e))
  {
    match e
    case CreateTicket(_, _) => StoreEventIsSafe(s, e);
    case CancelTicket(_, _, _, _) => StoreEventIsSafe(s, e);
    case Recover(_) => StoreEventIsSafe(s, e);
    case Begin(m, plan) =>
      if CanBegin(s, m, plan) {
        BeginningIsSafe(s, m, plan);
      }
    case Advance(m, token) =>
      if m in s.attempts {
        WorkIsSafe(s, m, token);
      }
    case CallStart(c, m, now) =>
      if c !in s.calls {
        CallingStartIsSafe(s, c, m, now);
      }
    case CallComplete(c, m, outcome, now) =>
      if c !in s.calls {
        CallingCompleteIsSafe(s, c, m, outcome, now);
      }
    case Proceed(c) =>
      if c in s.calls {
        ProceedingIsSafe(s, c);
      }
  }

  ghost predicate Capacities(capacities: map<Id, int>) {
    forall r :: r in capacities ==> capacities[r] >= 0
  }

  lemma InitialIsSafe(capacities: map<Id, int>)
    requires Capacities(capacities)
    ensures Safe(Initial(capacities))
  {
    EmptyInv();
    forall r ensures WithinCapacity(map[], capacities, r) {
      assert SlotsIn(map[], r) == {};
    }
  }

  /** Every state of every run is safe. */
  lemma {:induction false} RunIsSafe(capacities: map<Id, int>, events: seq<Event>)
    requires Capacities(capacities)
    ensures Safe(Run(Initial(capacities), events))
  {
    if events == [] {
      InitialIsSafe(capacities);
    } else {
      RunIsSafe(capacities, events[..|events| - 1]);
      NextIsSafe(Run(Initial(capacities), events[..|events| - 1]), events[|events| - 1]);
    }
  }

  ghost predicate Reachable(s: System) {
    exists capacities, events {:trigger Run(Initial(capacities), events)} ::
      Capacities(capacities) && s == Run(Initial(capacities), events)
  }

  lemma ReachableIsSafe(s: System)
    requires Reachable(s)
    ensures Safe(s)
  {
    var capacities, events :| Capacities(capacities) && s == Run(Initial(capacities), events);
    RunIsSafe(capacities, events);
  }

  /* What it means */

  // The player holds the ticket, the ticket is assigned to the match, and it is the player's active one.
  ghost predicate Plays(s: Store, p: MatchPlayer, m: Id) {
    && p.ticket in s.tickets && AssignedTo(s.tickets[p.ticket], m) && s.tickets[p.ticket].profile.player == p.player
    && p.player in s.active && s.active[p.player] == p.ticket
  }

  ghost predicate IsLive(s: System, m: Id) {
    m in s.matches && s.matches[m].state in {Ready, Running}
  }

  /**
    A match that is ready or running has a server in its region, whose address and token it carries,
    and ten players, each on a ticket that is assigned to it and active.
  */
  lemma LiveMatchesAreSeated(s: System, m: Id)
    requires Reachable(s) && IsLive(s, m)
    ensures m in s.slots && s.slots[m].region == s.matches[m].region
    ensures s.matches[m].address == s.slots[m].address && s.matches[m].token == s.slots[m].token
    ensures |s.matches[m].Players()| == 10
    ensures forall i :: 0 <= i < 10 ==> Plays(s.store, s.matches[m].Players()[i], m)
  {
    ReachableIsSafe(s);
    assert EntryOk(s, m);
    var p := s.attempts[m].plan;
    assert p.Players() == s.matches[m].Players();
    forall i | 0 <= i < 10 ensures Plays(s.store, s.matches[m].Players()[i], m) {
      assert Known(s.store, p.Players()[i]) && Seated(s.store, p.Players()[i].ticket, m);
    }
  }

  /** Nobody plays in two live matches, or twice in one. */
  lemma NobodyPlaysTwice(s: System, a: Id, i: nat, b: Id, j: nat)
    requires Reachable(s) && IsLive(s, a) && IsLive(s, b) && i < |s.matches[a].Players()|
             && j < |s.matches[b].Players()|
    requires (a, i) != (b, j)
    ensures s.matches[a].Players()[i].ticket != s.matches[b].Players()[j].ticket
    ensures s.matches[a].Players()[i].player != s.matches[b].Players()[j].player
  {
    LiveMatchesAreSeated(s, a);
    LiveMatchesAreSeated(s, b);
    if a == b {
      ReachableIsSafe(s);
      assert EntryOk(s, a);
      assert ValidTeams(s.matches[a].teamA, s.matches[a].teamB);
    } else {
      assert Plays(s.store, s.matches[a].Players()[i], a) && Plays(s.store, s.matches[b].Players()[j], b);
    }
  }

  /** An attempt that gave up holds no ticket and no server, and its match, if it was stored at all, has failed. */
  lemma GivingUpLeavesNothing(s: System, m: Id)
    requires Reachable(s) && m in s.attempts && s.attempts[m].phase.GivenUp?
    ensures forall id :: !Held(s.store, id, s.attempts[m].plan.reservation)
    ensures m !in s.slots
    ensures m in s.matches ==> s.matches[m].state == MatchState.Failed
  {
    ReachableIsSafe(s);
    assert EntryOk(s, m);
    forall id ensures !Held(s.store, id, s.attempts[m].plan.reservation) { assert TicketOk(s.store, id); }
  }

  /**
    Each call of its own brings a worker closer to its end, and nobody else moves its attempt:
    after at most ten calls it has succeeded or given up.
  */
  lemma WorkersGetOn(s: System, e: Event, m: Id)
    requires m in s.attempts
    ensures m in Next(s, e).attempts && Next(s, e).attempts[m].plan == s.attempts[m].plan
    ensures e.Advance? && e.m == m && Remaining(s.attempts[m].phase) > 0 ==>
              Remaining(Next(s, e).attempts[m].phase) < Remaining(s.attempts[m].phase)
    ensures !(e.Advance? && e.m == m) ==> Next(s, e).attempts[m] == s.attempts[m]
  {
    match e
    case Advance(k, token) => assert k in s.attempts ==> Work(s, k, token) == s || GetsOn(s, Work(s, k, token), k);
    case _ =>
  }

  /** The end of an attempt is success or a complete compensation: the one update without compensation never fails. */
  lemma AttemptsEndWell(s: System, m: Id)
    requires Reachable(s) && m in s.attempts && Remaining(s.attempts[m].phase) == 0
    ensures s.attempts[m].phase.Succeeded? || s.attempts[m].phase.GivenUp?
  {
    ReachableIsSafe(s);
    assert EntryOk(s, m);
  }

  /** Every slot in use serves a match that needs it, or that its finisher is about to release. */
  lemma SlotsAreNeeded(s: System, m: Id)
    requires Reachable(s) && m in s.slots
    ensures m in s.matches && s.matches[m].state in {MatchState.Allocating, Ready, Running, Finished}
    ensures s.matches[m].state == Finished ==>
              m in s.finisher && s.finisher[m] in s.calls
              && s.calls[s.finisher[m]] in {Freeing(s.matches[m]), Releasing(s.matches[m])}
  {
    ReachableIsSafe(s);
    assert EntryOk(s, m) && SlotOwned(s, m);
  }

  /** No region ever has more slots in use than it has. */
  lemma CapacityIsKept(s: System, region: Id)
    requires Reachable(s)
    ensures |SlotsIn(s.slots, region)| <= CapacityOf(s.capacities, region)
  {
    ReachableIsSafe(s);
    assert WithinCapacity(s.slots, s.capacities, region);
  }

  /** The versions of a match are one legal transition apart, and numbered from one. */
  lemma VersionsFormAChain(s: System, m: Id)
    requires Reachable(s) && m in s.matches
    ensures m in s.history && s.history[m] != [] && s.history[m][|s.history[m]| - 1] == s.matches[m]
    ensures s.history[m][0].state == MatchState.Created
    ensures forall i :: 0 <= i < |s.history[m]| ==> s.history[m][i].revision == i + 1
    ensures forall i {:trigger s.history[m][i]} :: 0 < i < |s.history[m]| ==>
              Follows(s.history[m][i - 1], s.history[m][i])
  {
    ReachableIsSafe(s);
    assert EntryOk(s, m);
  }

  lemma NextKeepsVersions(s: System, e: Event)
    ensures VersionsKept(s, Next(s, e))
  {
    match e
    case Advance(k, token) => assert k in s.attempts ==> Work(s, k, token) == s || GetsOn(s, Work(s, k, token), k);
    case _ =>
  }

  lemma {:induction false} RunKeepsVersions(s: System, events: seq<Event>, m: Id)
    requires m in s.history
    ensures m in Run(s, events).history && s.history[m] <= Run(s, events).history[m]
  {
    if events != [] {
      RunKeepsVersions(s, events[..|events| - 1], m);
      NextKeepsVersions(Run(s, events[..|events| - 1]), events[|events| - 1]);
    }
  }

  lemma {:induction false} RunOn(capacities: map<Id, int>, events: seq<Event>, more: seq<Event>)
    ensures Run(Run(Initial(capacities), events), more) == Run(Initial(capacities), events + more)
  {
    if more == [] {
      assert events + more == events;
    } else {
      var n := |more| - 1;
      RunOn(capacities, events, more[..n]);
      assert (events + more)[..|events + more| - 1] == events + more[..n];
    }
  }

  lemma OnlyTheLastIsFinished(h: seq<Match>, i: nat)
    requires Chain(h) && i < |h| - 1
    ensures h[i].state != Finished
  {
    assert Follows(h[i + 1 - 1], h[i + 1]);
  }

  lemma RunOnIsReachable(s: System, more: seq<Event>)
    requires Reachable(s)
    ensures Reachable(Run(s, more))
  {
    var capacities, events :| Capacities(capacities) && s == Run(Initial(capacities), events);
    RunOn(capacities, events, more);
    assert Run(s, more) == Run(Initial(capacities), events + more);
  }

  lemma NextIsReachable(s: System, e: Event)
    requires Reachable(s)
    ensures Reachable(Next(s, e))
  {
    RunOnIsReachable(s, [e]);
    assert Run(s, [e]) == Next(Run(s, []), e);
  }

  lemma StoredVersion(s: System, m: Id)
    requires Reachable(s)
    ensures m in s.matches <==> m in s.history
    ensures m in s.matches ==> Chain(s.history[m]) && s.history[m][|s.history[m]| - 1] == s.matches[m]
  {
    ReachableIsSafe(s);
    assert EntryOk(s, m);
  }

  // A history that ends with a finished match goes no further.
  lemma NothingFollows(h: seq<Match>, h': seq<Match>)
    requires h != [] && h <= h' && Chain(h') && h[|h| - 1].state == Finished
    ensures h' == h
  {
    assert h'[|h| - 1] == h[|h| - 1];
    if |h| < |h'| {
      OnlyTheLastIsFinished(h', |h| - 1);
    }
  }

  lemma FinishedStays(s: System, s': System, m: Id)
    requires Reachable(s) && Reachable(s') && m in s.matches && s.matches[m].state == Finished
    requires m in s.history && m in s'.history && s.history[m] <= s'.history[m]
    ensures m in s'.matches && s'.matches[m] == s.matches[m]
  {
    StoredVersion(s, m);
    StoredVersion(s', m);
    NothingFollows(s.history[m], s'.history[m]);
  }

  /** Once a match has finished, no later event changes it: the first result stands. */
  lemma FirstResultStands(s: System, m: Id, more: seq<Event>)
    requires Reachable(s) && m in s.matches && s.matches[m].state == Finished
    ensures m in Run(s, more).matches && Run(s, more).matches[m] == s.matches[m]
  {
    RunOnIsReachable(s, more);
    StoredVersion(s, m);
    RunKeepsVersions(s, more, m);
    FinishedStays(s, Run(s, more), m);
  }

  /** Every successful CompleteMatch of a match returns the same result; then its players and its server are free. */
  lemma CompletionsAgree(s: System, c: nat, d: nat)
    requires Reachable(s) && c in s.calls && d in s.calls && s.calls[c].Completed? && s.calls[d].Completed?
    requires s.calls[c].copy.id == s.calls[d].copy.id
    ensures s.calls[c].copy == s.calls[d].copy
    ensures var m := s.calls[c].copy.id;
            && m in s.matches && s.matches[m] == s.calls[c].copy && s.matches[m].state == Finished
               && s.matches[m].result.Some?
            && m !in s.slots && forall p :: !Busy(s.store, p, m)
  {
    ReachableIsSafe(s);
    assert CallOk(s, c) && CallOk(s, d);
    assert EntryOk(s, s.calls[c].copy.id);
    forall p ensures !Busy(s.store, p, s.calls[c].copy.id) {
      assert Freed(s.store, s.calls[c].copy.id);
    }
  }
}
