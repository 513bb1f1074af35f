/**
  What candidate generation (internal/matchmaking/engine/candidate.go:37-152) promises in terms of its
  arguments: whom it starts from, how far its windows reach, who gets in and why others do not.
*/
module CandidateWindows {
  import opened Prelude
  import opened Sorting
  import opened Tickets
  import opened Groups
  import opened Optimizer
  import opened FormationAlgorithms
  import opened CandidateGeneration

  /* The anchor */

  predicate Older(a: Ticket, b: Ticket) {
    || a.profile.createdAt < b.profile.createdAt
    || (a.profile.createdAt == b.profile.createdAt && a.profile.id < b.profile.id)
  }

  // The ticket waits, and every other waiting ticket is younger.
  ghost predicate Oldest(tickets: seq<Ticket>, anchor: Ticket) {
    && anchor in tickets && anchor.state == Queued
    && forall t :: t in tickets && t.state == Queued && t.profile.id != anchor.profile.id ==> Older(anchor, t)
  }

  lemma ProfileOf(tickets: seq<Ticket>, p: Profile) returns (t: Ticket)
    requires p in Profiles(tickets)
    ensures t in tickets && t.profile == p
  {
    var i :| 0 <= i < |tickets| && Profiles(tickets)[i] == p;
    t := tickets[i];
  }

  lemma InProfiles(tickets: seq<Ticket>, t: Ticket)
    requires t in tickets
    ensures t.profile in Profiles(tickets)
  {
    var i :| 0 <= i < |tickets| && tickets[i] == t;
    assert Profiles(tickets)[i] == t.profile;
  }

  // Different tickets have different ids, so a ticket is queued iff its id is among the queued ones.
  lemma QueuedById(tickets: seq<Ticket>, t: Ticket)
    requires DistinctIds(Profiles(tickets)) && t in tickets
    ensures t.profile.id in QueuedIds(tickets) <==> t.state == Queued
  {
    forall u | u in tickets && u.profile.id == t.profile.id ensures u == t {
      var i :| 0 <= i < |tickets| && tickets[i] == t;
      var j :| 0 <= j < |tickets| && tickets[j] == u;
      assert Profiles(tickets)[i].id == Profiles(tickets)[j].id;
    }
  }

  lemma {:induction false} OldestComesFirst(ordered: seq<Profile>, queued: set<Id>)
    requires Ascending(ByAge, ordered)
    ensures match OldestQueued(ordered, queued)
            case None => forall p :: p in ordered ==> p.id !in queued
            case Some(a) =>
              a in ordered && a.id in queued && forall p :: p in ordered && p.id in queued && p != a ==> ByAge(a, p)
  {
    if ordered != [] && ordered[0].id !in queued {
      assert ordered == [ordered[0]] + ordered[1..];
      assert Ascending(ByAge, ordered[1..]);
      OldestComesFirst(ordered[1..], queued);
    }
  }

  lemma InAgeOrder(profiles: seq<Profile>)
    requires DistinctIds(profiles)
    ensures Ascending(ByAge, StableSort(ByAge, profiles))
    ensures forall p :: p in StableSort(ByAge, profiles) <==> p in profiles
  {
    AgeIsLinear(profiles);
    forall i, j | 0 <= i < j < |profiles| ensures profiles[i] != profiles[j] {
      assert profiles[i].id != profiles[j].id;
    }
    SortAscending(ByAge, profiles);
    SortPermutes(ByAge, profiles);
    forall p ensures p in StableSort(ByAge, profiles) <==> p in profiles {
      MemberOfPermutation(StableSort(ByAge, profiles), profiles, p);
    }
  }

  /** The search starts from the oldest queued ticket; it fails iff the policy is not valid or no ticket waits. */
  lemma AnchorIsOldest(tickets: seq<Ticket>, now: Time, policy: Policy)
    requires DistinctIds(Profiles(tickets))
    ensures Generated(tickets, now, policy).Ok? <==> policy.Valid() && exists t :: t in tickets && t.state == Queued
    ensures Generated(tickets, now, policy).Ok? ==>
              exists anchor :: Oldest(tickets, anchor) && anchor.profile == Generated(tickets, now, policy).value.anchor
  {
    var ordered, queued := StableSort(ByAge, Profiles(tickets)), QueuedIds(tickets);
    InAgeOrder(Profiles(tickets));
    OldestComesFirst(ordered, queued);
    forall t | t in tickets ensures t.profile in ordered && (t.profile.id in queued <==> t.state == Queued) {
      InProfiles(tickets, t);
      QueuedById(tickets, t);
    }
    if OldestQueued(ordered, queued).Some? {
      var a := OldestQueued(ordered, queued).value;
      var anchor := ProfileOf(tickets, a);
      forall t | t in tickets && t.state == Queued && t.profile.id != anchor.profile.id ensures Older(anchor, t) {
        assert t.profile in ordered;
      }
      assert Oldest(tickets, anchor);
    }
  }

  /* The windows */

  // The seconds for which the anchor has waited.
  function Waited(createdAt: Time, now: Time): real {
    if now < createdAt then 0.0 else (now - createdAt) as real / 1_000_000_000.0
  }

  function Least(x: real, y: real): real {
    if x < y then x else y
  }

  lemma RangeIs(policy: Policy, createdAt: Time, now: Time)
    ensures policy.RatingRange(now - createdAt)
            == Widened(policy.maxRatingRange, policy.initialRatingRange, policy.ratingExpansionPerSecond,
                       Waited(createdAt, now))
  {
    assert Waited(createdAt, now) == Seconds(if now - createdAt < 0 then 0 else now - createdAt);
  }

  lemma LatencyIs(policy: Policy, createdAt: Time, now: Time)
    ensures policy.LatencyLimit(now - createdAt)
            == Widened(policy.maxLatency as real, policy.initialLatency as real, policy.latencyExpansionPerSecond,
                       Waited(createdAt, now)).Floor
  {
    var w := Waited(createdAt, now);
    assert w == Seconds(if now - createdAt < 0 then 0 else now - createdAt);
    var x := policy.initialLatency as real + w * policy.latencyExpansionPerSecond;
    Capped(policy.maxLatency, x, x);
  }

  function Widened(limit: real, initial: real, rate: real, seconds: real): real {
    Least(limit, initial + seconds * rate)
  }

  /** The windows widen with the anchor's wait, up to their maximum; that of the latency is in whole milliseconds. */
  lemma WindowsWiden(tickets: seq<Ticket>, now: Time, policy: Policy)
    requires Generated(tickets, now, policy).Ok?
    ensures var r := Generated(tickets, now, policy).value;
            var w := Waited(r.anchor.createdAt, now);
            && r.ratingRange == Widened(policy.maxRatingRange, policy.initialRatingRange,
                                        policy.ratingExpansionPerSecond, w)
            && r.latencyLimit == Widened(policy.maxLatency as real, policy.initialLatency as real,
                                         policy.latencyExpansionPerSecond, w).Floor
  {
    var createdAt := Generated(tickets, now, policy).value.anchor.createdAt;
    RangeIs(policy, createdAt, now);
    LatencyIs(policy, createdAt, now);
  }

  lemma ProductGrows(x: real, y: real, rate: real)
    requires x <= y && rate >= 0.0
    ensures x * rate <= y * rate
  {
  }

  lemma WidenedGrows(limit: real, initial: real, rate: real, u: real, v: real)
    requires u <= v && rate >= 0.0
    ensures Widened(limit, initial, rate, u) <= Widened(limit, initial, rate, v)
  {
    ProductGrows(u, v, rate);
  }

  lemma FloorGrows(x: real, y: real)
    requires x <= y
    ensures x.Floor <= y.Floor
  {
  }

  lemma Capped(limit: int, x: real, y: real)
    requires x <= y
    ensures (if x >= limit as real then limit else x.Floor) <= (if y >= limit as real then limit else y.Floor)
    ensures (if x >= limit as real then limit else x.Floor) == Least(limit as real, x).Floor
  {
  }

  /** So they never narrow as time goes by. */
  lemma WindowsNeverNarrow(tickets: seq<Ticket>, now: Time, later: Time, policy: Policy)
    requires Generated(tickets, now, policy).Ok? && now <= later
    ensures Generated(tickets, later, policy).Ok?
    ensures var a, b := Generated(tickets, now, policy).value, Generated(tickets, later, policy).value;
            a.anchor == b.anchor && a.ratingRange <= b.ratingRange && a.latencyLimit <= b.latencyLimit
  {
    WindowsWiden(tickets, now, policy);
    WindowsWiden(tickets, later, policy);
    var createdAt := Generated(tickets, now, policy).value.anchor.createdAt;
    var u, v := Waited(createdAt, now), Waited(createdAt, later);
    WidenedGrows(policy.maxRatingRange, policy.initialRatingRange, policy.ratingExpansionPerSecond, u, v);
    WidenedGrows(policy.maxLatency as real, policy.initialLatency as real, policy.latencyExpansionPerSecond, u, v);
    FloorGrows(Widened(policy.maxLatency as real, policy.initialLatency as real, policy.latencyExpansionPerSecond, u),
               Widened(policy.maxLatency as real, policy.initialLatency as real, policy.latencyExpansionPerSecond, v));
  }

  /* Who gets in */

  // The ticket waits for the anchor's pool, and the windows reach it.
  predicate InReach(t: Ticket, r: CandidateResult) {
    && t.state == Queued && t.profile.pool == r.anchor.pool
    && r.anchor.pool.region in t.profile.latency && t.profile.latency[r.anchor.pool.region] <= r.latencyLimit
    && -r.ratingRange <= t.profile.rating - r.anchor.rating <= r.ratingRange
  }

  // Another ticket of the player waits as well.
  ghost predicate Doubled(tickets: seq<Ticket>, t: Ticket) {
    exists u :: u in tickets && u.state == Queued && u.profile.player == t.profile.player
                && u.profile.id != t.profile.id
  }

  // The search that the result came from.
  lemma FromSearch(tickets: seq<Ticket>, now: Time, policy: Policy) returns (s: Search)
    requires Generated(tickets, now, policy).Ok? && DistinctIds(Profiles(tickets))
    ensures var r := Generated(tickets, now, policy).value;
            && s == SearchFor(tickets, r.anchor, now, policy)
            && s.anchor == r.anchor && s.range == r.ratingRange && s.latency == r.latencyLimit
            && AllTaken(s) == r.tickets && s.limit == policy.candidateLimit && s.maxLatency == policy.maxLatency
            && s.latency <= s.maxLatency && Covered(s) && Decisions(s) == r.decisions
    ensures DistinctIds(s.ordered) && s.queued == QueuedIds(tickets)
    ensures forall p :: p in s.ordered <==> p in Profiles(tickets)
  {
    var r := Generated(tickets, now, policy).value;
    s := SearchFor(tickets, r.anchor, now, policy);
    IsCovered(s);
    InAgeOrder(Profiles(tickets));
    SortedDistinct(Profiles(tickets));
    assert policy.LatencyLimit(now - r.anchor.createdAt) <= policy.maxLatency;
  }

  // Eligibility, in terms of the tickets.
  lemma EligibleInReach(tickets: seq<Ticket>, s: Search, r: CandidateResult, t: Ticket)
    requires DistinctIds(Profiles(tickets)) && t in tickets && s.queued == QueuedIds(tickets)
    requires forall p :: p in s.ordered <==> p in Profiles(tickets)
    requires s.anchor == r.anchor && s.range == r.ratingRange && s.latency == r.latencyLimit <= s.maxLatency
    ensures Eligible(s, t.profile) <==> InReach(t, r) && !Doubled(tickets, t)
  {
    QueuedById(tickets, t);
    forall u | u in tickets ensures u.profile in s.ordered && (u.profile.id in s.queued <==> u.state == Queued) {
      InProfiles(tickets, u);
      QueuedById(tickets, u);
    }
    forall p | p in s.ordered ensures exists u :: u in tickets && u.profile == p {
      var u := ProfileOf(tickets, p);
    }
  }

  /** Whoever gets in waits within reach of the anchor, and waits once. */
  lemma AcceptedAreInReach(tickets: seq<Ticket>, now: Time, policy: Policy, p: Profile)
    requires DistinctIds(Profiles(tickets)) && Generated(tickets, now, policy).Ok?
             && p in Generated(tickets, now, policy).value.tickets
    ensures var r := Generated(tickets, now, policy).value;
            exists t :: t in tickets && t.profile == p && InReach(t, r) && !Doubled(tickets, t)
                        && t.profile.latency[r.anchor.pool.region] <= policy.maxLatency
  {
    var r := Generated(tickets, now, policy).value;
    var s := FromSearch(tickets, now, policy);
    AcceptedAreEligible(tickets, r.anchor, now, policy, p);
    assert p in s.ordered;
    var t := ProfileOf(tickets, p);
    EligibleInReach(tickets, s, r, t);
  }

  // A party of one.
  lemma AloneInParty(s: Search, t: Profile)
    requires t in s.ordered && t.party == NO_ID && DistinctIds(s.ordered)
    ensures Find(s.Groups(), KeyOf(t)) < |s.Groups()|
    ensures var party := s.Groups()[Find(s.Groups(), KeyOf(t))].tickets;
            t in party && forall u :: u in party ==> u == t
  {
    var groups := s.Groups();
    GroupOf(s, t);
    SearchedIsGrouped(s.ordered, s.anchor.id);
    var i := Find(groups, KeyOf(t));
    forall u | u in groups[i].tickets ensures u == t {
      assert KeyOf(u) == KeyOf(t);
      InFlatten(groups, i, u);
      MemberOfPermutation(Flatten(groups), s.ordered, u);
      SameById(s.ordered, u, t);
    }
  }

  lemma Twice(party: seq<Profile>, i: nat, j: nat)
    requires i < j < |party| && party[i] == party[j]
    ensures multiset(party)[party[i]] >= 2
  {
    assert party == party[..j] + party[j..];
    assert party[i] in party[..j] && party[j] in party[j..];
  }

  lemma PartOfAll(groups: seq<Group>, i: nat)
    requires i < |groups|
    ensures multiset(groups[i].tickets) <= multiset(Flatten(groups))
  {
    FlattenUpdate(groups, i, groups[i]);
  }

  // No ticket is in a party twice.
  lemma PartyIsDistinct(s: Search, i: nat)
    requires i < |s.Groups()| && DistinctIds(s.ordered)
    ensures DistinctIds(s.Groups()[i].tickets)
    ensures forall t :: t in s.Groups()[i].tickets ==> t in s.ordered
  {
    var party := s.Groups()[i].tickets;
    SearchedIsGrouped(s.ordered, s.anchor.id);
    PartOfAll(s.Groups(), i);
    DistinctIdsAreDistinct(s.ordered);
    forall t | t in party ensures t in s.ordered {
      assert t in multiset(party);
      assert t in multiset(s.ordered);
    }
    forall a, b | 0 <= a < b < |party| ensures party[a].id != party[b].id {
      if party[a].id == party[b].id {
        SameById(s.ordered, party[a], party[b]);
        Twice(party, a, b);
      }
    }
  }

  lemma TwoDiffer(party: seq<Profile>, p: Profile)
    requires DistinctIds(party) && |party| >= 2
    ensures exists u :: u in party && u != p
  {
    var u := if party[0] == p then party[1] else party[0];
    assert party[0].id != party[1].id && u in party;
  }

  lemma LoneEligibleGetIn(s: Search, p: Profile)
    requires DistinctIds(s.ordered) && p in s.ordered && p.party == NO_ID && Eligible(s, p)
    ensures p in AllTaken(s) || |AllTaken(s)| == s.limit
  {
    if p !in AllTaken(s) {
      RejectedForAReason(s, p);
      AloneInParty(s, p);
      var i := Find(s.Groups(), KeyOf(p));
      PartyIsDistinct(s, i);
      TakenAre(s, s.Groups(), |s.Groups()|);
      if |s.Groups()[i].tickets| >= 2 {
        TwoDiffer(s.Groups()[i].tickets, p);
      }
    }
  }

  /** Whoever waits alone within reach of the anchor, and waits once, gets in as long as there is room. */
  lemma LoneTicketsGetIn(tickets: seq<Ticket>, now: Time, policy: Policy, t: Ticket)
    requires DistinctIds(Profiles(tickets)) && Generated(tickets, now, policy).Ok? && t in tickets
    requires t.profile.party == NO_ID && !Doubled(tickets, t)
    requires InReach(t, Generated(tickets, now, policy).value)
    ensures var r := Generated(tickets, now, policy).value;
            t.profile in r.tickets || |r.tickets| == policy.candidateLimit
  {
    var r := Generated(tickets, now, policy).value;
    var s := FromSearch(tickets, now, policy);
    InProfiles(tickets, t);
    EligibleInReach(tickets, s, r, t);
    LoneEligibleGetIn(s, t.profile);
  }

  /* Why others do not */

  // The tickets that stay together with the given one.
  function PartyIds(tickets: seq<Ticket>, p: Profile): set<Id> {
    set t | t in tickets && KeyOf(t.profile) == KeyOf(p) :: t.profile.id
  }

  // The ticket waits, and its player has no other that does.
  ghost predicate WaitsOnce(tickets: seq<Ticket>, t: Ticket) {
    t.state == Queued && !Doubled(tickets, t)
  }

  // What a reason says of a ticket; none is given when an earlier one in this list is true.
  ghost predicate Holds(reason: Reason, tickets: seq<Ticket>, t: Ticket, r: CandidateResult, policy: Policy) {
    var pool, anchor := t.profile.pool, r.anchor.pool;
    var latency := if anchor.region in t.profile.latency then t.profile.latency[anchor.region] else -1;
    match reason
    case TicketNotQueued => t.state != Queued
    case DuplicatePlayer => t.state == Queued && Doubled(tickets, t)
    case ModeMismatch => WaitsOnce(tickets, t) && pool.mode != anchor.mode
    case ClientVersionMismatch =>
      WaitsOnce(tickets, t) && pool.mode == anchor.mode && pool.clientVersion != anchor.clientVersion
    case RegionMismatch =>
      WaitsOnce(tickets, t) && pool.(region := anchor.region) == anchor && pool.region != anchor.region
    case LatencyMissing => WaitsOnce(tickets, t) && pool == anchor && anchor.region !in t.profile.latency
    case LatencyHardLimit =>
      WaitsOnce(tickets, t) && pool == anchor && anchor.region in t.profile.latency && latency > policy.maxLatency
    case LatencyOutsideWindow =>
      WaitsOnce(tickets, t) && pool == anchor && anchor.region in t.profile.latency
      && r.latencyLimit < latency <= policy.maxLatency
    case RatingOutsideWindow =>
      WaitsOnce(tickets, t) && pool == anchor && anchor.region in t.profile.latency && latency <= r.latencyLimit
      && (t.profile.rating > r.anchor.rating + r.ratingRange || t.profile.rating < r.anchor.rating - r.ratingRange)
    case CandidateLimit => false
    case Accepted => false
  }

  // The reason that the search finds with a ticket is true of it.
  lemma TicketReasonHolds(tickets: seq<Ticket>, s: Search, r: CandidateResult, policy: Policy, t: Ticket)
    requires DistinctIds(Profiles(tickets)) && t in tickets && s.queued == QueuedIds(tickets)
    requires forall p :: p in s.ordered <==> p in Profiles(tickets)
    requires s.anchor == r.anchor && s.range == r.ratingRange && s.latency == r.latencyLimit <= s.maxLatency
             && s.maxLatency == policy.maxLatency
    requires s.TicketReason(t.profile).Some?
    ensures Holds(s.TicketReason(t.profile).value, tickets, t, r, policy)
  {
    QueuedById(tickets, t);
    TwinIsDouble(tickets, s, t);
  }

  lemma TwinIsDouble(tickets: seq<Ticket>, s: Search, t: Ticket)
    requires DistinctIds(Profiles(tickets)) && t in tickets && s.queued == QueuedIds(tickets)
    requires forall p :: p in s.ordered <==> p in Profiles(tickets)
    ensures s.HasTwin(t.profile) <==> Doubled(tickets, t)
  {
    if s.HasTwin(t.profile) {
      var p :| p in s.ordered && p.id in s.queued && p.player == t.profile.player && p.id != t.profile.id;
      var u := ProfileOf(tickets, p);
      QueuedById(tickets, u);
    }
    if Doubled(tickets, t) {
      var u :| u in tickets && u.state == Queued && u.profile.player == t.profile.player
               && u.profile.id != t.profile.id;
      QueuedById(tickets, u);
      InProfiles(tickets, u);
    }
  }

  // The first ticket of the party with a reason.
  lemma {:induction false} PartyReasonIsOf(s: Search, party: seq<Profile>) returns (i: nat)
    requires s.PartyReason(party).Some?
    ensures i < |party| && s.TicketReason(party[i]) == s.PartyReason(party)
    ensures forall j :: 0 <= j < i ==> Eligible(s, party[j])
  {
    var n := |party| - 1;
    if s.PartyReason(party[..n]).Some? {
      i := PartyReasonIsOf(s, party[..n]);
    } else {
      i := n;
      PartyReasonIsNone(s, party[..n]);
      forall j | 0 <= j < i ensures Eligible(s, party[j]) {
        assert party[..n][j] == party[j];
      }
    }
  }

  // A group keeps the order of the tickets.
  lemma {:induction false} GroupsAscend(tickets: seq<Profile>)
    requires Ascending(ByAge, tickets)
    ensures forall i :: 0 <= i < |GroupTickets(tickets)| ==>
              && Ascending(ByAge, GroupTickets(tickets)[i].tickets)
              && forall t :: t in GroupTickets(tickets)[i].tickets ==> t in tickets
  {
    if tickets != [] {
      var n := |tickets| - 1;
      GroupsAscend(tickets[..n]);
      AddAscends(GroupTickets(tickets[..n]), tickets, n);
    }
  }

  lemma AddAscends(groups: seq<Group>, tickets: seq<Profile>, n: nat)
    requires n == |tickets| - 1 && Ascending(ByAge, tickets)
    requires forall i :: 0 <= i < |groups| ==>
               Ascending(ByAge, groups[i].tickets) && forall t :: t in groups[i].tickets ==> t in tickets[..n]
    ensures forall i :: 0 <= i < |Add(groups, tickets[n])| ==>
              && Ascending(ByAge, Add(groups, tickets[n])[i].tickets)
              && forall t :: t in Add(groups, tickets[n])[i].tickets ==> t in tickets
  {
    forall t | t in tickets[..n] ensures ByAge(t, tickets[n]) && t in tickets {
      var j :| 0 <= j < n && tickets[j] == t;
    }
  }

  lemma PartyAscends(s: Search, k: nat)
    requires DistinctIds(s.ordered) && k < |s.Groups()|
    ensures Ascending(ByAge, s.Groups()[k].tickets)
  {
    InAgeOrder(s.ordered);
    GroupsAscend(StableSort(ByAge, s.ordered));
  }

  lemma {:induction false} IdsCount(party: seq<Profile>)
    requires DistinctIds(party)
    ensures |IdsOf(party)| == |party|
  {
    if party != [] {
      var n := |party| - 1;
      IdsCount(party[..n]);
      assert party == party[..n] + [party[n]];
      assert IdsOf(party) == IdsOf(party[..n]) + {party[n].id};
    }
  }

  lemma PartySize(tickets: seq<Ticket>, s: Search, p: Profile)
    requires DistinctIds(s.ordered) && p in s.ordered && forall q :: q in s.ordered <==> q in Profiles(tickets)
    ensures Find(s.Groups(), KeyOf(p)) < |s.Groups()|
    ensures |s.Groups()[Find(s.Groups(), KeyOf(p))].tickets| == |PartyIds(tickets, p)|
  {
    GroupOf(s, p);
    var k := Find(s.Groups(), KeyOf(p));
    PartyIsDistinct(s, k);
    SearchedIsGrouped(s.ordered, s.anchor.id);
    var party := s.Groups()[k].tickets;
    forall id ensures id in PartyIds(tickets, p) <==> id in IdsOf(party) {
      if id in PartyIds(tickets, p) {
        var t :| t in tickets && KeyOf(t.profile) == KeyOf(p) && t.profile.id == id;
        InProfiles(tickets, t);
        GroupOf(s, t.profile);
      }
      if id in IdsOf(party) {
        var q :| q in party && q.id == id;
        var t := ProfileOf(tickets, q);
      }
    }
    assert PartyIds(tickets, p) == IdsOf(party);
    IdsCount(party);
  }

  // The ticket is in reach, and waits once.
  ghost predicate Fit(tickets: seq<Ticket>, t: Ticket, r: CandidateResult) {
    InReach(t, r) && !Doubled(tickets, t)
  }

  ghost predicate SameParty(tickets: seq<Ticket>, p: Profile, u: Ticket) {
    u in tickets && KeyOf(u.profile) == KeyOf(p)
  }

  /*
    The reason is the ticket's own if it does not wait, or not once.  Otherwise it is that of the
    oldest of its party that is not fit, or they are all fit and there is no room for them.
  */
  ghost predicate Rightly(reason: Reason, tickets: seq<Ticket>, t: Ticket, r: CandidateResult, policy: Policy) {
    if !WaitsOnce(tickets, t) then Holds(reason, tickets, t, r, policy)
    else if reason == CandidateLimit then
      && (forall u :: SameParty(tickets, t.profile, u) ==> Fit(tickets, u, r))
      && |r.tickets| + |PartyIds(tickets, t.profile)| > policy.candidateLimit
    else
      exists u :: && SameParty(tickets, t.profile, u) && Holds(reason, tickets, u, r, policy)
                  && forall v :: SameParty(tickets, t.profile, v) && Older(v, u) ==> Fit(tickets, v, r)
  }

  /** Every ticket that is left out is told rightly why. */
  lemma ReasonsAreTrue(tickets: seq<Ticket>, now: Time, policy: Policy, i: nat)
    requires DistinctIds(Profiles(tickets)) && Generated(tickets, now, policy).Ok?
    requires i < |Generated(tickets, now, policy).value.decisions|
    requires !Generated(tickets, now, policy).value.decisions[i].accepted
    ensures var r := Generated(tickets, now, policy).value;
            exists t :: t in tickets && t.profile.id == r.decisions[i].ticket
                        && Rightly(r.decisions[i].reason, tickets, t, r, policy)
  {
    var r := Generated(tickets, now, policy).value;
    var s := FromSearch(tickets, now, policy);
    var p := s.ordered[i];
    assert p in Profiles(tickets);
    var t := ProfileOf(tickets, p);
    assert r.decisions[i] == s.DecisionOf(s.Groups(), p);
    ReasonOf(tickets, s, r, policy, t);
  }

  // The search that the decisions were made by.
  ghost predicate Behind(tickets: seq<Ticket>, s: Search, r: CandidateResult, policy: Policy) {
    && DistinctIds(Profiles(tickets)) && DistinctIds(s.ordered)
    && s.queued == QueuedIds(tickets) && (forall p :: p in s.ordered <==> p in Profiles(tickets))
    && s.anchor == r.anchor && s.range == r.ratingRange && s.latency == r.latencyLimit <= s.maxLatency
    && s.maxLatency == policy.maxLatency && s.limit == policy.candidateLimit && AllTaken(s) == r.tickets
  }

  lemma ReasonOf(tickets: seq<Ticket>, s: Search, r: CandidateResult, policy: Policy, t: Ticket)
    requires Behind(tickets, s, r, policy) && t in tickets && t.profile in s.ordered
    requires Find(s.Groups(), KeyOf(t.profile)) < |s.Groups()| && !s.DecisionOf(s.Groups(), t.profile).accepted
    ensures Rightly(s.DecisionOf(s.Groups(), t.profile).reason, tickets, t, r, policy)
  {
    var groups, k := s.Groups(), Find(s.Groups(), KeyOf(t.profile));
    QueuedById(tickets, t);
    TwinIsDouble(tickets, s, t);
    if s.FirstReason(t.profile).Some? {
      TicketReasonHolds(tickets, s, r, policy, t);
    } else if s.PartyReason(groups[k].tickets).Some? {
      ReasonOfParty(tickets, s, r, policy, t.profile);
    } else {
      RoomIsShort(tickets, s, r, policy, t.profile);
    }
  }

  lemma ReasonOfParty(tickets: seq<Ticket>, s: Search, r: CandidateResult, policy: Policy, p: Profile)
    requires Behind(tickets, s, r, policy) && p in s.ordered && Find(s.Groups(), KeyOf(p)) < |s.Groups()|
    requires s.PartyReason(s.Groups()[Find(s.Groups(), KeyOf(p))].tickets).Some?
    ensures var reason := s.PartyReason(s.Groups()[Find(s.Groups(), KeyOf(p))].tickets).value;
            && reason != CandidateLimit
            && exists u :: && SameParty(tickets, p, u) && Holds(reason, tickets, u, r, policy)
                           && forall v :: SameParty(tickets, p, v) && Older(v, u) ==> Fit(tickets, v, r)
  {
    var k := Find(s.Groups(), KeyOf(p));
    var party := s.Groups()[k].tickets;
    var i := PartyReasonIsOf(s, party);
    var u := InParty(tickets, s, k, i);
    TicketReasonHolds(tickets, s, r, policy, u);
    forall v | SameParty(tickets, p, v) && Older(v, u) ensures Fit(tickets, v, r) {
      var j := PlaceInParty(tickets, s, p, v);
      OlderIsBefore(s, k, j, i);
      EligibleInReach(tickets, s, r, v);
    }
    assert SameParty(tickets, p, u);
  }

  lemma InParty(tickets: seq<Ticket>, s: Search, k: nat, i: nat) returns (u: Ticket)
    requires (forall q :: q in s.ordered <==> q in Profiles(tickets)) && DistinctIds(s.ordered)
    requires k < |s.Groups()| && i < |s.Groups()[k].tickets|
    ensures u in tickets && u.profile == s.Groups()[k].tickets[i] && KeyOf(u.profile) == s.Groups()[k].key
  {
    SearchedIsGrouped(s.ordered, s.anchor.id);
    PartyIsDistinct(s, k);
    assert s.Groups()[k].tickets[i] in s.Groups()[k].tickets;
    u := ProfileOf(tickets, s.Groups()[k].tickets[i]);
  }

  lemma OlderIsBefore(s: Search, k: nat, j: nat, i: nat)
    requires DistinctIds(s.ordered) && k < |s.Groups()|
    requires j < |s.Groups()[k].tickets| && i < |s.Groups()[k].tickets|
    requires ByAge(s.Groups()[k].tickets[j], s.Groups()[k].tickets[i])
    ensures j < i
  {
    PartyAscends(s, k);
    assert !ByAge(s.Groups()[k].tickets[i], s.Groups()[k].tickets[j]);
  }

  lemma PlaceInParty(tickets: seq<Ticket>, s: Search, p: Profile, v: Ticket) returns (j: nat)
    requires (forall q :: q in s.ordered <==> q in Profiles(tickets)) && DistinctIds(s.ordered)
    requires p in s.ordered && Find(s.Groups(), KeyOf(p)) < |s.Groups()| && SameParty(tickets, p, v)
    ensures var party := s.Groups()[Find(s.Groups(), KeyOf(p))].tickets;
            j < |party| && party[j] == v.profile
  {
    InProfiles(tickets, v);
    GroupOf(s, v.profile);
    j :| 0 <= j < |s.Groups()[Find(s.Groups(), KeyOf(p))].tickets|
         && s.Groups()[Find(s.Groups(), KeyOf(p))].tickets[j] == v.profile;
  }

  lemma RoomIsShort(tickets: seq<Ticket>, s: Search, r: CandidateResult, policy: Policy, p: Profile)
    requires Behind(tickets, s, r, policy) && p in s.ordered && Find(s.Groups(), KeyOf(p)) < |s.Groups()|
    requires var k := Find(s.Groups(), KeyOf(p));
             s.PartyReason(s.Groups()[k].tickets).None? && s.Rejection(s.Groups(), k) == Some(CandidateLimit)
    ensures forall u :: SameParty(tickets, p, u) ==> Fit(tickets, u, r)
    ensures |r.tickets| + |PartyIds(tickets, p)| > policy.candidateLimit
  {
    var groups, k := s.Groups(), Find(s.Groups(), KeyOf(p));
    TakenGrows(s, groups, k, |groups|);
    PartySize(tickets, s, p);
    PartyReasonIsNone(s, groups[k].tickets);
    forall u | SameParty(tickets, p, u) ensures Fit(tickets, u, r) {
      var j := PlaceInParty(tickets, s, p, u);
      assert groups[k].tickets[j] in groups[k].tickets;
      EligibleInReach(tickets, s, r, u);
    }
  }
}
