/**
  Sixteen tickets for which formTeamsGreedy (internal/matchmaking/engine/team.go:46-70) fails
  although they have a formation: parties of four, four, two, one and five players, oldest first.
*/
module GreedyExample {
  import opened Prelude
  import opened Sorting
  import opened Tickets
  import opened Groups
  import opened TeamBuilding
  import opened Selection
  import opened Partition
  import opened Optimizer
  import opened FormationAlgorithms
  import opened CandidateGeneration

  const ANCHOR: Id := 1

  const REGION: Id := 1
  const LATENCY := 50

  // One ticket; its id is also its player's and its age.
  function TicketOf(id: Id, party: Id): Profile {
    Profile(id, id, party, PoolKey(1, 1, REGION), 1000.0, [Core], map[REGION := LATENCY], id)
  }

  // The players of one party, from the given id on.
  function PartyOf(first: Id, party: Id, size: nat): (r: seq<Profile>)
    ensures |r| == size && forall i :: 0 <= i < size ==> r[i] == TicketOf(first + i, party)
  {
    seq(size, i requires 0 <= i < size => TicketOf(first + i, party))
  }

  function Sixteen(): seq<Profile> {
    PartyOf(1, 1, 4) + PartyOf(5, 2, 4) + PartyOf(9, 3, 2) + PartyOf(11, 4, 1) + PartyOf(12, 5, 5)
  }

  lemma SixteenInOrder()
    ensures |Sixteen()| == 16
    ensures forall i :: 0 <= i < 16 ==> Sixteen()[i].id == i + 1 == Sixteen()[i].player == Sixteen()[i].createdAt
    ensures DistinctIds(Sixteen()) && Ascending(ByAge, Sixteen())
  {
  }

  // A further party makes a further group.
  lemma {:induction false} FurtherParty(tickets: seq<Profile>, groups: seq<Group>, party: seq<Profile>, key: GroupKey)
    requires party != [] && groups == GroupTickets(tickets) && forall i :: 0 <= i < |groups| ==> groups[i].key != key
    requires forall i :: 0 <= i < |party| ==> KeyOf(party[i]) == key
    ensures GroupTickets(tickets + party) == groups + [Group(key, party)]
  {
    var n := |party| - 1;
    var init, last := party[..n], party[n];
    assert party == init + [last];
    if n == 0 {
      FirstOfParty(tickets, groups, last);
      assert party == [last];
    } else {
      FurtherParty(tickets, groups, init, key);
      NextOfParty(tickets, groups, init, last);
    }
  }

  lemma FirstOfParty(tickets: seq<Profile>, groups: seq<Group>, t: Profile)
    requires groups == GroupTickets(tickets) && forall i :: 0 <= i < |groups| ==> groups[i].key != KeyOf(t)
    ensures GroupTickets(tickets + [t]) == groups + [Group(KeyOf(t), [t])]
  {
    OneMoreTicket(tickets, t);
    NewGroup(groups, t);
  }

  lemma NextOfParty(tickets: seq<Profile>, groups: seq<Group>, init: seq<Profile>, t: Profile)
    requires forall i :: 0 <= i < |groups| ==> groups[i].key != KeyOf(t)
    requires GroupTickets(tickets + init) == groups + [Group(KeyOf(t), init)]
    ensures GroupTickets(tickets + (init + [t])) == groups + [Group(KeyOf(t), init + [t])]
  {
    OneMoreTicket(tickets + init, t);
    assert tickets + (init + [t]) == tickets + init + [t];
    SameGroup(groups, init, t);
  }

  lemma OneMoreTicket(tickets: seq<Profile>, t: Profile)
    ensures GroupTickets(tickets + [t]) == Add(GroupTickets(tickets), t)
  {
    assert (tickets + [t])[..|tickets|] == tickets;
  }

  lemma NewGroup(groups: seq<Group>, t: Profile)
    requires forall i :: 0 <= i < |groups| ==> groups[i].key != KeyOf(t)
    ensures Add(groups, t) == groups + [Group(KeyOf(t), [t])]
  {
    FindNothing(groups, KeyOf(t));
  }

  lemma SameGroup(groups: seq<Group>, party: seq<Profile>, t: Profile)
    requires forall i :: 0 <= i < |groups| ==> groups[i].key != KeyOf(t)
    ensures Add(groups + [Group(KeyOf(t), party)], t) == groups + [Group(KeyOf(t), party + [t])]
  {
    var before := groups + [Group(KeyOf(t), party)];
    FindIsFirst(before, KeyOf(t), |groups|);
    assert before[|groups| := Group(KeyOf(t), party + [t])] == groups + [Group(KeyOf(t), party + [t])];
  }

  lemma FindNothing(groups: seq<Group>, key: GroupKey)
    requires forall i :: 0 <= i < |groups| ==> groups[i].key != key
    ensures Find(groups, key) == |groups|
  {
  }

  ghost predicate InParty(tickets: seq<Profile>, party: Id) {
    tickets != [] && forall i :: 0 <= i < |tickets| ==> KeyOf(tickets[i]) == Party(party)
  }

  function GroupsOf(a: seq<Profile>, b: seq<Profile>, c: seq<Profile>, d: seq<Profile>, e: seq<Profile>): seq<Group> {
    [Group(Party(1), a), Group(Party(2), b), Group(Party(3), c), Group(Party(4), d), Group(Party(5), e)]
  }

  lemma ThreeGrouped(a: seq<Profile>, b: seq<Profile>, c: seq<Profile>)
    requires InParty(a, 1) && InParty(b, 2) && InParty(c, 3)
    ensures GroupTickets(a + b + c) == [Group(Party(1), a), Group(Party(2), b), Group(Party(3), c)]
  {
    FurtherParty([], [], a, Party(1));
    assert [] + a == a;
    FurtherParty(a, [Group(Party(1), a)], b, Party(2));
    FurtherParty(a + b, [Group(Party(1), a), Group(Party(2), b)], c, Party(3));
  }

  lemma FiveGrouped(a: seq<Profile>, b: seq<Profile>, c: seq<Profile>, d: seq<Profile>, e: seq<Profile>)
    requires InParty(a, 1) && InParty(b, 2) && InParty(c, 3) && InParty(d, 4) && InParty(e, 5)
    ensures GroupTickets(a + b + c + d + e) == GroupsOf(a, b, c, d, e)
  {
    ThreeGrouped(a, b, c);
    var three := [Group(Party(1), a), Group(Party(2), b), Group(Party(3), c)];
    FurtherParty(a + b + c, three, d, Party(4));
    FurtherParty(a + b + c + d, three + [Group(Party(4), d)], e, Party(5));
  }

  function FiveGroups(): seq<Group> {
    GroupsOf(PartyOf(1, 1, 4), PartyOf(5, 2, 4), PartyOf(9, 3, 2), PartyOf(11, 4, 1), PartyOf(12, 5, 5))
  }

  lemma PartyIsParty(first: Id, party: Id, size: nat)
    requires party != NO_ID && size > 0
    ensures InParty(PartyOf(first, party, size), party)
  {
  }

  lemma SixteenGrouped()
    ensures GroupTickets(Sixteen()) == FiveGroups()
  {
    PartyIsParty(1, 1, 4);
    PartyIsParty(5, 2, 4);
    PartyIsParty(9, 3, 2);
    PartyIsParty(11, 4, 1);
    PartyIsParty(12, 5, 5);
    FiveGrouped(PartyOf(1, 1, 4), PartyOf(5, 2, 4), PartyOf(9, 3, 2), PartyOf(11, 4, 1), PartyOf(12, 5, 5));
  }

  lemma SortedStays(s: seq<Profile>)
    requires DistinctIds(s) && Ascending(ByAge, s)
    ensures StableSort(ByAge, s) == s
  {
    AgeIsLinear(s);
    LinearIsAsymmetric(ByAge, multiset(s));
    SortPermutes(ByAge, s);
    forall i, j | 0 <= i < j < |s| ensures s[i] != s[j] {}
    SortAscending(ByAge, s);
    AscendingUnique(ByAge, StableSort(ByAge, s), s);
  }

  // The first group alone holds the anchor, so it is first already.
  lemma FirstHolds(groups: seq<Group>, anchorId: Id)
    requires groups != [] && Holds(groups[0], anchorId) && forall k :: 1 <= k < |groups| ==> !Holds(groups[k], anchorId)
    ensures LastWith(groups, anchorId).Some? && AnchorFirst(groups, anchorId) == groups
  {
    assert LastWith(groups, anchorId).value == 0;
  }

  lemma HeldByParty(first: Id, party: Id, size: nat)
    requires size > 0
    ensures Holds(Group(Party(party), PartyOf(first, party, size)), ANCHOR) <==> first <= ANCHOR < first + size
  {
    var tickets := PartyOf(first, party, size);
    if first <= ANCHOR < first + size {
      assert tickets[ANCHOR - first] in tickets && tickets[ANCHOR - first].id == ANCHOR;
    }
  }

  lemma SixteenOrdered()
    ensures Ordered(Sixteen()) == FiveGroups()
  {
    SixteenInOrder();
    SortedStays(Sixteen());
    SixteenGrouped();
  }

  lemma FirstHoldsAnchor(groups: seq<Group>)
    requires groups == FiveGroups()
    ensures LastWith(groups, ANCHOR).Some? && AnchorFirst(groups, ANCHOR) == groups
  {
    HeldByParty(1, 1, 4);
    HeldByParty(5, 2, 4);
    HeldByParty(9, 3, 2);
    HeldByParty(11, 4, 1);
    HeldByParty(12, 5, 5);
    FirstHolds(groups, ANCHOR);
  }

  lemma SearchedInOrder(candidates: seq<Profile>, anchorId: Id, groups: seq<Group>)
    requires Ordered(candidates) == groups && LastWith(groups, anchorId).Some?
             && AnchorFirst(groups, anchorId) == groups
    ensures Searched(candidates, anchorId) == groups
  {
  }

  lemma SixteenSearched()
    ensures Searched(Sixteen(), ANCHOR) == FiveGroups()
  {
    SixteenOrdered();
    FirstHoldsAnchor(FiveGroups());
    SearchedInOrder(Sixteen(), ANCHOR, FiveGroups());
  }

  lemma FiveSizes(groups: seq<Group>)
    requires groups == FiveGroups()
    ensures Sizes(groups) == [4, 4, 2, 1, 5]
  {
  }

  /* The tickets as a snapshot of the queue */

  function SixteenQueued(): (r: seq<Ticket>)
    ensures |r| == 16 && forall i :: 0 <= i < 16 ==>
              r[i] == Ticket(Sixteen()[i], Queued, i + 1, NO_ID, ZERO_TIME, NO_ID)
  {
    seq(16, i requires 0 <= i < 16 => Ticket(Sixteen()[i], Queued, i + 1, NO_ID, ZERO_TIME, NO_ID))
  }

  lemma SixteenAt(i: nat)
    requires i < 16
    ensures Sixteen()[i] == TicketOf(i + 1, Sixteen()[i].party)
  {
  }

  lemma TicketIsAcceptable(id: Id, party: Id)
    requires id != NO_ID
    ensures TicketOf(id, party).Acceptable()
  {
    assert REGION in TicketOf(id, party).latency;
  }

  lemma SixteenAreTickets()
    ensures forall t :: t in Sixteen() ==> t.Acceptable() && t == TicketOf(t.id, t.party)
  {
    forall i | 0 <= i < 16
      ensures Sixteen()[i].Acceptable() && Sixteen()[i] == TicketOf(Sixteen()[i].id, Sixteen()[i].party)
    {
      SixteenAt(i);
      TicketIsAcceptable(i + 1, Sixteen()[i].party);
    }
  }

  lemma QueuedAreTickets()
    ensures forall t :: t in SixteenQueued() ==> t.profile.Acceptable() && t.Restorable() && t.state == Queued
  {
    SixteenAreTickets();
    forall i | 0 <= i < 16 ensures SixteenQueued()[i].profile in Sixteen() {}
  }

  // The policy has room for them, and tolerates their latency from the start.
  predicate Admitting(policy: Policy) {
    policy.Valid() && policy.candidateLimit >= 16 && policy.initialLatency >= LATENCY
  }

  // DefaultPolicy of internal/matchmaking/domain/policy.go.
  const DEFAULT_POLICY :=
    Policy(5, 30, 64, 100.0, 400.0, 2.0, 120, 250, 1.0, 60_000_000_000, 0.5, 50.0)

  lemma DefaultPolicyAdmits()
    ensures Admitting(DEFAULT_POLICY)
  {
  }

  lemma WindowsAreWide(policy: Policy, wait: Time)
    requires Admitting(policy)
    ensures policy.RatingRange(wait) >= 0.0 && policy.LatencyLimit(wait) >= LATENCY
  {
    var seconds := Seconds(if wait < 0 then 0 else wait);
    NotNegative(seconds, policy.ratingExpansionPerSecond);
    NotNegative(seconds, policy.latencyExpansionPerSecond);
    assert policy.initialLatency as real >= LATENCY as real;
  }

  lemma NotNegative(x: real, y: real)
    requires x >= 0.0 && y >= 0.0
    ensures x * y >= 0.0
  {
  }

  lemma QueuedProfiles()
    ensures Profiles(SixteenQueued()) == Sixteen()
    ensures forall t :: t in Sixteen() ==> t.id in QueuedIds(SixteenQueued())
  {
    forall i | 0 <= i < 16 ensures Sixteen()[i].id in QueuedIds(SixteenQueued()) {
      assert SixteenQueued()[i] in SixteenQueued();
    }
  }

  lemma OldestIsAnchor(queued: set<Id>)
    requires ANCHOR in queued
    ensures OldestQueued(Sixteen(), queued) == Some(TicketOf(ANCHOR, 1))
  {
    assert Sixteen()[0] == TicketOf(ANCHOR, 1);
  }

  lemma SixteenAreEligible(s: Search)
    requires s.ordered == Sixteen() && s.anchor == TicketOf(ANCHOR, 1) && s.range >= 0.0
    requires s.latency >= LATENCY && s.maxLatency >= LATENCY && forall t :: t in Sixteen() ==> t.id in s.queued
    ensures forall t :: t in s.ordered ==> Eligible(s, t)
  {
    SixteenAreTickets();
    SixteenInOrder();
    forall t, u | t in Sixteen() && u in Sixteen() && u.player == t.player ensures u.id == t.id {
      assert t.id == t.player && u.id == u.player;
    }
  }

  lemma FlattenFive()
    ensures Flatten(FiveGroups()) == Sixteen()
  {
    var groups := FiveGroups();
    assert groups[..4] + [groups[4]] == groups && groups[..3] + [groups[3]] == groups[..4];
    assert groups[..2] + [groups[2]] == groups[..3] && groups[..1] + [groups[1]] == groups[..2];
    assert [] + [groups[0]] == groups[..1];
    FlattenOneMore([], groups[0]);
    FlattenOneMore(groups[..1], groups[1]);
    FlattenOneMore(groups[..2], groups[2]);
    FlattenOneMore(groups[..3], groups[3]);
    FlattenOneMore(groups[..4], groups[4]);
  }

  lemma SixteenTaken(s: Search)
    requires s.ordered == Sixteen() && s.anchor == TicketOf(ANCHOR, 1) && s.limit >= 16
    requires forall t :: t in s.ordered ==> Eligible(s, t)
    ensures AllTaken(s) == Sixteen()
  {
    AllAreAccepted(s);
    SixteenSearched();
    FlattenFive();
  }

  /** Candidate generation accepts exactly these tickets, at any time, for the first of them. */
  lemma SixteenAreGenerated(policy: Policy, now: Time)
    requires Admitting(policy)
    ensures var r := Generated(SixteenQueued(), now, policy);
            r.Ok? && r.value.anchor.id == ANCHOR && r.value.tickets == Sixteen()
  {
    SixteenInOrder();
    SortedStays(Sixteen());
    QueuedProfiles();
    assert Sixteen()[0] in Sixteen();
    OldestIsAnchor(QueuedIds(SixteenQueued()));
    var s := SearchFor(SixteenQueued(), TicketOf(ANCHOR, 1), now, policy);
    WindowsAreWide(policy, now - 1);
    SixteenAreEligible(s);
    SixteenTaken(s);
  }

  /**
    The sixteen tickets are ones that the code accepts and queues, candidate generation hands all of
    them to the engine, they have a formation, and the greedy algorithm finds none.
  */
  lemma GreedyIsIncomplete(ctx: Context)
    requires ctx.Valid() && Admitting(ctx.policy)
    ensures forall t :: t in SixteenQueued() ==> t.profile.Acceptable() && t.Restorable() && t.state == Queued
    ensures var r := Generated(SixteenQueued(), ctx.now, ctx.policy);
            r.Ok? && r.value.anchor.id == ANCHOR && r.value.tickets == Sixteen()
    ensures Candidates(Sixteen()) && !GreedySucceeds(Sixteen(), ANCHOR)
    ensures exists c, split, f :: Admits(Searched(Sixteen(), ANCHOR), c, split, ctx, f)
  {
    QueuedAreTickets();
    SixteenAreGenerated(ctx.policy, ctx.now);
    SixteenInOrder();
    OnlyGreedyFails(Sixteen(), ctx);
  }

  lemma OnlyGreedyFails(candidates: seq<Profile>, ctx: Context)
    requires ctx.Valid() && candidates == Sixteen()
    ensures !GreedySucceeds(candidates, ANCHOR)
    ensures exists c, split, f :: Admits(Searched(candidates, ANCHOR), c, split, ctx, f)
  {
    SixteenSearched();
    FiveSizes(FiveGroups());
    NoFormation(candidates, ANCHOR, FiveGroups());
    OneFormation(FiveGroups(), ctx);
  }

  lemma NoFormation(candidates: seq<Profile>, anchorId: Id, groups: seq<Group>)
    requires Searched(candidates, anchorId) == groups && Sizes(groups) == [4, 4, 2, 1, 5]
    ensures forall c, split :: !GreedyForms(candidates, anchorId, c, split)
  {
    GreedyMissesSplit(groups);
    forall c, split | GreedyForms(candidates, anchorId, c, split) ensures false {
      FirstChoiceIsUnique(groups, c, [0, 1, 2]);
    }
  }

  lemma OneFormation(groups: seq<Group>, ctx: Context)
    requires ctx.Valid() && Sizes(groups) == [4, 4, 2, 1, 5]
    ensures exists c, split, f :: Admits(groups, c, split, ctx, f)
  {
    GreedyMissesSplit(groups);
    assert Admits(groups, [0, 3, 4], [true, true, false], ctx,
                  FormationOf(At(groups, [0, 3, 4]), [true, true, false], ctx));
  }
}
