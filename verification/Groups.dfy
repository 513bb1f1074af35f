/**
  Party groups (internal/matchmaking/engine/candidate.go, lines 129-182): tickets sorted by age,
  gathered into groups that must stay together, with the anchor's group moved to the front.
*/
module Groups {
  import opened Prelude
  import opened Sorting
  import opened Tickets

  datatype GroupKey = Solo(ticket: Id) | Party(party: Id)

  datatype Group = Group(key: GroupKey, tickets: seq<Profile>)

  predicate ByAge(a: Profile, b: Profile) {
    if a.createdAt == b.createdAt then a.id < b.id else a.createdAt < b.createdAt
  }

  function KeyOf(ticket: Profile): GroupKey {
    if ticket.party != NO_ID then Party(ticket.party) else Solo(ticket.id)
  }

  // Position of the group with the given key, or |groups|.
  function Find(groups: seq<Group>, key: GroupKey): (i: nat)
    ensures i <= |groups|
    ensures i < |groups| ==> groups[i].key == key
    ensures forall j :: 0 <= j < i ==> groups[j].key != key
  {
    if groups == [] then 0
    else if groups[0].key == key then 0
    else 1 + Find(groups[1..], key)
  }

  function Add(groups: seq<Group>, ticket: Profile): seq<Group> {
    var i := Find(groups, KeyOf(ticket));
    if i < |groups| then groups[i := Group(groups[i].key, groups[i].tickets + [ticket])]
    else groups + [Group(KeyOf(ticket), [ticket])]
  }

  function GroupTickets(tickets: seq<Profile>): seq<Group> {
    if tickets == [] then [] else Add(GroupTickets(tickets[..|tickets| - 1]), tickets[|tickets| - 1])
  }

  ghost predicate WellGrouped(groups: seq<Group>) {
    && (forall i, j :: 0 <= i < j < |groups| ==> groups[i].key != groups[j].key)
    && (forall i :: 0 <= i < |groups| ==> groups[i].tickets != [])
    && (forall i, t :: 0 <= i < |groups| && t in groups[i].tickets ==> KeyOf(t) == groups[i].key)
  }

  function Flatten(groups: seq<Group>): seq<Profile> {
    if groups == [] then []
    else Flatten(groups[..|groups| - 1]) + groups[|groups| - 1].tickets
  }

  lemma FlattenOneMore(groups: seq<Group>, g: Group)
    ensures Flatten(groups + [g]) == Flatten(groups) + g.tickets
  {
    assert (groups + [g])[..|groups|] == groups;
  }

  lemma {:induction false} FlattenConcat(a: seq<Group>, b: seq<Group>)
    ensures Flatten(a + b) == Flatten(a) + Flatten(b)
  {
    if b == [] {
      assert a + b == a;
    } else {
      assert (a + b)[..|a + b| - 1] == a + b[..|b| - 1];
      FlattenConcat(a, b[..|b| - 1]);
    }
  }

  lemma FlattenUpdate(groups: seq<Group>, i: nat, g: Group)
    requires i < |groups|
    ensures Flatten(groups[i := g]) == Flatten(groups[..i]) + g.tickets + Flatten(groups[i + 1..])
    ensures Flatten(groups) == Flatten(groups[..i]) + groups[i].tickets + Flatten(groups[i + 1..])
  {
    FlattenSplit(groups, i);
    FlattenSplit(groups[i := g], i);
  }

  lemma FlattenSplit(groups: seq<Group>, i: nat)
    requires i < |groups|
    ensures Flatten(groups) == Flatten(groups[..i]) + groups[i].tickets + Flatten(groups[i + 1..])
  {
    AroundIt(groups, i);
    FlattenParts(groups, groups[..i], groups[i], groups[i + 1..]);
  }

  lemma AroundIt(groups: seq<Group>, i: nat)
    requires i < |groups|
    ensures groups == groups[..i] + [groups[i]] + groups[i + 1..]
  {
  }

  lemma FlattenParts(groups: seq<Group>, before: seq<Group>, g: Group, after: seq<Group>)
    requires groups == before + [g] + after
    ensures Flatten(groups) == Flatten(before) + g.tickets + Flatten(after)
  {
    FlattenAround(before, g, after);
  }

  lemma FlattenAround(before: seq<Group>, g: Group, after: seq<Group>)
    ensures Flatten(before + [g] + after) == Flatten(before) + g.tickets + Flatten(after)
  {
    FlattenConcat(before + [g], after);
    FlattenOneMore(before, g);
  }

  lemma AddKeepsTickets(groups: seq<Group>, ticket: Profile)
    ensures multiset(Flatten(Add(groups, ticket))) == multiset(Flatten(groups)) + multiset{ticket}
  {
    var i := Find(groups, KeyOf(ticket));
    if i < |groups| {
      FlattenUpdate(groups, i, Group(groups[i].key, groups[i].tickets + [ticket]));
    } else {
      FlattenOneMore(groups, Group(KeyOf(ticket), [ticket]));
    }
  }

  lemma AddKeepsGroups(groups: seq<Group>, ticket: Profile)
    requires WellGrouped(groups)
    ensures WellGrouped(Add(groups, ticket))
  {
  }

  // The tickets name the same party, or are the same ticket without a party.
  predicate Together(t: Profile, u: Profile) {
    t.party == u.party && (t.party == NO_ID ==> t.id == u.id)
  }

  /** Grouping loses no ticket, splits no party and mixes no two parties. */
  lemma {:induction false} GroupingPartitions(tickets: seq<Profile>)
    ensures WellGrouped(GroupTickets(tickets))
    ensures multiset(Flatten(GroupTickets(tickets))) == multiset(tickets)
  {
    if tickets != [] {
      var init, last := tickets[..|tickets| - 1], tickets[|tickets| - 1];
      GroupingPartitions(init);
      AddKeepsGroups(GroupTickets(init), last);
      AddKeepsTickets(GroupTickets(init), last);
      assert tickets == init + [last];
    }
  }

  /** Two tickets are in the same group iff they name the same party, or are the same ticket. */
  lemma GroupsAreParties(tickets: seq<Profile>, i: nat, j: nat, t: Profile, u: Profile)
    requires i < |GroupTickets(tickets)| && t in GroupTickets(tickets)[i].tickets
    requires j < |GroupTickets(tickets)| && u in GroupTickets(tickets)[j].tickets
    ensures i == j <==> Together(t, u)
  {
    GroupingPartitions(tickets);
    var groups := GroupTickets(tickets);
    assert groups[i].key == KeyOf(t) && groups[j].key == KeyOf(u);
    assert KeyOf(t) == KeyOf(u) <==> Together(t, u);
  }

  // The map from key to position kept by groupTickets.
  ghost predicate Indexed(groups: seq<Group>, indexes: map<GroupKey, nat>) {
    && (forall key :: key in indexes <==> Find(groups, key) < |groups|)
    && (forall key :: key in indexes ==> indexes[key] == Find(groups, key))
  }

  method GroupByParty(tickets: seq<Profile>) returns (groups: seq<Group>)
    ensures groups == GroupTickets(tickets)
  {
    var indexes: map<GroupKey, nat> := map[];
    groups := [];
    for n := 0 to |tickets|
      invariant groups == GroupTickets(tickets[..n]) && Indexed(groups, indexes)
    {
      assert tickets[..n + 1][..n] == tickets[..n];
      groups, indexes := Place(groups, indexes, tickets[n]);
    }
    assert tickets[..|tickets|] == tickets;
  }

  // The body of the loop over the tickets.
  method Place(groups: seq<Group>, indexes: map<GroupKey, nat>, ticket: Profile)
    returns (groups': seq<Group>, indexes': map<GroupKey, nat>)
    requires Indexed(groups, indexes)
    ensures groups' == Add(groups, ticket) && Indexed(groups', indexes')
  {
    groups', indexes' := groups, indexes;
    var key := KeyOf(ticket);
    if key !in indexes' {
      indexes' := indexes'[key := |groups'|];
      groups' := groups' + [Group(key, [])];
      assert forall i :: 0 <= i < |groups| ==> groups'[i] == groups[i];
    }
    var index := indexes'[key];
    groups' := groups'[index := Group(groups'[index].key, groups'[index].tickets + [ticket])];
    assert [] + [ticket] == [ticket];
    assert groups' == Add(groups, ticket);
    FindAfterAdd(groups, ticket);
  }

  lemma FindAfterAdd(groups: seq<Group>, ticket: Profile)
    ensures var after := Add(groups, ticket);
            forall key ::
              Find(after, key) == if Find(groups, key) == |groups| && key != KeyOf(ticket) then |after|
                else Find(groups, key)
  {
    var after := Add(groups, ticket);
    forall i | 0 <= i < |groups| ensures after[i].key == groups[i].key {}
    forall key
      ensures Find(after, key) == if Find(groups, key) == |groups| && key != KeyOf(ticket) then |after|
              else Find(groups, key)
    {
      FindIsFirst(after, key, if Find(groups, key) == |groups| && key != KeyOf(ticket) then |after|
                  else Find(groups, key));
    }
  }

  lemma FindIsFirst(groups: seq<Group>, key: GroupKey, i: nat)
    requires i <= |groups|
    requires i < |groups| ==> groups[i].key == key
    requires forall j :: 0 <= j < i ==> groups[j].key != key
    ensures Find(groups, key) == i
  {
  }

  predicate Holds(group: Group, ticketId: Id) {
    exists t :: t in group.tickets && t.id == ticketId
  }

  // Position of the group holding the ticket, found from the back and from the front.
  function LastWith(groups: seq<Group>, ticketId: Id): (r: Option<nat>)
    ensures r.Some? ==> r.value < |groups| && Holds(groups[r.value], ticketId)
    ensures r.None? ==> forall i :: 0 <= i < |groups| ==> !Holds(groups[i], ticketId)
  {
    if groups == [] then None
    else if Holds(groups[|groups| - 1], ticketId) then Some(|groups| - 1)
    else LastWith(groups[..|groups| - 1], ticketId)
  }

  function SwapGroups(groups: seq<Group>, i: nat): (r: seq<Group>)
    requires i < |groups|
    ensures |r| == |groups| && multiset(r) == multiset(groups)
  {
    var r := groups[0 := groups[i]][i := groups[0]];
    assert multiset(groups[0 := groups[i]]) == multiset(groups) - multiset{groups[0]} + multiset{groups[i]};
    r
  }

  // The groups the engine searches: by age of their oldest ticket, the anchor's group first.
  function Ordered(candidates: seq<Profile>): seq<Group> {
    GroupTickets(StableSort(ByAge, candidates))
  }

  function AnchorFirst(groups: seq<Group>, anchorId: Id): seq<Group>
    requires LastWith(groups, anchorId).Some?
  {
    SwapGroups(groups, LastWith(groups, anchorId).value)
  }
}
