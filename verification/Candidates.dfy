/**
  Candidate generation (internal/matchmaking/engine/candidate.go:37-152): which of the tickets of
  a snapshot the engine may use, decided party by party.
*/
module CandidateGeneration {
  import opened Prelude
  import opened Sorting
  import opened Tickets
  import opened Groups
  import opened Optimizer
  import opened FormationAlgorithms

  datatype Reason =
    | Accepted
    | TicketNotQueued
    | DuplicatePlayer
    | ModeMismatch
    | ClientVersionMismatch
    | RegionMismatch
    | LatencyMissing
    | LatencyHardLimit
    | LatencyOutsideWindow
    | RatingOutsideWindow
    | CandidateLimit

  datatype Decision = Decision(ticket: Id, accepted: bool, reason: Reason)

  datatype CandidateResult = CandidateResult(anchor: Profile, tickets: seq<Profile>, decisions: seq<Decision>,
                                             ratingRange: real, latencyLimit: int)

  datatype CandidateError = InvalidPolicy | NoQueuedTickets

  function Profiles(tickets: seq<Ticket>): (r: seq<Profile>)
    ensures |r| == |tickets|
  {
    seq(|tickets|, i requires 0 <= i < |tickets| => tickets[i].profile)
  }

  function QueuedIds(tickets: seq<Ticket>): set<Id> {
    set t | t in tickets && t.IsQueueCandidate() :: t.profile.id
  }

  // What the decisions depend on.
  datatype Search = Search(ordered: seq<Profile>, queued: set<Id>, anchor: Profile, range: real, latency: int,
                           maxLatency: int, limit: nat) {
    // Another queued ticket of the same player.
    predicate HasTwin(t: Profile) {
      exists u :: u in ordered && u.id in queued && u.player == t.player && u.id != t.id
    }

    // The first pass: tickets that are out whatever their party.
    function FirstReason(t: Profile): Option<Reason> {
      if t.id !in queued then Some(TicketNotQueued)
      else if HasTwin(t) then Some(DuplicatePlayer)
      else None
    }

    function Mismatch(t: Profile): Option<Reason> {
      if t.pool.mode != anchor.pool.mode then Some(ModeMismatch)
      else if t.pool.clientVersion != anchor.pool.clientVersion then Some(ClientVersionMismatch)
      else if t.pool.region != anchor.pool.region then Some(RegionMismatch)
      else if anchor.pool.region !in t.latency then Some(LatencyMissing)
      else if t.latency[anchor.pool.region] > maxLatency then Some(LatencyHardLimit)
      else if t.latency[anchor.pool.region] > latency then Some(LatencyOutsideWindow)
      else if Distance(t.rating, anchor.rating) > range then Some(RatingOutsideWindow)
      else None
    }

    function TicketReason(t: Profile): Option<Reason> {
      if FirstReason(t).Some? then FirstReason(t) else Mismatch(t)
    }

    // The reason of the first ticket of the party that has one.
    function PartyReason(tickets: seq<Profile>): Option<Reason> {
      if tickets == [] then None
      else
        var init := PartyReason(tickets[..|tickets| - 1]);
        if init.Some? then init else TicketReason(tickets[|tickets| - 1])
    }

    function Groups(): seq<Group> {
      Searched(ordered, anchor.id)
    }

    // The tickets accepted from the first k parties.
    function Taken(groups: seq<Group>, k: nat): seq<Profile>
      requires k <= |groups|
      decreases k, 0
    {
      if k == 0 then []
      else
        var init := Taken(groups, k - 1);
        if Rejection(groups, k - 1).None? then init + groups[k - 1].tickets else init
    }

    // Why the k-th party is rejected, if it is.
    function Rejection(groups: seq<Group>, k: nat): Option<Reason>
      requires k < |groups|
      decreases k, 1
    {
      var reason := PartyReason(groups[k].tickets);
      if reason.None? && |Taken(groups, k)| + |groups[k].tickets| > limit then Some(CandidateLimit) else reason
    }

    function DecisionOf(groups: seq<Group>, t: Profile): Decision
      requires Find(groups, KeyOf(t)) < |groups|
    {
      if FirstReason(t).Some? then Decision(t.id, false, FirstReason(t).value)
      else
        match Rejection(groups, Find(groups, KeyOf(t)))
        case Some(reason) => Decision(t.id, false, reason)
        case None => Decision(t.id, true, Accepted)
    }
  }

  function Distance(a: real, b: real): real {
    if a < b then b - a else a - b
  }

  function OldestQueued(ordered: seq<Profile>, queued: set<Id>): Option<Profile> {
    if ordered == [] then None
    else if ordered[0].id in queued then Some(ordered[0])
    else OldestQueued(ordered[1..], queued)
  }

  function SearchFor(tickets: seq<Ticket>, anchor: Profile, now: Time, policy: Policy): Search {
    var wait := now - anchor.createdAt;
    Search(StableSort(ByAge, Profiles(tickets)), QueuedIds(tickets), anchor, policy.RatingRange(wait),
           policy.LatencyLimit(wait),
           policy.maxLatency, policy.candidateLimit)
  }

  ghost function Decisions(s: Search): (r: seq<Decision>)
    requires Covered(s)
    ensures |r| == |s.ordered|
  {
    seq(|s.ordered|, i requires 0 <= i < |s.ordered| => s.DecisionOf(s.Groups(), s.ordered[i]))
  }

  // Every ticket is in the group of its key.
  ghost predicate Covered(s: Search) {
    forall i {:trigger s.ordered[i]} :: 0 <= i < |s.ordered| ==> Find(s.Groups(), KeyOf(s.ordered[i])) < |s.Groups()|
  }

  /* Groups of the search */

  lemma SwapKeepsGroups(groups: seq<Group>, i: nat)
    requires i < |groups| && WellGrouped(groups)
    ensures WellGrouped(SwapGroups(groups, i))
  {
  }

  lemma SearchedIsGrouped(candidates: seq<Profile>, anchorId: Id)
    ensures WellGrouped(Searched(candidates, anchorId))
    ensures multiset(Flatten(Searched(candidates, anchorId))) == multiset(candidates)
  {
    SearchedKeepsTickets(candidates, anchorId);
    GroupingPartitions(StableSort(ByAge, candidates));
    var groups := Ordered(candidates);
    if LastWith(groups, anchorId).Some? {
      SwapKeepsGroups(groups, LastWith(groups, anchorId).value);
    }
  }

  lemma {:induction false} FindInFlatten(groups: seq<Group>, t: Profile)
    requires t in Flatten(groups)
    ensures exists i :: 0 <= i < |groups| && t in groups[i].tickets
  {
    var n := |groups| - 1;
    if t !in groups[n].tickets {
      FindInFlatten(groups[..n], t);
      var i :| 0 <= i < n && t in groups[..n][i].tickets;
      assert t in groups[i].tickets;
    }
  }

  // A ticket of the search is in the group of its key, and in no other.
  lemma GroupOf(s: Search, t: Profile)
    requires t in s.ordered
    ensures var i := Find(s.Groups(), KeyOf(t)); i < |s.Groups()| && t in s.Groups()[i].tickets
    ensures forall k :: 0 <= k < |s.Groups()| && t in s.Groups()[k].tickets ==> k == Find(s.Groups(), KeyOf(t))
  {
    var groups := s.Groups();
    SearchedIsGrouped(s.ordered, s.anchor.id);
    MemberOfPermutation(Flatten(groups), s.ordered, t);
    FindInFlatten(groups, t);
    var i :| 0 <= i < |groups| && t in groups[i].tickets;
    assert groups[i].key == KeyOf(t);
    forall k | 0 <= k < |groups| && t in groups[k].tickets ensures k == Find(groups, KeyOf(t)) {
      assert groups[k].key == KeyOf(t);
    }
  }

  lemma IsCovered(s: Search)
    ensures Covered(s)
  {
    forall i {:trigger s.ordered[i]} | 0 <= i < |s.ordered|
      ensures Find(s.Groups(), KeyOf(s.ordered[i])) < |s.Groups()|
    {
      GroupOf(s, s.ordered[i]);
    }
  }

  /* What is accepted */

  // What GenerateCandidates promises of a candidate: it waits, its player waits once, it asks for the anchor's
  // pool, and it is within the windows and the hard limit.
  ghost predicate Eligible(s: Search, t: Profile) {
    && t.id in s.queued && (forall u :: u in s.ordered && u.id in s.queued && u.player == t.player ==> u.id == t.id)
    && t.pool == s.anchor.pool
    && s.anchor.pool.region in t.latency
    && t.latency[s.anchor.pool.region] <= s.latency && t.latency[s.anchor.pool.region] <= s.maxLatency
    && -s.range <= t.rating - s.anchor.rating <= s.range
  }

  lemma NoReasonIsEligible(s: Search, t: Profile)
    ensures s.TicketReason(t).None? <==> Eligible(s, t)
  {
  }

  lemma {:induction false} PartyReasonIsNone(s: Search, tickets: seq<Profile>)
    ensures s.PartyReason(tickets).None? <==> forall t :: t in tickets ==> Eligible(s, t)
  {
    if tickets != [] {
      var n := |tickets| - 1;
      assert tickets == tickets[..n] + [tickets[n]];
      PartyReasonIsNone(s, tickets[..n]);
      NoReasonIsEligible(s, tickets[n]);
    }
  }

  lemma {:induction false} TakenAre(s: Search, groups: seq<Group>, k: nat)
    requires k <= |groups|
    ensures |s.Taken(groups, k)| <= s.limit
    ensures forall t :: t in s.Taken(groups, k) <==>
              exists i :: 0 <= i < k && s.Rejection(groups, i).None? && t in groups[i].tickets
    ensures multiset(s.Taken(groups, k)) <= multiset(Flatten(groups[..k]))
  {
    if k > 0 {
      TakenAre(s, groups, k - 1);
      assert groups[..k] == groups[..k - 1] + [groups[k - 1]];
      FlattenOneMore(groups[..k - 1], groups[k - 1]);
    }
  }

  lemma {:induction false} TakenGrows(s: Search, groups: seq<Group>, j: nat, k: nat)
    requires j <= k <= |groups|
    ensures |s.Taken(groups, j)| <= |s.Taken(groups, k)|
  {
    if j < k {
      TakenGrows(s, groups, j, k - 1);
    }
  }

  ghost function AllTaken(s: Search): seq<Profile> {
    s.Taken(s.Groups(), |s.Groups()|)
  }

  lemma AcceptedExactly(s: Search, t: Profile)
    requires t in s.ordered
    ensures Find(s.Groups(), KeyOf(t)) < |s.Groups()|
    ensures t in AllTaken(s) <==> s.Rejection(s.Groups(), Find(s.Groups(), KeyOf(t))).None?
  {
    GroupOf(s, t);
    TakenAre(s, s.Groups(), |s.Groups()|);
  }

  /** A party is accepted or rejected as a whole. */
  lemma PartiesStayWhole(s: Search, t: Profile, u: Profile)
    requires t in s.ordered && u in s.ordered && KeyOf(t) == KeyOf(u)
    ensures t in AllTaken(s) <==> u in AllTaken(s)
  {
    AcceptedExactly(s, t);
    AcceptedExactly(s, u);
  }

  /** Every accepted ticket is eligible, and within the limits that no wait relaxes. */
  lemma AcceptedAreEligible(tickets: seq<Ticket>, anchor: Profile, now: Time, policy: Policy, t: Profile)
    requires policy.Valid() && t in AllTaken(SearchFor(tickets, anchor, now, policy))
    ensures var s := SearchFor(tickets, anchor, now, policy);
            && t in s.ordered && Eligible(s, t)
            && t.latency[anchor.pool.region] <= policy.maxLatency
            && -policy.maxRatingRange <= t.rating - anchor.rating <= policy.maxRatingRange
  {
    var s := SearchFor(tickets, anchor, now, policy);
    var groups := s.Groups();
    TakenAre(s, groups, |groups|);
    var i :| 0 <= i < |groups| && s.Rejection(groups, i).None? && t in groups[i].tickets;
    PartyReasonIsNone(s, groups[i].tickets);
    SearchedIsGrouped(s.ordered, s.anchor.id);
    InFlatten(groups, i, t);
    MemberOfPermutation(Flatten(groups), s.ordered, t);
  }

  /**
    What is accepted is a candidate list for the formation engine: no ticket and no player twice, and no more
    than the limit.
  */
  lemma AcceptedAreCandidates(s: Search)
    requires DistinctIds(s.ordered)
    ensures Candidates(AllTaken(s)) && |AllTaken(s)| <= s.limit
    ensures multiset(AllTaken(s)) <= multiset(s.ordered)
  {
    var groups, taken := s.Groups(), AllTaken(s);
    TakenAre(s, groups, |groups|);
    assert groups[..|groups|] == groups;
    SearchedIsGrouped(s.ordered, s.anchor.id);
    forall i, j | 0 <= i < j < |taken| ensures taken[i].id != taken[j].id && taken[i].player != taken[j].player {
      TakenTwice(s, taken, i, j);
    }
  }

  lemma TakenTwice(s: Search, taken: seq<Profile>, i: nat, j: nat)
    requires DistinctIds(s.ordered) && taken == AllTaken(s) && multiset(taken) <= multiset(s.ordered) && i < j < |taken|
    ensures taken[i].id != taken[j].id && taken[i].player != taken[j].player
  {
    SubsetDistinct(taken, s.ordered, i, j);
    EligibleWhenTaken(s, taken[i]);
    EligibleWhenTaken(s, taken[j]);
  }

  lemma SubsetDistinct(taken: seq<Profile>, ordered: seq<Profile>, i: nat, j: nat)
    requires DistinctIds(ordered) && multiset(taken) <= multiset(ordered) && i < j < |taken|
    ensures taken[i] in ordered && taken[j] in ordered && taken[i].id != taken[j].id
  {
    assert taken[i] in multiset(taken) && taken[j] in multiset(taken);
    assert taken[i] in multiset(ordered) && taken[j] in multiset(ordered);
    if taken[i].id == taken[j].id {
      SameById(ordered, taken[i], taken[j]);
      assert taken == taken[..j] + taken[j..] && taken[i] in taken[..j] && taken[j] in taken[j..];
      assert multiset(taken)[taken[i]] >= 2;
      DistinctIdsAreDistinct(ordered);
    }
  }

  lemma DistinctIdsAreDistinct(ordered: seq<Profile>)
    requires DistinctIds(ordered)
    ensures forall t :: t in ordered ==> multiset(ordered)[t] == 1
  {
    forall i, j | 0 <= i < j < |ordered| ensures ordered[i] != ordered[j] {
      assert ordered[i].id != ordered[j].id;
    }
    DistinctCount(ordered);
  }

  lemma EligibleWhenTaken(s: Search, t: Profile)
    requires t in AllTaken(s)
    ensures Eligible(s, t)
  {
    var groups := s.Groups();
    TakenAre(s, groups, |groups|);
    var i :| 0 <= i < |groups| && s.Rejection(groups, i).None? && t in groups[i].tickets;
    PartyReasonIsNone(s, groups[i].tickets);
  }

  /** No party of eligible tickets for which there was room is left out. */
  lemma RejectedForAReason(s: Search, t: Profile)
    requires t in s.ordered && t !in AllTaken(s)
    ensures Find(s.Groups(), KeyOf(t)) < |s.Groups()|
    ensures var party := s.Groups()[Find(s.Groups(), KeyOf(t))].tickets;
            (exists u :: u in party && !Eligible(s, u)) || |AllTaken(s)| + |party| > s.limit
  {
    AcceptedExactly(s, t);
    var groups, i := s.Groups(), Find(s.Groups(), KeyOf(t));
    PartyReasonIsNone(s, groups[i].tickets);
    TakenGrows(s, groups, i, |groups|);
  }

  lemma {:induction false} TakenWhenEligible(s: Search, groups: seq<Group>, k: nat)
    requires k <= |groups| && |Flatten(groups)| <= s.limit
    requires forall i, t :: 0 <= i < |groups| && t in groups[i].tickets ==> Eligible(s, t)
    ensures s.Taken(groups, k) == Flatten(groups[..k])
  {
    if k > 0 {
      TakenWhenEligible(s, groups, k - 1);
      FlattenTake(groups, k - 1);
      ShorterPrefix(groups, k);
      NotRejected(s, groups, k - 1);
    }
  }

  lemma FlattenTake(groups: seq<Group>, k: nat)
    requires k < |groups|
    ensures Flatten(groups[..k + 1]) == Flatten(groups[..k]) + groups[k].tickets
  {
    assert groups[..k + 1] == groups[..k] + [groups[k]];
    FlattenOneMore(groups[..k], groups[k]);
  }

  lemma NotRejected(s: Search, groups: seq<Group>, k: nat)
    requires k < |groups| && |s.Taken(groups, k)| + |groups[k].tickets| <= s.limit
    requires forall t :: t in groups[k].tickets ==> Eligible(s, t)
    ensures s.Taken(groups, k + 1) == s.Taken(groups, k) + groups[k].tickets
  {
    PartyReasonIsNone(s, groups[k].tickets);
  }

  lemma ShorterPrefix(groups: seq<Group>, k: nat)
    requires k <= |groups|
    ensures |Flatten(groups[..k])| <= |Flatten(groups)|
  {
    assert groups == groups[..k] + groups[k..];
    FlattenConcat(groups[..k], groups[k..]);
  }

  /** When all tickets are eligible and there is room for them, all are accepted, party by party. */
  lemma AllAreAccepted(s: Search)
    requires |s.ordered| <= s.limit && forall t :: t in s.ordered ==> Eligible(s, t)
    ensures AllTaken(s) == Flatten(s.Groups())
  {
    var groups := s.Groups();
    SearchedIsGrouped(s.ordered, s.anchor.id);
    SameLength(Flatten(groups), s.ordered);
    forall i, t | 0 <= i < |groups| && t in groups[i].tickets ensures Eligible(s, t) {
      InFlatten(groups, i, t);
      MemberOfPermutation(Flatten(groups), s.ordered, t);
    }
    TakenWhenEligible(s, groups, |groups|);
    assert groups[..|groups|] == groups;
  }

  /** There is one decision per ticket, and it says whether the ticket is among the candidates. */
  lemma DecisionsAreRight(s: Search, i: nat)
    requires i < |s.ordered| && Covered(s)
    ensures Decisions(s)[i].ticket == s.ordered[i].id
    ensures Decisions(s)[i].accepted <==> s.ordered[i] in AllTaken(s)
    ensures Decisions(s)[i].accepted <==> Decisions(s)[i].reason == Accepted
  {
    var t := s.ordered[i];
    GroupOf(s, t);
    AcceptedExactly(s, t);
    var k := Find(s.Groups(), KeyOf(t));
    NotAccepted(s, s.Groups()[k].tickets);
    if s.FirstReason(t).Some? && t in AllTaken(s) {
      EligibleWhenTaken(s, t);
      NoReasonIsEligible(s, t);
    }
  }

  lemma {:induction false} NotAccepted(s: Search, tickets: seq<Profile>)
    ensures s.PartyReason(tickets) != Some(Accepted)
  {
    if tickets != [] {
      NotAccepted(s, tickets[..|tickets| - 1]);
    }
  }

  /* The whole of GenerateCandidates */

  ghost function Generated(tickets: seq<Ticket>, now: Time, policy: Policy): Result<CandidateResult, CandidateError> {
    if !policy.Valid() then Err(InvalidPolicy)
    else
      match OldestQueued(StableSort(ByAge, Profiles(tickets)), QueuedIds(tickets))
      case None => Err(NoQueuedTickets)
      case Some(anchor) =>
        var s := SearchFor(tickets, anchor, now, policy);
        IsCovered(s);
        Ok(CandidateResult(anchor, AllTaken(s), Decisions(s), s.range, s.latency))
  }

  lemma AgeIsLinear(profiles: seq<Profile>)
    requires DistinctIds(profiles)
    ensures Linear(ByAge, multiset(profiles))
  {
    var less := ByAge;
    forall x, y | x in multiset(profiles) && y in multiset(profiles) && x != y ensures less(x, y) || less(y, x) {
      if x.id == y.id {
        SameById(profiles, x, y);
      }
    }
  }

  lemma ProfilesConcat(a: seq<Ticket>, b: seq<Ticket>)
    ensures Profiles(a + b) == Profiles(a) + Profiles(b)
  {
  }

  lemma {:induction false} ProfilesPermute(a: seq<Ticket>, b: seq<Ticket>)
    requires multiset(a) == multiset(b)
    ensures multiset(Profiles(a)) == multiset(Profiles(b))
  {
    SameLength(a, b);
    if a != [] {
      var n := |a| - 1;
      var last := [a[n]];
      assert a == a[..n] + last;
      assert a[n] in multiset(b);
      var k :| 0 <= k < |b| && b[k] == a[n];
      TakeOut(b, k);
      TakeOut(a, n);
      assert a[..n] + a[n + 1..] == a[..n];
      SameRest(multiset(a[..n]), multiset(b[..k] + b[k + 1..]), multiset(last));
      ProfilesPermute(a[..n], b[..k] + b[k + 1..]);
      ProfilesConcat(a[..n], last);
      ProfilesTakeOut(b, k);
    }
  }

  lemma SameRest<T>(x: multiset<T>, y: multiset<T>, z: multiset<T>)
    requires x + z == y + z
    ensures x == y
  {
    assert x == x + z - z;
    assert y == y + z - z;
  }

  lemma TakeOut<T>(b: seq<T>, k: nat)
    requires k < |b|
    ensures multiset(b) == multiset(b[..k] + b[k + 1..]) + multiset([b[k]])
  {
    assert b == b[..k] + [b[k]] + b[k + 1..];
  }

  lemma ProfilesTakeOut(b: seq<Ticket>, k: nat)
    requires k < |b|
    ensures multiset(Profiles(b)) == multiset(Profiles(b[..k] + b[k + 1..])) + multiset(Profiles([b[k]]))
  {
    TakeOut(Profiles(b), k);
    assert Profiles(b)[..k] + Profiles(b)[k + 1..] == Profiles(b[..k] + b[k + 1..]);
    assert [Profiles(b)[k]] == Profiles([b[k]]);
  }

  /** The result depends on which tickets there are, not on their order. */
  lemma OrderIsIrrelevant(a: seq<Ticket>, b: seq<Ticket>, now: Time, policy: Policy)
    requires multiset(a) == multiset(b) && DistinctIds(Profiles(a))
    ensures Generated(a, now, policy) == Generated(b, now, policy)
  {
    ProfilesPermute(a, b);
    AgeIsLinear(Profiles(a));
    forall i, j | 0 <= i < j < |Profiles(a)| ensures Profiles(a)[i] != Profiles(a)[j] {
      assert Profiles(a)[i].id != Profiles(a)[j].id;
    }
    SortUnique(ByAge, Profiles(a), Profiles(b));
    forall t ensures t in a <==> t in b { MemberOfPermutation(a, b, t); }
    assert QueuedIds(a) == QueuedIds(b);
  }

  method GenerateCandidates(tickets: seq<Ticket>, now: Time, policy: Policy)
    returns (r: Result<CandidateResult, CandidateError>)
    requires DistinctIds(Profiles(tickets))
    ensures r == Generated(tickets, now, policy)
  {
    if !policy.Valid() {
      return Err(InvalidPolicy);
    }
    var ordered := StableSort(ByAge, Profiles(tickets));
    var queued := QueuedIds(tickets);
    var oldest := FindOldestQueued(ordered, queued);
    if oldest.None? {
      return Err(NoQueuedTickets);
    }
    var s := SearchFor(tickets, oldest.value, now, policy);
    SortedDistinct(Profiles(tickets));
    SortedTwice(Profiles(tickets));
    var taken, decisions := Decide(s);
    return Ok(CandidateResult(oldest.value, taken, decisions, s.range, s.latency));
  }

  method Decide(s: Search) returns (taken: seq<Profile>, listed: seq<Decision>)
    requires DistinctIds(s.ordered) && StableSort(ByAge, s.ordered) == s.ordered
    ensures taken == AllTaken(s) && Covered(s) && listed == Decisions(s)
  {
    AnchorHeldOnce(s.ordered, s.anchor.id);
    var groups := GroupByParty(s.ordered);
    assert groups == Ordered(s.ordered);
    groups := MoveAnchorGroupFirst(groups, s.anchor.id);
    var decisions := FirstPass(s);
    taken, decisions := SecondPass(s, groups, decisions);
    listed := ListDecisions(s, groups, decisions);
  }

  method FindOldestQueued(ordered: seq<Profile>, queued: set<Id>) returns (r: Option<Profile>)
    ensures r == OldestQueued(ordered, queued)
  {
    for i := 0 to |ordered|
      invariant OldestQueued(ordered, queued) == OldestQueued(ordered[i..], queued)
    {
      assert ordered[i..][1..] == ordered[i + 1..];
      if ordered[i].id in queued {
        return Some(ordered[i]);
      }
    }
    return None;
  }

  lemma SortedDistinct(profiles: seq<Profile>)
    requires DistinctIds(profiles)
    ensures DistinctIds(StableSort(ByAge, profiles))
  {
    var sorted := StableSort(ByAge, profiles);
    SortPermutes(ByAge, profiles);
    forall i, j | 0 <= i < j < |sorted| ensures sorted[i].id != sorted[j].id {
      SubsetDistinct(sorted, profiles, i, j);
    }
  }

  // The groups of a sorted sequence are those of the search: sorting again changes nothing.
  lemma SortedTwice(profiles: seq<Profile>)
    requires DistinctIds(profiles)
    ensures StableSort(ByAge, StableSort(ByAge, profiles)) == StableSort(ByAge, profiles)
  {
    var sorted := StableSort(ByAge, profiles);
    AgeIsLinear(profiles);
    SortAscending(ByAge, profiles);
    SortPermutes(ByAge, profiles);
    SortFixed(ByAge, sorted);
  }

  // The decisions after the first pass over the first n tickets.
  ghost predicate Passed(s: Search, n: nat, decisions: map<Id, Decision>)
    requires n <= |s.ordered|
  {
    var seen := s.(ordered := s.ordered[..n]);
    && (forall j {:trigger s.ordered[j]} :: 0 <= j < n ==>
        DecidedAs(decisions, s.ordered[j], seen.FirstReason(s.ordered[j])))
    && (forall id :: id in decisions ==> id in IdsOf(s.ordered[..n]))
  }

  ghost function IdsOf(tickets: seq<Profile>): set<Id> {
    set t | t in tickets :: t.id
  }

  ghost predicate DecidedAs(decisions: map<Id, Decision>, t: Profile, reason: Option<Reason>) {
    match reason
    case None => t.id !in decisions
    case Some(why) => t.id in decisions && decisions[t.id] == Decision(t.id, false, why)
  }

  // The first queued ticket of each player seen so far.
  ghost predicate SeenFirst(s: Search, n: nat, seenPlayers: map<Id, Id>)
    requires n <= |s.ordered|
  {
    && (forall p :: p in seenPlayers ==>
          exists j ::
            && 0 <= j < n && s.ordered[j].id == seenPlayers[p]
            && s.ordered[j].player == p && s.ordered[j].id in s.queued)
    && (forall j {:trigger s.ordered[j]} :: 0 <= j < n && s.ordered[j].id in s.queued ==>
          s.ordered[j].player in seenPlayers)
  }

  // One more ticket brings new twins only to the queued tickets of its player.
  lemma TwinsGrow(s: Search, n: nat, u: Profile)
    requires n < |s.ordered|
    ensures s.(ordered := s.ordered[..n + 1]).HasTwin(u) <==>
              || s.(ordered := s.ordered[..n]).HasTwin(u)
              || (s.ordered[n].id in s.queued && s.ordered[n].player == u.player && s.ordered[n].id != u.id)
  {
    var t := s.ordered[n];
    assert s.ordered[..n + 1] == s.ordered[..n] + [t];
    if s.(ordered := s.ordered[..n]).HasTwin(u) {
      var v :| v in s.ordered[..n] && v.id in s.queued && v.player == u.player && v.id != u.id;
      assert v in s.ordered[..n + 1];
    }
    if t.id in s.queued && t.player == u.player && t.id != u.id {
      assert t in s.ordered[..n + 1];
    }
  }

  // What the loop body of the first pass does with the n-th ticket.
  function Pass(s: Search, n: nat, decisions: map<Id, Decision>, seenPlayers: map<Id, Id>)
    : (map<Id, Decision>, map<Id, Id>)
    requires n < |s.ordered|
  {
    var t := s.ordered[n];
    if t.id !in s.queued then (decisions[t.id := Decision(t.id, false, TicketNotQueued)], seenPlayers)
    else if t.player in seenPlayers then
      var previous := seenPlayers[t.player];
      var rejected := decisions[t.id := Decision(t.id, false, DuplicatePlayer)];
      (rejected[previous := Decision(previous, false, DuplicatePlayer)], seenPlayers)
    else (decisions, seenPlayers[t.player := t.id])
  }

  lemma SeenOneMore(s: Search, n: nat, decisions: map<Id, Decision>, seenPlayers: map<Id, Id>)
    requires n < |s.ordered| && SeenFirst(s, n, seenPlayers)
    ensures SeenFirst(s, n + 1, Pass(s, n, decisions, seenPlayers).1)
  {
    var seen' := Pass(s, n, decisions, seenPlayers).1;
    forall p | p in seen'
      ensures exists j :: 0 <= j < n + 1 && s.ordered[j].id == seen'[p] && s.ordered[j].player == p
                          && s.ordered[j].id in s.queued
    {
      if p in seenPlayers && seen'[p] == seenPlayers[p] {
        var j :| 0 <= j < n && s.ordered[j].id == seenPlayers[p] && s.ordered[j].player == p
          && s.ordered[j].id in s.queued;
        assert s.ordered[j].id == seen'[p];
      } else {
        assert s.ordered[n].id == seen'[p];
      }
    }
  }

  lemma PassedOneMore(s: Search, n: nat, decisions: map<Id, Decision>, seenPlayers: map<Id, Id>)
    requires n < |s.ordered| && DistinctIds(s.ordered) && Passed(s, n, decisions) && SeenFirst(s, n, seenPlayers)
    ensures Passed(s, n + 1, Pass(s, n, decisions, seenPlayers).0)
  {
    var decisions' := Pass(s, n, decisions, seenPlayers).0;
    var now := s.(ordered := s.ordered[..n + 1]);
    forall j {:trigger s.ordered[j]} | 0 <= j < n + 1
      ensures DecidedAs(decisions', s.ordered[j], now.FirstReason(s.ordered[j]))
    {
      if j < n {
        EarlierTicket(s, n, decisions, seenPlayers, j);
      } else {
        NewTicket(s, n, decisions, seenPlayers);
      }
    }
    forall id | id in decisions' ensures id in IdsOf(s.ordered[..n + 1]) {
      DecidesSeen(s, n, decisions, seenPlayers, id);
    }
  }

  lemma DecidesSeen(s: Search, n: nat, decisions: map<Id, Decision>, seenPlayers: map<Id, Id>, id: Id)
    requires n < |s.ordered| && SeenFirst(s, n, seenPlayers)
    requires id in decisions ==> id in IdsOf(s.ordered[..n])
    requires id in Pass(s, n, decisions, seenPlayers).0
    ensures id in IdsOf(s.ordered[..n + 1])
  {
    if id in decisions {
      var t :| t in s.ordered[..n] && t.id == id;
      InLonger(s.ordered, n, t);
    } else if id == s.ordered[n].id {
      assert s.ordered[..n + 1][n] == s.ordered[n];
    } else {
      var j :| 0 <= j < n && s.ordered[j].id == id;
      assert s.ordered[..n + 1][j] == s.ordered[j];
    }
  }

  lemma InLonger<T>(s: seq<T>, n: nat, x: T)
    requires n < |s| && x in s[..n]
    ensures x in s[..n + 1]
  {
    var i :| 0 <= i < n && s[..n][i] == x;
    assert s[..n + 1][i] == x;
  }

  lemma EarlierTicket(s: Search, n: nat, decisions: map<Id, Decision>, seenPlayers: map<Id, Id>, j: nat)
    requires j < n < |s.ordered| && DistinctIds(s.ordered) && Passed(s, n, decisions) && SeenFirst(s, n, seenPlayers)
    ensures DecidedAs(Pass(s, n, decisions, seenPlayers).0, s.ordered[j],
                      s.(ordered := s.ordered[..n + 1]).FirstReason(s.ordered[j]))
  {
    var t, u := s.ordered[n], s.ordered[j];
    TwinsGrow(s, n, u);
    assert DecidedAs(decisions, u, s.(ordered := s.ordered[..n]).FirstReason(u));
    if t.id in s.queued && t.player in seenPlayers {
      PreviousOrTwin(s, n, seenPlayers, j);
    } else if t.id in s.queued && u.id in s.queued {
      assert s.ordered[j].player in seenPlayers;
    }
    var before, after := s.(ordered := s.ordered[..n]).HasTwin(u), s.(ordered := s.ordered[..n + 1]).HasTwin(u);
    DecidedEarlier(s, n, decisions, seenPlayers, u, before, after);
  }

  function ReasonFor(queued: bool, twin: bool): Option<Reason> {
    if !queued then Some(TicketNotQueued) else if twin then Some(DuplicatePlayer) else None
  }

  lemma DecidedEarlier(s: Search, n: nat, decisions: map<Id, Decision>, seenPlayers: map<Id, Id>, u: Profile,
                       before: bool, after: bool)
    requires n < |s.ordered| && u.id != s.ordered[n].id
    requires DecidedAs(decisions, u, ReasonFor(u.id in s.queued, before))
    requires after <==> before || (s.ordered[n].id in s.queued && s.ordered[n].player == u.player)
    requires s.ordered[n].id in s.queued && s.ordered[n].player in seenPlayers ==>
               if u.id in s.queued && u.player == s.ordered[n].player then u.id == seenPlayers[s.ordered[n].player]
                 || before
               else u.id != seenPlayers[s.ordered[n].player]
    requires s.ordered[n].player !in seenPlayers && s.ordered[n].id in s.queued && u.id in s.queued ==>
               u.player != s.ordered[n].player
    ensures DecidedAs(Pass(s, n, decisions, seenPlayers).0, u, ReasonFor(u.id in s.queued, after))
  {
  }

  // An earlier queued ticket of the player is the first one, or already has a twin.
  lemma PreviousOrTwin(s: Search, n: nat, seenPlayers: map<Id, Id>, j: nat)
    requires j < n < |s.ordered| && DistinctIds(s.ordered) && SeenFirst(s, n, seenPlayers)
             && s.ordered[n].player in seenPlayers
    ensures var u, previous := s.ordered[j], seenPlayers[s.ordered[n].player];
            if u.id in s.queued && u.player == s.ordered[n].player then u.id == previous
              || s.(ordered := s.ordered[..n]).HasTwin(u)
            else u.id != previous
  {
    var t, u := s.ordered[n], s.ordered[j];
    var k :| 0 <= k < n && s.ordered[k].id == seenPlayers[t.player] && s.ordered[k].player == t.player
      && s.ordered[k].id in s.queued;
    if k != j {
      assert s.ordered[k].id != u.id;
      assert s.ordered[..n][k] in s.ordered[..n];
    }
  }

  lemma NewTicket(s: Search, n: nat, decisions: map<Id, Decision>, seenPlayers: map<Id, Id>)
    requires n < |s.ordered| && DistinctIds(s.ordered) && Passed(s, n, decisions) && SeenFirst(s, n, seenPlayers)
    ensures DecidedAs(Pass(s, n, decisions, seenPlayers).0, s.ordered[n],
                      s.(ordered := s.ordered[..n + 1]).FirstReason(s.ordered[n]))
  {
    var t := s.ordered[n];
    TwinsGrow(s, n, t);
    IdIsNew(s.ordered, n);
    if t.id in s.queued {
      TwinWasSeen(s, n, seenPlayers);
    }
  }

  lemma IdIsNew(ordered: seq<Profile>, n: nat)
    requires n < |ordered| && DistinctIds(ordered)
    ensures ordered[n].id !in IdsOf(ordered[..n])
  {
    forall v | v in ordered[..n] ensures v.id != ordered[n].id {
      var k :| 0 <= k < n && ordered[..n][k] == v;
      assert ordered[k].id != ordered[n].id;
    }
  }

  lemma TwinWasSeen(s: Search, n: nat, seenPlayers: map<Id, Id>)
    requires n < |s.ordered| && DistinctIds(s.ordered) && SeenFirst(s, n, seenPlayers)
    ensures s.ordered[n].player in seenPlayers <==> s.(ordered := s.ordered[..n]).HasTwin(s.ordered[n])
  {
    if s.ordered[n].player in seenPlayers {
      SeenIsTwin(s, n, seenPlayers);
    } else if s.(ordered := s.ordered[..n]).HasTwin(s.ordered[n]) {
      TwinIsSeen(s, n, seenPlayers);
    }
  }

  lemma SeenIsTwin(s: Search, n: nat, seenPlayers: map<Id, Id>)
    requires n < |s.ordered| && DistinctIds(s.ordered) && SeenFirst(s, n, seenPlayers)
    requires s.ordered[n].player in seenPlayers
    ensures s.(ordered := s.ordered[..n]).HasTwin(s.ordered[n])
  {
    var t := s.ordered[n];
    IdIsNew(s.ordered, n);
    var k :| 0 <= k < n && s.ordered[k].id == seenPlayers[t.player] && s.ordered[k].player == t.player
      && s.ordered[k].id in s.queued;
    var v := s.ordered[..n][k];
    assert v in s.ordered[..n] && v.id in IdsOf(s.ordered[..n]);
  }

  lemma TwinIsSeen(s: Search, n: nat, seenPlayers: map<Id, Id>)
    requires n < |s.ordered| && SeenFirst(s, n, seenPlayers)
    requires s.(ordered := s.ordered[..n]).HasTwin(s.ordered[n])
    ensures s.ordered[n].player in seenPlayers
  {
    forall v | v in s.ordered[..n] && v.id in s.queued ensures v.player in seenPlayers {
      var k :| 0 <= k < n && s.ordered[..n][k] == v;
      assert s.ordered[k].player in seenPlayers;
    }
  }

  method FirstPass(s: Search) returns (decisions: map<Id, Decision>)
    requires DistinctIds(s.ordered)
    ensures Passed(s, |s.ordered|, decisions)
  {
    decisions := map[];
    var seenPlayers: map<Id, Id> := map[];
    for n := 0 to |s.ordered|
      invariant Passed(s, n, decisions) && SeenFirst(s, n, seenPlayers)
    {
      PassedOneMore(s, n, decisions, seenPlayers);
      SeenOneMore(s, n, decisions, seenPlayers);
      var t := s.ordered[n];
      if t.id !in s.queued {
        decisions := decisions[t.id := Decision(t.id, false, TicketNotQueued)];
      } else if t.player in seenPlayers {
        var previous := seenPlayers[t.player];
        decisions := decisions[t.id := Decision(t.id, false, DuplicatePlayer)];
        decisions := decisions[previous := Decision(previous, false, DuplicatePlayer)];
      } else {
        seenPlayers := seenPlayers[t.player := t.id];
      }
    }
  }

  // The decisions when the first k parties have been dealt with.
  ghost predicate Decided(s: Search, groups: seq<Group>, k: nat, decisions: map<Id, Decision>) {
    forall t {:trigger KeyOf(t)} :: t in s.ordered ==>
      Find(groups, KeyOf(t)) < |groups|
      && if Find(groups, KeyOf(t)) < k then t.id in decisions && decisions[t.id] == s.DecisionOf(groups, t)
         else DecidedAs(decisions, t, s.FirstReason(t))
  }

  lemma AfterFirstPass(s: Search, decisions: map<Id, Decision>)
    requires Passed(s, |s.ordered|, decisions)
    ensures Decided(s, s.Groups(), 0, decisions)
  {
    assert s.ordered[..|s.ordered|] == s.ordered;
    forall t | t in s.ordered
      ensures Find(s.Groups(), KeyOf(t)) < |s.Groups()| && DecidedAs(decisions, t, s.FirstReason(t))
    {
      GroupOf(s, t);
      var j :| 0 <= j < |s.ordered| && s.ordered[j] == t;
    }
  }

  method SecondPass(s: Search, groups: seq<Group>, first: map<Id, Decision>)
    returns (taken: seq<Profile>, decisions: map<Id, Decision>)
    requires DistinctIds(s.ordered) && groups == s.Groups() && Passed(s, |s.ordered|, first)
    ensures taken == AllTaken(s) && Decided(s, groups, |groups|, decisions)
  {
    taken, decisions := [], first;
    AfterFirstPass(s, first);
    for k := 0 to |groups|
      invariant taken == s.Taken(groups, k) && Decided(s, groups, k, decisions)
    {
      taken, decisions := DecideParty(s, groups, k, taken, decisions);
    }
  }

  // The loop's body.
  method DecideParty(s: Search, groups: seq<Group>, k: nat, before: seq<Profile>, undecided: map<Id, Decision>)
    returns (taken: seq<Profile>, decisions: map<Id, Decision>)
    requires DistinctIds(s.ordered) && groups == s.Groups() && k < |groups|
    requires before == s.Taken(groups, k) && Decided(s, groups, k, undecided)
    ensures taken == s.Taken(groups, k + 1) && Decided(s, groups, k + 1, decisions)
  {
    PartyUndecided(s, groups, k, undecided);
    var reason := GroupRejectionReason(s, groups[k].tickets, undecided);
    if reason.None? && |before| + |groups[k].tickets| > s.limit {
      reason := Some(CandidateLimit);
    }
    TakenOneMore(s, groups, k);
    taken := if reason.None? then before + groups[k].tickets else before;
    decisions := Record(groups[k].tickets, reason, undecided);
    PartyDecided(s, groups, k, undecided, decisions);
  }

  lemma TakenOneMore(s: Search, groups: seq<Group>, k: nat)
    requires k < |groups|
    ensures s.Taken(groups, k + 1) ==
            if s.Rejection(groups, k).None? then s.Taken(groups, k) + groups[k].tickets else s.Taken(groups, k)
  {
    assert k + 1 != 0;
  }

  lemma PartyUndecided(s: Search, groups: seq<Group>, k: nat, decisions: map<Id, Decision>)
    requires groups == s.Groups() && k < |groups| && Decided(s, groups, k, decisions)
    ensures forall t :: t in groups[k].tickets ==> t in s.ordered && DecidedAs(decisions, t, s.FirstReason(t))
  {
    SearchedIsGrouped(s.ordered, s.anchor.id);
    forall t | t in groups[k].tickets ensures t in s.ordered && DecidedAs(decisions, t, s.FirstReason(t)) {
      InFlatten(groups, k, t);
      MemberOfPermutation(Flatten(groups), s.ordered, t);
      GroupOf(s, t);
    }
  }

  // What Record does to the decisions of a party.
  ghost predicate Recorded(tickets: seq<Profile>, reason: Option<Reason>, before: map<Id, Decision>,
                           after: map<Id, Decision>)
  {
    && (forall id :: id in before && id !in IdsOf(tickets) ==> id in after && after[id] == before[id])
    && (forall id :: id in after ==> id in before || id in IdsOf(tickets))
    && forall t {:trigger t in tickets} :: t in tickets ==>
         t.id in after && after[t.id] ==
           match reason
           case None => Decision(t.id, true, Accepted)
           case Some(why) => if t.id in before then before[t.id] else Decision(t.id, false, why)
  }

  lemma PartyDecided(s: Search, groups: seq<Group>, k: nat, before: map<Id, Decision>, after: map<Id, Decision>)
    requires DistinctIds(s.ordered) && groups == s.Groups() && k < |groups| && Decided(s, groups, k, before)
    requires Recorded(groups[k].tickets, s.Rejection(groups, k), before, after)
    ensures Decided(s, groups, k + 1, after)
  {
    PartyUndecided(s, groups, k, before);
    forall t | t in s.ordered
      ensures Find(groups, KeyOf(t)) < |groups|
      ensures if Find(groups, KeyOf(t)) < k + 1 then t.id in after && after[t.id] == s.DecisionOf(groups, t)
              else DecidedAs(after, t, s.FirstReason(t))
    {
      GroupOf(s, t);
      if Find(groups, KeyOf(t)) == k {
        assert t in groups[k].tickets;
        if s.Rejection(groups, k).None? {
          PartyReasonIsNone(s, groups[k].tickets);
          NoReasonIsEligible(s, t);
        }
      } else if t.id in IdsOf(groups[k].tickets) {
        var u :| u in groups[k].tickets && u.id == t.id;
        SameById(s.ordered, t, u);
      }
    }
  }

  method GroupRejectionReason(s: Search, tickets: seq<Profile>, decisions: map<Id, Decision>)
    returns (reason: Option<Reason>)
    requires forall t :: t in tickets ==> DecidedAs(decisions, t, s.FirstReason(t))
    ensures reason == s.PartyReason(tickets)
  {
    for n := 0 to |tickets|
      invariant s.PartyReason(tickets[..n]) == None
    {
      var t := tickets[n];
      assert tickets[..n + 1][..n] == tickets[..n];
      PartyReasonStays(s, tickets, n + 1, |tickets|);
      assert tickets[..|tickets|] == tickets;
      assert DecidedAs(decisions, t, s.FirstReason(t));
      if t.id in decisions && !decisions[t.id].accepted {
        return Some(decisions[t.id].reason);
      }
      var mismatch := s.Mismatch(t);
      if mismatch.Some? {
        return mismatch;
      }
    }
    assert tickets[..|tickets|] == tickets;
    return None;
  }

  lemma {:induction false} PartyReasonStays(s: Search, tickets: seq<Profile>, i: nat, n: nat)
    requires i <= n <= |tickets|
    ensures s.PartyReason(tickets[..i]).Some? ==> s.PartyReason(tickets[..n]) == s.PartyReason(tickets[..i])
  {
    if i < n {
      assert tickets[..n][..n - 1] == tickets[..n - 1];
      PartyReasonStays(s, tickets, i, n - 1);
    }
  }

  method Record(tickets: seq<Profile>, reason: Option<Reason>, before: map<Id, Decision>)
    returns (after: map<Id, Decision>)
    ensures Recorded(tickets, reason, before, after)
  {
    after := before;
    for n := 0 to |tickets|
      invariant Recorded(tickets[..n], reason, before, after)
    {
      var t := tickets[n];
      assert tickets[..n + 1] == tickets[..n] + [t];
      assert IdsOf(tickets[..n + 1]) == IdsOf(tickets[..n]) + {t.id};
      if reason.None? {
        after := after[t.id := Decision(t.id, true, Accepted)];
      } else if t.id !in after {
        after := after[t.id := Decision(t.id, false, reason.value)];
      }
    }
    assert tickets[..|tickets|] == tickets;
  }

  method ListDecisions(s: Search, groups: seq<Group>, decisions: map<Id, Decision>) returns (listed: seq<Decision>)
    requires groups == s.Groups() && Decided(s, groups, |groups|, decisions)
    ensures Covered(s) && listed == Decisions(s)
  {
    IsCovered(s);
    listed := [];
    for n := 0 to |s.ordered|
      invariant |listed| == n && forall i :: 0 <= i < n ==> listed[i] == s.DecisionOf(groups, s.ordered[i])
    {
      var t := s.ordered[n];
      assert t in s.ordered && KeyOf(t) == KeyOf(s.ordered[n]);
      listed := listed + [if t.id in decisions then decisions[t.id] else Decision(t.id, false, CandidateLimit)];
    }
    assert listed == Decisions(s);
  }
}
