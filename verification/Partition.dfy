/**
  Splitting the chosen groups into two teams by bit masks: `balancedPartition`
  (internal/matchmaking/engine/team.go, lines 119-158) and the enumeration that
  `visitPartitions` shares with it (internal/matchmaking/engine/beam.go, lines 236-262).
*/
module Partition {
  import opened Prelude
  import opened Sorting
  import opened Tickets
  import opened Groups
  import opened TeamBuilding

  function Pow2(n: nat): (r: nat)
    ensures r >= 1
  {
    if n == 0 then 1 else 2 * Pow2(n - 1)
  }

  // The bit that balancedPartition and visitPartitions test with mask & (1 << index).
  predicate Bit(mask: nat, index: nat) {
    if index == 0 then mask % 2 == 1 else Bit(mask / 2, index - 1)
  }

  // The low n bits of a mask, lowest first: true puts the group into team A.
  function Choice(mask: nat, n: nat): (c: seq<bool>)
    ensures |c| == n
  {
    if n == 0 then [] else [mask % 2 == 1] + Choice(mask / 2, n - 1)
  }

  function MaskOf(c: seq<bool>): (mask: nat)
    ensures mask < Pow2(|c|)
  {
    if c == [] then 0 else (if c[0] then 1 else 0) + 2 * MaskOf(c[1..])
  }

  lemma {:induction false} ChoiceOfMask(c: seq<bool>)
    ensures Choice(MaskOf(c), |c|) == c
  {
    if c != [] {
      ChoiceOfMask(c[1..]);
      assert MaskOf(c) / 2 == MaskOf(c[1..]);
    }
  }

  lemma {:induction false} MaskOfChoice(mask: nat, n: nat)
    requires mask < Pow2(n)
    ensures MaskOf(Choice(mask, n)) == mask
  {
    if n > 0 {
      MaskOfChoice(mask / 2, n - 1);
      assert Choice(mask, n)[1..] == Choice(mask / 2, n - 1);
    }
  }

  lemma {:induction false} ChoiceIsBits(mask: nat, n: nat, index: nat)
    requires index < n
    ensures Choice(mask, n)[index] == Bit(mask, index)
  {
    if index > 0 {
      ChoiceIsBits(mask / 2, n - 1, index - 1);
    }
  }

  // The groups on one side of a choice, in order.
  function Pick(groups: seq<Group>, c: seq<bool>, side: bool): seq<Group>
    requires |groups| == |c|
  {
    if groups == [] then []
    else
      var init := Pick(groups[..|groups| - 1], c[..|c| - 1], side);
      if c[|c| - 1] == side then init + [groups[|groups| - 1]] else init
  }

  function PlayerCount(groups: seq<Group>): nat {
    if groups == [] then 0 else PlayerCount(groups[..|groups| - 1]) + |groups[|groups| - 1].tickets|
  }

  ghost predicate Balanced(groups: seq<Group>, c: seq<bool>, teamSize: nat) {
    && |c| == |groups| > 0 && c[0]
    && PlayerCount(Pick(groups, c, true)) == teamSize
    && PlayerCount(Pick(groups, c, false)) == teamSize
  }

  function Difference(groups: seq<Group>, c: seq<bool>): real
    requires |groups| == |c|
  {
    var d := RatingTotal(Flatten(Pick(groups, c, true))) - RatingTotal(Flatten(Pick(groups, c, false)));
    if d < 0.0 then -d else d
  }

  predicate IdLess(a: Id, b: Id) {
    a < b
  }

  function Players(tickets: seq<Profile>): seq<Id> {
    seq(|tickets|, i requires 0 <= i < |tickets| => tickets[i].player)
  }

  // The sorted player ids; joining them with a separator keeps their lexicographic order.
  function Signature(groups: seq<Group>): seq<Id> {
    StableSort(IdLess, Players(Flatten(groups)))
  }

  predicate SignatureLess(a: seq<Id>, b: seq<Id>) {
    if b == [] then false
    else if a == [] then true
    else if a[0] != b[0] then a[0] < b[0]
    else SignatureLess(a[1..], b[1..])
  }

  lemma {:induction false} SignatureLessTransitive(a: seq<Id>, b: seq<Id>, c: seq<Id>)
    requires SignatureLess(a, b) && SignatureLess(b, c)
    ensures SignatureLess(a, c)
  {
    if a != [] && a[0] == b[0] == c[0] {
      SignatureLessTransitive(a[1..], b[1..], c[1..]);
    }
  }

  lemma {:induction false} SignatureLessIrreflexive(a: seq<Id>)
    ensures !SignatureLess(a, a)
  {
    if a != [] {
      SignatureLessIrreflexive(a[1..]);
    }
  }

  // c is no worse than d: a smaller rating gap, or the same gap and no larger signature.
  ghost predicate AtLeastAsGood(groups: seq<Group>, c: seq<bool>, d: seq<bool>)
    requires |groups| == |c| == |d|
  {
    || Difference(groups, c) < Difference(groups, d)
    || (Difference(groups, c) == Difference(groups, d)
        && !SignatureLess(Signature(Pick(groups, d, true)), Signature(Pick(groups, c, true))))
  }

  ghost predicate Unsplittable(groups: seq<Group>, teamSize: nat) {
    forall c :: !Balanced(groups, c, teamSize)
  }

  ghost predicate BestSplit(groups: seq<Group>, teamSize: nat, c: seq<bool>) {
    && Balanced(groups, c, teamSize)
    && forall d :: Balanced(groups, d, teamSize) ==> AtLeastAsGood(groups, c, d)
  }

  // The inner loop: distribute the groups of one mask.
  method Distribute(groups: seq<Group>, mask: nat)
    returns (teamA: seq<Group>, teamB: seq<Group>, playersA: nat)
    ensures teamA == Pick(groups, Choice(mask, |groups|), true)
    ensures teamB == Pick(groups, Choice(mask, |groups|), false)
    ensures playersA == PlayerCount(teamA)
  {
    teamA, teamB, playersA := [], [], 0;
    ghost var c := Choice(mask, |groups|);
    for index := 0 to |groups|
      invariant teamA == Pick(groups[..index], c[..index], true)
      invariant teamB == Pick(groups[..index], c[..index], false)
      invariant playersA == PlayerCount(teamA)
    {
      PickOneMore(groups, c, index);
      ChoiceIsBits(mask, |groups|, index);
      if Bit(mask, index) {
        CountOneMore(teamA, groups[index]);
        teamA := teamA + [groups[index]];
        playersA := playersA + |groups[index].tickets|;
      } else {
        teamB := teamB + [groups[index]];
      }
    }
    assert groups[..|groups|] == groups && c[..|groups|] == c;
  }

  lemma PickOneMore(groups: seq<Group>, c: seq<bool>, n: nat)
    requires |c| == |groups| && n < |groups|
    ensures forall side :: Pick(groups[..n + 1], c[..n + 1], side) ==
              if c[n] == side then Pick(groups[..n], c[..n], side) + [groups[n]] else Pick(groups[..n], c[..n], side)
  {
    assert groups[..n + 1][..n] == groups[..n] && c[..n + 1][..n] == c[..n];
  }

  lemma CountOneMore(groups: seq<Group>, g: Group)
    ensures PlayerCount(groups + [g]) == PlayerCount(groups) + |g.tickets|
  {
    assert (groups + [g])[..|groups|] == groups;
  }

  datatype Candidate = Candidate(teamA: seq<Group>, teamB: seq<Group>, difference: real, signature: seq<Id>)

  // The best-so-far variables describe the best balanced choice with a mask below the given one.
  function CandidateOf(groups: seq<Group>, c: seq<bool>): Candidate
    requires |c| == |groups|
  {
    Candidate(Pick(groups, c, true), Pick(groups, c, false), Difference(groups, c), Signature(Pick(groups, c, true)))
  }

  ghost predicate BestBelow(groups: seq<Group>, teamSize: nat, limit: nat, best: Option<Candidate>, c: seq<bool>) {
    match best
    case None =>
      forall m :: 0 <= m < limit ==> !Balanced(groups, Choice(m, |groups|), teamSize)
    case Some(k) =>
      && Balanced(groups, c, teamSize)
      && k == CandidateOf(groups, c)
      && forall m :: 0 <= m < limit && Balanced(groups, Choice(m, |groups|), teamSize) ==>
           AtLeastAsGood(groups, c, Choice(m, |groups|))
  }

  /** Fails iff there is no split into two teams of the size; otherwise returns a best one. */
  method BalancedPartition(groups: seq<Group>, teamSize: nat)
    returns (r: Result<(seq<Group>, seq<Group>), TeamError>, ghost choice: seq<bool>)
    requires teamSize > 0
    ensures r.Err? ==> r.error == NoValidTeamSplit
    ensures r.Err? <==> |groups| >= 63 || Unsplittable(groups, teamSize)
    ensures r.Ok? ==> BestSplit(groups, teamSize, choice)
    ensures r.Ok? ==> r.value == (Pick(groups, choice, true), Pick(groups, choice, false))
  {
    choice := [];
    if |groups| == 0 || |groups| >= 63 {
      return Err(NoValidTeamSplit), choice;
    }
    var best: Option<Candidate> := None;
    var limit := Pow2(|groups|);
    var mask := 1;
    EvenMask(groups, teamSize, 0);
    while mask < limit
      invariant 1 <= mask <= limit
      invariant BestBelow(groups, teamSize, mask, best, choice)
    {
      best, choice := ConsiderMask(groups, teamSize, mask, best, choice);
      mask := mask + 1;
    }
    AllChoicesSeen(groups, teamSize, best, choice);
    match best
    case None => r := Err(NoValidTeamSplit);
    case Some(k) => r := Ok((k.teamA, k.teamB));
  }

  lemma EvenMask(groups: seq<Group>, teamSize: nat, mask: nat)
    requires mask % 2 == 0
    ensures !Balanced(groups, Choice(mask, |groups|), teamSize)
  {
  }

  // The body of the loop over the masks; those without the first group are passed over.
  method ConsiderMask(groups: seq<Group>, teamSize: nat, mask: nat, best: Option<Candidate>, ghost choice: seq<bool>)
    returns (best': Option<Candidate>, ghost choice': seq<bool>)
    requires teamSize > 0 && |groups| > 0 && BestBelow(groups, teamSize, mask, best, choice)
    ensures BestBelow(groups, teamSize, mask + 1, best', choice')
  {
    if mask % 2 == 0 {
      EvenMask(groups, teamSize, mask);
      PassOver(groups, teamSize, mask, best, choice);
      return best, choice;
    }
    best', choice' := Consider(groups, teamSize, mask, best, choice);
  }

  method Consider(groups: seq<Group>, teamSize: nat, mask: nat, best: Option<Candidate>, ghost choice: seq<bool>)
    returns (best': Option<Candidate>, ghost choice': seq<bool>)
    requires teamSize > 0 && |groups| > 0 && mask % 2 == 1 && BestBelow(groups, teamSize, mask, best, choice)
    ensures BestBelow(groups, teamSize, mask + 1, best', choice')
  {
    best', choice' := best, choice;
    ghost var c := Choice(mask, |groups|);
    var teamA, teamB, playersA := Distribute(groups, mask);
    if playersA != teamSize || PlayerCount(teamB) != teamSize {
      PassOver(groups, teamSize, mask, best, choice);
      return;
    }
    var d := RatingTotal(Flatten(teamA)) - RatingTotal(Flatten(teamB));
    var difference := if d < 0.0 then -d else d;
    var candidate := Candidate(teamA, teamB, difference, Signature(teamA));
    assert candidate == CandidateOf(groups, c);
    if Improves(best, candidate) {
      ReplaceBest(groups, teamSize, mask, best, choice, c);
      best', choice' := Some(candidate), c;
    } else {
      KeepBest(groups, teamSize, mask, best, choice, c);
    }
  }

  // The smaller difference wins, then the smaller signature.
  predicate Improves(best: Option<Candidate>, candidate: Candidate) {
    best.None? || candidate.difference < best.value.difference
    || (candidate.difference == best.value.difference
        && (best.value.signature == [] || SignatureLess(candidate.signature, best.value.signature)))
  }

  lemma PassOver(groups: seq<Group>, teamSize: nat, mask: nat, best: Option<Candidate>, old_: seq<bool>)
    requires BestBelow(groups, teamSize, mask, best, old_) && !Balanced(groups, Choice(mask, |groups|), teamSize)
    ensures BestBelow(groups, teamSize, mask + 1, best, old_)
  {
  }

  lemma KeepBest(groups: seq<Group>, teamSize: nat, mask: nat, best: Option<Candidate>, old_: seq<bool>, c: seq<bool>)
    requires c == Choice(mask, |groups|) && BestBelow(groups, teamSize, mask, best, old_)
    requires !Improves(best, CandidateOf(groups, c))
    ensures BestBelow(groups, teamSize, mask + 1, best, old_)
  {
    assert AtLeastAsGood(groups, old_, c);
  }

  lemma ReplaceBest(groups: seq<Group>, teamSize: nat, mask: nat, best: Option<Candidate>, old_: seq<bool>,
                    c: seq<bool>)
    requires teamSize > 0 && c == Choice(mask, |groups|) && Balanced(groups, c, teamSize)
    requires BestBelow(groups, teamSize, mask, best, old_) && Improves(best, CandidateOf(groups, c))
    ensures BestBelow(groups, teamSize, mask + 1, Some(CandidateOf(groups, c)), c)
  {
    BeatsEarlier(groups, teamSize, mask, best, old_, c);
    SignatureLessIrreflexive(Signature(Pick(groups, c, true)));
  }

  lemma BeatsEarlier(groups: seq<Group>, teamSize: nat, mask: nat, best: Option<Candidate>, old_: seq<bool>,
                     c: seq<bool>)
    requires teamSize > 0 && |c| == |groups|
    requires BestBelow(groups, teamSize, mask, best, old_) && Improves(best, CandidateOf(groups, c))
    ensures forall m :: 0 <= m < mask && Balanced(groups, Choice(m, |groups|), teamSize) ==>
              AtLeastAsGood(groups, c, Choice(m, |groups|))
  {
    var sig := Signature(Pick(groups, c, true));
    SignatureLessIrreflexive(sig);
    if best.Some? {
      SignatureNotEmpty(Pick(groups, old_, true));
    }
    forall m | 0 <= m < mask && Balanced(groups, Choice(m, |groups|), teamSize)
      ensures AtLeastAsGood(groups, c, Choice(m, |groups|))
    {
      var d := Choice(m, |groups|);
      assert AtLeastAsGood(groups, old_, d);
      var other := Signature(Pick(groups, d, true));
      if SignatureLess(other, sig) && SignatureLess(sig, best.value.signature) {
        SignatureLessTransitive(other, sig, best.value.signature);
      }
    }
  }

  lemma {:induction false} FlattenCount(groups: seq<Group>)
    ensures |Flatten(groups)| == PlayerCount(groups)
  {
    if groups != [] {
      var n := |groups| - 1;
      FlattenCount(groups[..n]);
    }
  }

  lemma SignatureNotEmpty(groups: seq<Group>)
    requires PlayerCount(groups) > 0
    ensures Signature(groups) != []
  {
    FlattenCount(groups);
    SortPermutes(IdLess, Players(Flatten(groups)));
  }

  lemma AllChoicesSeen(groups: seq<Group>, teamSize: nat, best: Option<Candidate>, choice: seq<bool>)
    requires BestBelow(groups, teamSize, Pow2(|groups|), best, choice)
    ensures best.None? <==> Unsplittable(groups, teamSize)
    ensures best.Some? ==> BestSplit(groups, teamSize, choice)
  {
    forall c | Balanced(groups, c, teamSize)
      ensures best.Some? && AtLeastAsGood(groups, choice, c)
    {
      ChoiceOfMask(c);
      assert Choice(MaskOf(c), |groups|) == c;
    }
  }

  // The balanced choices with masks below limit, in the order of visitPartitions.
  ghost function Splits(groups: seq<Group>, teamSize: nat, limit: nat): seq<seq<bool>> {
    if limit == 0 then []
    else
      var c := Choice(limit - 1, |groups|);
      if Balanced(groups, c, teamSize) then Splits(groups, teamSize, limit - 1) + [c]
      else Splits(groups, teamSize, limit - 1)
  }

  ghost function AllSplits(groups: seq<Group>, teamSize: nat): seq<seq<bool>> {
    Splits(groups, teamSize, Pow2(|groups|))
  }

  ghost predicate HasMaskBelow(c: seq<bool>, limit: nat) {
    exists m :: 0 <= m < limit && Choice(m, |c|) == c
  }

  lemma MaskBelowNext(c: seq<bool>, limit: nat)
    ensures HasMaskBelow(c, limit + 1) <==> HasMaskBelow(c, limit) || Choice(limit, |c|) == c
  {
    if HasMaskBelow(c, limit + 1) && !HasMaskBelow(c, limit) {
      var m :| 0 <= m < limit + 1 && Choice(m, |c|) == c;
      assert m == limit;
    }
  }

  lemma SplitsNext(groups: seq<Group>, teamSize: nat, limit: nat, c: seq<bool>)
    ensures c in Splits(groups, teamSize, limit + 1) <==>
              c in Splits(groups, teamSize, limit) || (c == Choice(limit, |groups|) && Balanced(groups, c, teamSize))
  {
    var last := Choice(limit, |groups|);
    var added := if Balanced(groups, last, teamSize) then [last] else [];
    assert Splits(groups, teamSize, limit + 1) == Splits(groups, teamSize, limit) + added;
  }

  // The choice is among the splits; a name of its own keeps the induction light.
  ghost predicate Listed(groups: seq<Group>, teamSize: nat, limit: nat, c: seq<bool>) {
    c in Splits(groups, teamSize, limit)
  }

  lemma ListedNext(groups: seq<Group>, teamSize: nat, limit: nat, c: seq<bool>)
    requires Listed(groups, teamSize, limit, c) <==> Balanced(groups, c, teamSize) && HasMaskBelow(c, limit)
    ensures Listed(groups, teamSize, limit + 1, c) <==> Balanced(groups, c, teamSize) && HasMaskBelow(c, limit + 1)
  {
    SplitsNext(groups, teamSize, limit, c);
    MaskBelowNext(c, limit);
    if Balanced(groups, c, teamSize) {
      assert Choice(limit, |c|) == Choice(limit, |groups|);
    }
  }

  lemma {:induction false} SplitsMembers(groups: seq<Group>, teamSize: nat, limit: nat, c: seq<bool>)
    ensures Listed(groups, teamSize, limit, c) <==> Balanced(groups, c, teamSize) && HasMaskBelow(c, limit)
  {
    if limit > 0 {
      SplitsMembers(groups, teamSize, limit - 1, c);
      ListedNext(groups, teamSize, limit - 1, c);
    }
  }

  lemma {:induction false} SplitsDistinct(groups: seq<Group>, teamSize: nat, limit: nat)
    requires limit <= Pow2(|groups|)
    ensures Distinct(Splits(groups, teamSize, limit))
  {
    if limit > 0 {
      var c := Choice(limit - 1, |groups|);
      SplitsDistinct(groups, teamSize, limit - 1);
      SplitsMembers(groups, teamSize, limit - 1, c);
      MasksDiffer(limit - 1, |groups|);
    }
  }

  lemma MasksDiffer(mask: nat, n: nat)
    requires mask < Pow2(n)
    ensures !HasMaskBelow(Choice(mask, n), mask)
  {
    if HasMaskBelow(Choice(mask, n), mask) {
      var m :| 0 <= m < mask && Choice(m, n) == Choice(mask, n);
      MaskOfChoice(m, n);
      MaskOfChoice(mask, n);
    }
  }

  /** visitPartitions visits every split with the first group in team A exactly once and nothing else. */
  lemma SplitsExactlyOnce(groups: seq<Group>, teamSize: nat, c: seq<bool>)
    ensures multiset(AllSplits(groups, teamSize))[c] == if Balanced(groups, c, teamSize) then 1 else 0
  {
    SplitsDistinct(groups, teamSize, Pow2(|groups|));
    DistinctCount(AllSplits(groups, teamSize));
    SplitsMembers(groups, teamSize, Pow2(|groups|), c);
    if Balanced(groups, c, teamSize) {
      ChoiceOfMask(c);
      assert HasMaskBelow(c, Pow2(|groups|));
    }
  }
}
