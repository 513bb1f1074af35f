/**
  The beam search over sets of groups (`beamCandidateSets`,
  internal/matchmaking/engine/beam.go, lines 147-209).
*/
module Beam {
  import opened Prelude
  import opened Sorting
  import opened Tickets
  import opened Groups
  import opened TeamBuilding
  import opened Selection
  import opened Partition

  // subsetState, with the positions of its groups in place of the groups.
  datatype State = State(chosen: seq<nat>, players: nat, ageCost: nat, score: real, signature: seq<Id>)

  // subsetHeuristic and subsetSignature as functions of the chosen groups, and the library's stable sort of the states.
  datatype Ranking = Ranking(
    heuristic: (seq<nat>, nat, nat) -> real,
    signature: seq<nat> -> seq<Id>,
    sort: seq<State> -> seq<State>)
  {
    ghost predicate Sorts() {
      forall states :: SortedTo(states, sort(states))
    }
  }

  // What sort.SliceStable promises: a rearrangement, and the ascending one where the comparator is an order.
  ghost predicate SortedTo(states: seq<State>, sorted: seq<State>) {
    && multiset(sorted) == multiset(states)
    && (Distinct(states) && Linear(Ahead, multiset(states)) ==> Ascending(Ahead, sorted))
  }

  const TOLERANCE := 0.000000001

  // The insertion sort is one such sort.
  lemma StableSortSorts(states: seq<State>)
    ensures SortedTo(states, StableSort(Ahead, states))
  {
    SortPermutes(Ahead, states);
    if Distinct(states) && Linear(Ahead, multiset(states)) {
      SortAscending(Ahead, states);
    }
  }

  function AbsoluteGap(a: real, b: real): real {
    if a < b then b - a else a - b
  }

  // The comparator of the sort.  It is not transitive, so the outcome of the sort is left open.
  predicate Ahead(a: State, b: State) {
    if AbsoluteGap(a.score, b.score) > TOLERANCE then a.score > b.score else SignatureLess(a.signature, b.signature)
  }

  // Players in the groups from position i on.
  function Remaining(sizes: seq<nat>, i: nat): nat
    requires i <= |sizes|
    decreases |sizes| - i
  {
    if i == |sizes| then 0 else sizes[i] + Remaining(sizes, i + 1)
  }

  // The anchor's group fits, and with all the others the target can be reached.
  predicate CanFill(sizes: seq<nat>, target: nat) {
    sizes != [] && sizes[0] <= target <= sizes[0] + Remaining(sizes, 1)
  }

  // After k groups: a choice with the anchor's group that is not over the target and can still reach it.
  ghost predicate InPlay(sizes: seq<nat>, target: nat, k: nat, c: seq<nat>) {
    && k <= |sizes|
    && c != [] && c[0] == 0 && Increasing(c) && Below(c, k)
    && SumOf(sizes, c) <= target <= SumOf(sizes, c) + Remaining(sizes, k)
  }

  // Skip group k, take group k.
  function Expand(sizes: seq<nat>, target: nat, k: nat, c: seq<nat>): seq<seq<nat>>
    requires k < |sizes| && Below(c, k)
  {
    (if SumOf(sizes, c) + Remaining(sizes, k + 1) >= target then [c] else [])
    + (if SumOf(sizes, c) + sizes[k] <= target then [c + [k]] else [])
  }

  function ExpandAll(sizes: seq<nat>, target: nat, k: nat, cs: seq<seq<nat>>): seq<seq<nat>>
    requires k < |sizes| && AllBelow(cs, k)
  {
    if cs == [] then []
    else ExpandAll(sizes, target, k, cs[..|cs| - 1]) + Expand(sizes, target, k, cs[|cs| - 1])
  }

  ghost predicate AllInPlay(sizes: seq<nat>, target: nat, k: nat, cs: seq<seq<nat>>) {
    forall c :: c in cs ==> InPlay(sizes, target, k, c)
  }

  lemma ExpandSound(sizes: seq<nat>, target: nat, k: nat, c: seq<nat>)
    requires k < |sizes| && InPlay(sizes, target, k, c)
    ensures AllInPlay(sizes, target, k + 1, Expand(sizes, target, k, c)) && Distinct(Expand(sizes, target, k, c))
    ensures forall d :: d in Expand(sizes, target, k, c) ==> d == c || d == c + [k]
  {
    assert (c + [k])[..|c|] == c;
    assert SumOf(sizes, c + [k]) == SumOf(sizes, c) + sizes[k];
  }

  lemma {:induction false} ExpandAllSound(sizes: seq<nat>, target: nat, k: nat, cs: seq<seq<nat>>)
    requires k < |sizes| && AllInPlay(sizes, target, k, cs) && Distinct(cs)
    ensures AllInPlay(sizes, target, k + 1, ExpandAll(sizes, target, k, cs))
    ensures Distinct(ExpandAll(sizes, target, k, cs))
    ensures forall d :: d in ExpandAll(sizes, target, k, cs) ==>
              d in cs || (|d| > 0 && d[|d| - 1] == k && d[..|d| - 1] in cs)
  {
    if cs != [] {
      var init, c := cs[..|cs| - 1], cs[|cs| - 1];
      ExpandAllSound(sizes, target, k, init);
      ExpandSound(sizes, target, k, c);
      assert c !in init;
      var a, b := ExpandAll(sizes, target, k, init), Expand(sizes, target, k, c);
      forall d | d in b ensures d !in a && (d in cs || (|d| > 0 && d[|d| - 1] == k && d[..|d| - 1] in cs)) {
        NotExpandedTwice(sizes, target, k, init, c, d);
      }
      DistinctConcat(a, b);
    }
  }

  lemma NotExpandedTwice(sizes: seq<nat>, target: nat, k: nat, init: seq<seq<nat>>, c: seq<nat>, d: seq<nat>)
    requires k < |sizes| && AllInPlay(sizes, target, k, init) && InPlay(sizes, target, k, c) && c !in init
    requires d == c || d == c + [k]
    ensures !(d in init || (|d| > 0 && d[|d| - 1] == k && d[..|d| - 1] in init))
    ensures d == c || (|d| > 0 && d[|d| - 1] == k && d[..|d| - 1] == c)
  {
    if d == c {
      assert d[|d| - 1] < k;
    } else {
      assert d[..|d| - 1] == c;
    }
  }

  lemma {:induction false} ExpandAllComplete(sizes: seq<nat>, target: nat, k: nat, cs: seq<seq<nat>>, d: seq<nat>)
    requires 1 <= k < |sizes| && AllInPlay(sizes, target, k, cs) && InPlay(sizes, target, k + 1, d)
    requires forall c :: InPlay(sizes, target, k, c) ==> c in cs
    ensures d in ExpandAll(sizes, target, k, cs)
  {
    var n := |d| - 1;
    if d[n] < k {
      assert InPlay(sizes, target, k, d);
      ExpandAllHas(sizes, target, k, cs, d, d);
    } else {
      SplitLast(d);
      assert InPlay(sizes, target, k, d[..n]);
      ExpandAllHas(sizes, target, k, cs, d[..n], d);
    }
  }

  lemma {:induction false} ExpandAllHas(sizes: seq<nat>, target: nat, k: nat, cs: seq<seq<nat>>, c: seq<nat>,
                                        d: seq<nat>)
    requires k < |sizes| && AllInPlay(sizes, target, k, cs) && c in cs
    requires d in Expand(sizes, target, k, c)
    ensures d in ExpandAll(sizes, target, k, cs)
  {
    if cs[|cs| - 1] != c {
      ExpandAllHas(sizes, target, k, cs[..|cs| - 1], c, d);
    }
  }

  lemma ExpandAllExact(sizes: seq<nat>, target: nat, k: nat, cs: seq<seq<nat>>)
    requires 1 <= k < |sizes| && AllInPlay(sizes, target, k, cs) && Distinct(cs)
    requires forall c :: InPlay(sizes, target, k, c) ==> c in cs
    ensures AllInPlay(sizes, target, k + 1, ExpandAll(sizes, target, k, cs))
            && Distinct(ExpandAll(sizes, target, k, cs))
    ensures forall d :: InPlay(sizes, target, k + 1, d) ==> d in ExpandAll(sizes, target, k, cs)
  {
    ExpandAllSound(sizes, target, k, cs);
    forall d | InPlay(sizes, target, k + 1, d) ensures d in ExpandAll(sizes, target, k, cs) {
      ExpandAllComplete(sizes, target, k, cs, d);
    }
  }

  // Every choice in play after k groups: what an unbounded beam holds.
  ghost function Viable(sizes: seq<nat>, target: nat, k: nat): (r: seq<seq<nat>>)
    requires 1 <= k <= |sizes|
    requires CanFill(sizes, target)
    ensures AllInPlay(sizes, target, k, r) && Distinct(r)
    ensures forall c :: InPlay(sizes, target, k, c) ==> c in r
  {
    if k == 1 then
      OnlyAnchor(sizes, target);
      [[0]]
    else
      var previous := Viable(sizes, target, k - 1);
      ExpandAllExact(sizes, target, k - 1, previous);
      ExpandAll(sizes, target, k - 1, previous)
  }

  lemma OnlyAnchor(sizes: seq<nat>, target: nat)
    requires CanFill(sizes, target)
    ensures InPlay(sizes, target, 1, [0])
    ensures forall c :: InPlay(sizes, target, 1, c) ==> c == [0]
  {
    assert [0][..0] == [] && SumOf(sizes, []) == 0;
    forall c | InPlay(sizes, target, 1, c) ensures c == [0] {
      assert |c| == 1;
    }
  }

  lemma SameMembers<T(!new)>(a: seq<T>, b: seq<T>)
    requires Distinct(a) && Distinct(b) && forall x :: x in a <==> x in b
    ensures multiset(a) == multiset(b) && |a| == |b|
  {
    DistinctCount(a);
    DistinctCount(b);
    forall x ensures multiset(a)[x] == multiset(b)[x] {
      assert x in a <==> x in multiset(a);
      assert x in b <==> x in multiset(b);
    }
    SameLength(a, b);
  }

  // No level has more choices in play than the beam is wide.
  ghost predicate Fits(sizes: seq<nat>, target: nat, width: nat, levels: nat)
    requires 1 <= levels <= |sizes| && CanFill(sizes, target)
  {
    forall k :: 1 <= k <= levels ==> |Viable(sizes, target, k)| <= width
  }

  function Choices(states: seq<State>): (r: seq<seq<nat>>)
    ensures |r| == |states| && forall i :: 0 <= i < |r| ==> r[i] == states[i].chosen
  {
    seq(|states|, i requires 0 <= i < |states| => states[i].chosen)
  }

  // A player of a younger group costs more.
  function AgeCost(sizes: seq<nat>, c: seq<nat>): nat
    requires Below(c, |sizes|)
  {
    if c == [] then 0 else AgeCost(sizes, c[..|c| - 1]) + c[|c| - 1] * sizes[c[|c| - 1]]
  }

  /** Every player of a group costs one for each group before it. */
  lemma {:induction false} AgeCostAdds(sizes: seq<nat>, a: seq<nat>, b: seq<nat>)
    requires Below(a, |sizes|) && Below(b, |sizes|)
    ensures AgeCost(sizes, a + b) == AgeCost(sizes, a) + AgeCost(sizes, b)
    ensures forall i :: 0 <= i < |sizes| ==> AgeCost(sizes, [i]) == sizes[i] * i
  {
    if b == [] {
      assert a + b == a;
    } else {
      var n := |b| - 1;
      assert (a + b)[..|a + b| - 1] == a + b[..n];
      AgeCostAdds(sizes, a, b[..n]);
    }
    forall i | 0 <= i < |sizes| ensures AgeCost(sizes, [i]) == sizes[i] * i {
      assert [i][..0] == [];
    }
  }

  // The state that stands for a choice after k groups.
  function StateOf(sizes: seq<nat>, rank: Ranking, k: nat, c: seq<nat>): State
    requires Below(c, |sizes|)
  {
    State(c, SumOf(sizes, c), AgeCost(sizes, c), rank.heuristic(c, AgeCost(sizes, c), k), rank.signature(c))
  }

  function StatesOf(sizes: seq<nat>, rank: Ranking, k: nat, cs: seq<seq<nat>>): (r: seq<State>)
    requires AllBelow(cs, |sizes|)
    ensures |r| == |cs| && Choices(r) == cs
  {
    seq(|cs|, i requires 0 <= i < |cs| => StateOf(sizes, rank, k, cs[i]))
  }

  predicate AllBelow(cs: seq<seq<nat>>, n: nat) {
    forall c :: c in cs ==> Below(c, n)
  }

  // Sorted and cut off at the width.
  function Kept(rank: Ranking, states: seq<State>, width: nat): seq<State> {
    var sorted := rank.sort(states);
    if |sorted| > width then sorted[..width] else sorted
  }

  // Sorting by any comparator, even one that is not an order, keeps the states.
  lemma KeptAreStates(rank: Ranking, states: seq<State>, width: nat)
    requires rank.Sorts()
    ensures |Kept(rank, states, width)| == if |states| > width then width else |states|
    ensures forall s :: s in Kept(rank, states, width) ==> s in states
    ensures |states| <= width ==> forall s :: s in states ==> s in Kept(rank, states, width)
  {
    var sorted := rank.sort(states);
    assert SortedTo(states, sorted);
    SameLength(sorted, states);
    forall s ensures s in sorted <==> s in states {
      MemberOfPermutation(sorted, states, s);
    }
  }

  lemma KeptStayDistinct(rank: Ranking, states: seq<State>, width: nat)
    requires rank.Sorts() && Distinct(Choices(states))
    ensures Distinct(Choices(Kept(rank, states, width)))
  {
    assert SortedTo(states, rank.sort(states));
    ChoicesStayDistinct(states, rank.sort(states));
    assert Choices(Kept(rank, states, width)) <= Choices(rank.sort(states));
  }

  /** Where the comparator is an order, the states kept are ahead of all that are cut off. */
  lemma KeptAreAhead(rank: Ranking, states: seq<State>, width: nat, a: State, b: State)
    requires rank.Sorts() && Distinct(states) && Linear(Ahead, multiset(states))
    requires a in Kept(rank, states, width) && b in states && b !in Kept(rank, states, width)
    ensures a.score > b.score + TOLERANCE
            || (a.score >= b.score - TOLERANCE && SignatureLess(a.signature, b.signature))
  {
    var sorted := rank.sort(states);
    assert SortedTo(states, sorted);
    MemberOfPermutation(sorted, states, b);
    var j :| 0 <= j < |sorted| && sorted[j] == b;
    var i :| 0 <= i < |Kept(rank, states, width)| && Kept(rank, states, width)[i] == a;
    assert forall k :: 0 <= k < |Kept(rank, states, width)| ==> Kept(rank, states, width)[k] != b;
    assert Kept(rank, states, width) <= sorted;
  }

  lemma ChoicesStayDistinct(next: seq<State>, sorted: seq<State>)
    requires Distinct(Choices(next)) && multiset(sorted) == multiset(next)
    ensures Distinct(Choices(sorted))
  {
    forall i, j | 0 <= i < j < |next| ensures next[i] != next[j] {
      assert Choices(next)[i] != Choices(next)[j];
    }
    DistinctPermutation(next, sorted);
    forall i, j | 0 <= i < j < |sorted| ensures sorted[i].chosen != sorted[j].chosen {
      MemberOfPermutation(sorted, next, sorted[i]);
      MemberOfPermutation(sorted, next, sorted[j]);
      var a :| 0 <= a < |next| && next[a] == sorted[i];
      var b :| 0 <= b < |next| && next[b] == sorted[j];
      assert Choices(next)[a] != Choices(next)[b];
    }
  }

  // What becomes of the continuations of a level: at most width of them go on.
  type Cut = (nat, seq<seq<nat>>) -> seq<seq<nat>>

  ghost predicate CutsTo(sizes: seq<nat>, width: nat, cut: Cut) {
    forall k, all :: AllBelow(all, |sizes|) ==> CutAt(width, cut, k, all)
  }

  ghost predicate CutAt(width: nat, cut: Cut, k: nat, all: seq<seq<nat>>) {
    && |cut(k, all)| == (if |all| > width then width else |all|)
    && (forall c :: c in cut(k, all) ==> c in all)
    && (|all| <= width ==> forall c :: c in all ==> c in cut(k, all))
    && (Distinct(all) ==> Distinct(cut(k, all)))
  }

  // The way of beamCandidateSets: by score and signature of the states, best first.
  function BestFirst(sizes: seq<nat>, width: nat, rank: Ranking): Cut {
    (k, all) => if AllBelow(all, |sizes|) then Choices(Kept(rank, StatesOf(sizes, rank, k, all), width)) else []
  }

  lemma BestFirstCuts(sizes: seq<nat>, width: nat, rank: Ranking)
    requires rank.Sorts()
    ensures CutsTo(sizes, width, BestFirst(sizes, width, rank))
  {
    forall k: nat, all: seq<seq<nat>> | AllBelow(all, |sizes|)
      ensures CutAt(width, BestFirst(sizes, width, rank), k, all)
    {
      LevelKeeps(sizes, width, rank, k, all);
      if Distinct(all) {
        KeptStayDistinct(rank, StatesOf(sizes, rank, k, all), width);
      }
    }
  }

  lemma LevelKeeps(sizes: seq<nat>, width: nat, rank: Ranking, k: nat, all: seq<seq<nat>>)
    requires rank.Sorts() && AllBelow(all, |sizes|)
    ensures var kept := Kept(rank, StatesOf(sizes, rank, k, all), width);
            && |kept| == (if |all| > width then width else |all|)
            && (forall c :: c in Choices(kept) ==> c in all)
            && (|all| <= width ==> forall c :: c in all ==> c in Choices(kept))
            && AllBelow(Choices(kept), |sizes|) && kept == StatesOf(sizes, rank, k, Choices(kept))
  {
    var states := StatesOf(sizes, rank, k, all);
    var kept := Kept(rank, states, width);
    KeptAreStates(rank, states, width);
    forall i | 0 <= i < |kept|
      ensures kept[i].chosen in all && Below(kept[i].chosen, |sizes|)
              && kept[i] == StateOf(sizes, rank, k, kept[i].chosen)
    {
      assert kept[i] in states;
      var j :| 0 <= j < |states| && states[j] == kept[i];
      assert all[j] == kept[i].chosen;
    }
    if |all| <= width {
      forall c | c in all ensures c in Choices(kept) {
        var i :| 0 <= i < |all| && all[i] == c;
        assert states[i] in kept;
        var j :| 0 <= j < |kept| && kept[j] == states[i];
        assert Choices(kept)[j] == c;
      }
    }
  }

  lemma {:induction false} ExpandAllBelow(sizes: seq<nat>, target: nat, k: nat, cs: seq<seq<nat>>)
    requires k < |sizes| && AllBelow(cs, k)
    ensures AllBelow(ExpandAll(sizes, target, k, cs), k + 1)
  {
    if cs != [] {
      var n := |cs| - 1;
      ExpandAllBelow(sizes, target, k, cs[..n]);
      assert cs[n] in cs;
      assert Below(cs[n], k);
    }
  }

  // The choices in the beam after k groups.
  ghost function Survivors(sizes: seq<nat>, target: nat, width: nat, cut: Cut, k: nat): (r: seq<seq<nat>>)
    requires 1 <= k <= |sizes| && CutsTo(sizes, width, cut)
    ensures AllBelow(r, k)
  {
    if k == 1 then [[0]]
    else
      var all := ExpandAll(sizes, target, k - 1, Survivors(sizes, target, width, cut, k - 1));
      ExpandAllBelow(sizes, target, k - 1, Survivors(sizes, target, width, cut, k - 1));
      assert CutAt(width, cut, k, all);
      cut(k, all)
  }

  // Different choices in play.
  ghost predicate Sound(sizes: seq<nat>, target: nat, k: nat, cs: seq<seq<nat>>) {
    AllInPlay(sizes, target, k, cs) && Distinct(cs)
  }

  lemma SubsetInPlay(sizes: seq<nat>, target: nat, k: nat, a: seq<seq<nat>>, b: seq<seq<nat>>)
    requires AllInPlay(sizes, target, k, b) && forall c :: c in a ==> c in b
    ensures AllInPlay(sizes, target, k, a)
  {
  }

  /**
    Whatever is cut off, the beam holds at most width different choices; they contain the anchor's
    group, do not exceed the target and can still reach it.
  */
  lemma {:induction false} BeamInvariant(sizes: seq<nat>, target: nat, width: nat, cut: Cut, k: nat)
    requires 1 <= k <= |sizes| && CutsTo(sizes, width, cut) && CanFill(sizes, target) && width >= 1
    ensures |Survivors(sizes, target, width, cut, k)| <= width
    ensures Sound(sizes, target, k, Survivors(sizes, target, width, cut, k))
  {
    if k == 1 {
      OnlyAnchor(sizes, target);
    } else {
      BeamInvariant(sizes, target, width, cut, k - 1);
      LevelInvariant(sizes, target, width, cut, k - 1, Survivors(sizes, target, width, cut, k - 1));
    }
  }

  /** If no level so far has overflowed, the beam holds every choice in play. */
  lemma {:induction false} BeamIsComplete(sizes: seq<nat>, target: nat, width: nat, cut: Cut, k: nat)
    requires 1 <= k <= |sizes| && CutsTo(sizes, width, cut) && CanFill(sizes, target) && Fits(sizes, target, width, k)
    ensures forall c :: InPlay(sizes, target, k, c) ==> c in Survivors(sizes, target, width, cut, k)
  {
    OnlyAnchor(sizes, target);
    if k > 1 {
      FitsBefore(sizes, target, width, k);
      BeamIsComplete(sizes, target, width, cut, k - 1);
      var previous := Survivors(sizes, target, width, cut, k - 1);
      assert |Viable(sizes, target, 1)| == 1;
      BeamInvariant(sizes, target, width, cut, k - 1);
      AllContinued(sizes, target, k - 1, previous);
      NextSurvivors(sizes, target, width, cut, k - 1);
      NothingLost(sizes, target, width, cut, k, ExpandAll(sizes, target, k - 1, previous));
    }
  }

  lemma FitsBefore(sizes: seq<nat>, target: nat, width: nat, k: nat)
    requires 1 < k <= |sizes| && CanFill(sizes, target) && Fits(sizes, target, width, k)
    ensures Fits(sizes, target, width, k - 1) && |Viable(sizes, target, k)| <= width
  {
  }

  lemma LevelInvariant(sizes: seq<nat>, target: nat, width: nat, cut: Cut, k: nat, previous: seq<seq<nat>>)
    requires 1 <= k < |sizes| && CutsTo(sizes, width, cut) && Sound(sizes, target, k, previous) && AllBelow(previous, k)
    ensures var next := cut(k + 1, ExpandAll(sizes, target, k, previous));
            |next| <= width && Sound(sizes, target, k + 1, next)
  {
    var all := ExpandAll(sizes, target, k, previous);
    ExpandAllBelow(sizes, target, k, previous);
    assert CutAt(width, cut, k + 1, all);
    ExpandAllSound(sizes, target, k, previous);
    SubsetInPlay(sizes, target, k + 1, cut(k + 1, all), all);
  }

  // Sound and complete choices have sound and complete continuations.
  lemma AllContinued(sizes: seq<nat>, target: nat, k: nat, previous: seq<seq<nat>>)
    requires 1 <= k < |sizes| && CanFill(sizes, target) && Sound(sizes, target, k, previous) && AllBelow(previous, k)
    requires forall c :: InPlay(sizes, target, k, c) ==> c in previous
    ensures |ExpandAll(sizes, target, k, previous)| == |Viable(sizes, target, k + 1)|
    ensures forall c :: InPlay(sizes, target, k + 1, c) ==> c in ExpandAll(sizes, target, k, previous)
  {
    ExpandAllExact(sizes, target, k, previous);
    ViableIsExact(sizes, target, k + 1, ExpandAll(sizes, target, k, previous));
  }

  // A level that does not overflow loses nothing.
  lemma NothingLost(sizes: seq<nat>, target: nat, width: nat, cut: Cut, k: nat, all: seq<seq<nat>>)
    requires CutsTo(sizes, width, cut) && AllBelow(all, |sizes|) && |all| <= width
    ensures forall c :: c in all ==> c in cut(k, all)
  {
    assert CutAt(width, cut, k, all);
  }

  lemma ViableIsExact(sizes: seq<nat>, target: nat, k: nat, all: seq<seq<nat>>)
    requires 1 <= k <= |sizes| && CanFill(sizes, target)
    requires AllInPlay(sizes, target, k, all) && Distinct(all) && forall c :: InPlay(sizes, target, k, c) ==> c in all
    ensures |all| == |Viable(sizes, target, k)|
  {
    var viable := Viable(sizes, target, k);
    forall c ensures c in all <==> c in viable {
      assert c in all ==> InPlay(sizes, target, k, c);
      assert c in viable ==> InPlay(sizes, target, k, c);
    }
    SameMembers(all, viable);
  }

  // A level that dies out stays empty.
  lemma {:induction false} DeadStaysDead(sizes: seq<nat>, target: nat, width: nat, cut: Cut, k: nat, m: nat)
    requires 1 <= k <= m <= |sizes| && CutsTo(sizes, width, cut)
    requires Survivors(sizes, target, width, cut, k) == []
    ensures Survivors(sizes, target, width, cut, m) == []
    decreases m
  {
    if k < m {
      DeadStaysDead(sizes, target, width, cut, k, m - 1);
      assert CutAt(width, cut, m, []);
    }
  }

  /** Groups of one player never run the search into a dead end, however narrow the beam. */
  lemma {:induction false} SoloPlayersSurvive(sizes: seq<nat>, target: nat, width: nat, cut: Cut, k: nat)
    requires 1 <= k <= |sizes| && CutsTo(sizes, width, cut) && CanFill(sizes, target) && width >= 1
    requires forall i :: 1 <= i < |sizes| ==> sizes[i] == 1
    ensures Survivors(sizes, target, width, cut, k) != []
  {
    if k > 1 {
      SoloPlayersSurvive(sizes, target, width, cut, k - 1);
      var previous := Survivors(sizes, target, width, cut, k - 1);
      var c := previous[0];
      BeamInvariant(sizes, target, width, cut, k - 1);
      assert InPlay(sizes, target, k - 1, c);
      assert Expand(sizes, target, k - 1, c) != [];
      ExpandAllHas(sizes, target, k - 1, previous, c, Expand(sizes, target, k - 1, c)[0]);
      ExpandAllBelow(sizes, target, k - 1, previous);
      assert CutAt(width, cut, k, ExpandAll(sizes, target, k - 1, previous));
    }
  }

  lemma OneMoreGroup(sizes: seq<nat>, c: seq<nat>, k: nat)
    requires k < |sizes| && Below(c, k)
    ensures Below(c + [k], |sizes|)
    ensures SumOf(sizes, c + [k]) == SumOf(sizes, c) + sizes[k]
    ensures AgeCost(sizes, c + [k]) == AgeCost(sizes, c) + k * sizes[k]
  {
    assert (c + [k])[..|c|] == c;
  }

  lemma StatesOfConcat(sizes: seq<nat>, rank: Ranking, k: nat, a: seq<seq<nat>>, b: seq<seq<nat>>)
    requires AllBelow(a, |sizes|) && AllBelow(b, |sizes|)
    ensures AllBelow(a + b, |sizes|)
    ensures StatesOf(sizes, rank, k, a + b) == StatesOf(sizes, rank, k, a) + StatesOf(sizes, rank, k, b)
  {
  }

  lemma StatesOfOne(sizes: seq<nat>, rank: Ranking, k: nat, c: seq<nat>, there: bool)
    requires Below(c, |sizes|)
    ensures var cs := if there then [c] else [];
            && AllBelow(cs, |sizes|)
            && StatesOf(sizes, rank, k, cs) == if there then [StateOf(sizes, rank, k, c)] else []
  {
  }

  // The states of the two continuations of a choice, where they exist.
  lemma ExpandedStates(sizes: seq<nat>, target: nat, k: nat, c: seq<nat>, rank: Ranking)
    requires 1 <= k < |sizes| && Below(c, k)
    ensures AllBelow(Expand(sizes, target, k, c), k + 1) && Below(c + [k], |sizes|)
    ensures StatesOf(sizes, rank, k + 1, Expand(sizes, target, k, c))
         == (if SumOf(sizes, c) + Remaining(sizes, k + 1) >= target then [StateOf(sizes, rank, k + 1, c)] else [])
            + (if SumOf(sizes, c) + sizes[k] <= target then [StateOf(sizes, rank, k + 1, c + [k])] else [])
  {
    OneMoreGroup(sizes, c, k);
    var skips, takes := SumOf(sizes, c) + Remaining(sizes, k + 1) >= target, SumOf(sizes, c) + sizes[k] <= target;
    StatesOfOne(sizes, rank, k + 1, c, skips);
    StatesOfOne(sizes, rank, k + 1, c + [k], takes);
    StatesOfConcat(sizes, rank, k + 1, if skips then [c] else [], if takes then [c + [k]] else []);
  }

  lemma SkippedState(sizes: seq<nat>, k: nat, state: State, rank: Ranking)
    requires Below(state.chosen, |sizes|) && state == StateOf(sizes, rank, k, state.chosen)
    ensures StateOf(sizes, rank, k + 1, state.chosen)
         == state.(score := rank.heuristic(state.chosen, state.ageCost, k + 1),
                   signature := rank.signature(state.chosen))
  {
  }

  lemma TakenState(sizes: seq<nat>, k: nat, state: State, rank: Ranking)
    requires k < |sizes| && Below(state.chosen, k) && state == StateOf(sizes, rank, k, state.chosen)
    ensures Below(state.chosen + [k], |sizes|)
    ensures var chosen, ageCost := state.chosen + [k], state.ageCost + k * sizes[k];
            var heuristic := rank.heuristic(chosen, ageCost, k + 1);
            StateOf(sizes, rank, k + 1, chosen)
            == State(chosen, state.players + sizes[k], ageCost, heuristic, rank.signature(chosen))
  {
    OneMoreGroup(sizes, state.chosen, k);
  }

  // The body of the loop over the beam: skip the group if the rest can still fill the teams, take it if it fits.
  method ExpandState(sizes: seq<nat>, target: nat, groupIndex: nat, state: State, rank: Ranking)
    returns (next: seq<State>)
    requires 1 <= groupIndex < |sizes| && Below(state.chosen, groupIndex)
    requires state == StateOf(sizes, rank, groupIndex, state.chosen)
    ensures AllBelow(Expand(sizes, target, groupIndex, state.chosen), groupIndex + 1)
    ensures next == StatesOf(sizes, rank, groupIndex + 1, Expand(sizes, target, groupIndex, state.chosen))
  {
    ExpandedStates(sizes, target, groupIndex, state.chosen, rank);
    SkippedState(sizes, groupIndex, state, rank);
    TakenState(sizes, groupIndex, state, rank);
    next := [];
    if state.players + Remaining(sizes, groupIndex + 1) >= target {
      next := [state.(score := rank.heuristic(state.chosen, state.ageCost, groupIndex + 1),
                      signature := rank.signature(state.chosen))];
    }
    if state.players + sizes[groupIndex] <= target {
      var chosen := state.chosen + [groupIndex];
      var ageCost := state.ageCost + groupIndex * sizes[groupIndex];
      next := next + [State(chosen, state.players + sizes[groupIndex], ageCost,
                            rank.heuristic(chosen, ageCost, groupIndex + 1), rank.signature(chosen))];
    }
  }

  // The states that one level comes to before the sort.
  ghost function ExpandedAll(sizes: seq<nat>, target: nat, k: nat, cs: seq<seq<nat>>, rank: Ranking): seq<State>
    requires 1 <= k < |sizes| && AllBelow(cs, k)
  {
    ExpandAllBelow(sizes, target, k, cs);
    StatesOf(sizes, rank, k + 1, ExpandAll(sizes, target, k, cs))
  }

  lemma ExpandedOneMore(sizes: seq<nat>, target: nat, k: nat, cs: seq<seq<nat>>, n: nat, rank: Ranking)
    requires 1 <= k < |sizes| && AllBelow(cs, k) && n < |cs|
    ensures AllBelow(cs[..n], k) && AllBelow(cs[..n + 1], k) && Below(cs[n], k)
    ensures AllBelow(Expand(sizes, target, k, cs[n]), k + 1)
    ensures ExpandedAll(sizes, target, k, cs[..n + 1], rank)
         == ExpandedAll(sizes, target, k, cs[..n], rank) + StatesOf(sizes, rank, k + 1, Expand(sizes, target, k, cs[n]))
  {
    assert cs[..n + 1] == cs[..n] + [cs[n]] && cs[n] in cs;
    ExpandedStates(sizes, target, k, cs[n], rank);
    ExpandAllSnoc(sizes, target, k, cs[..n], cs[n]);
  }

  method ExpandBeam(sizes: seq<nat>, target: nat, groupIndex: nat, beam: seq<State>, ghost cs: seq<seq<nat>>,
                    rank: Ranking)
    returns (next: seq<State>)
    requires 1 <= groupIndex < |sizes| && AllBelow(cs, groupIndex) && beam == StatesOf(sizes, rank, groupIndex, cs)
    ensures next == ExpandedAll(sizes, target, groupIndex, cs, rank)
  {
    next := [];
    for n := 0 to |beam|
      invariant AllBelow(cs[..n], groupIndex) && next == ExpandedAll(sizes, target, groupIndex, cs[..n], rank)
    {
      ExpandedOneMore(sizes, target, groupIndex, cs, n, rank);
      var more := ExpandState(sizes, target, groupIndex, beam[n], rank);
      next := next + more;
    }
    assert cs[..|beam|] == cs;
  }

  lemma ExpandAllSnoc(sizes: seq<nat>, target: nat, k: nat, cs: seq<seq<nat>>, c: seq<nat>)
    requires k < |sizes| && Below(c, k) && AllBelow(cs, k)
    ensures ExpandAll(sizes, target, k, cs + [c]) == ExpandAll(sizes, target, k, cs) + Expand(sizes, target, k, c)
  {
    assert (cs + [c])[..|cs|] == cs;
  }

  lemma KeptAfter(sizes: seq<nat>, width: nat, rank: Ranking, k: nat, all: seq<seq<nat>>, after: seq<seq<nat>>)
    requires rank.Sorts() && AllBelow(all, |sizes|) && after == BestFirst(sizes, width, rank)(k, all)
    ensures AllBelow(after, |sizes|) && Kept(rank, StatesOf(sizes, rank, k, all), width)
            == StatesOf(sizes, rank, k, after)
  {
    LevelKeeps(sizes, width, rank, k, all);
  }

  lemma NextSurvivors(sizes: seq<nat>, target: nat, width: nat, cut: Cut, k: nat)
    requires 1 <= k < |sizes| && CutsTo(sizes, width, cut)
    ensures var all := ExpandAll(sizes, target, k, Survivors(sizes, target, width, cut, k));
            AllBelow(all, |sizes|) && Survivors(sizes, target, width, cut, k + 1) == cut(k + 1, all)
  {
    ExpandAllBelow(sizes, target, k, Survivors(sizes, target, width, cut, k));
  }

  // The state that beamCandidateSets starts with: the first group alone.
  function Start(sizes: seq<nat>, rank: Ranking): State
    requires sizes != []
  {
    State([0], sizes[0], 0, rank.heuristic([0], 0, 1), rank.signature([0]))
  }

  lemma FirstState(sizes: seq<nat>, rank: Ranking)
    requires sizes != []
    ensures AllBelow([[0]], |sizes|) && StatesOf(sizes, rank, 1, [[0]]) == [Start(sizes, rank)]
  {
    OneMoreGroup(sizes, [], 0);
    assert [] + [0] == [0];
  }

  // The choices that beamCandidateSets is left with after k groups.
  ghost function Found(sizes: seq<nat>, target: nat, width: nat, rank: Ranking, k: nat): (r: seq<seq<nat>>)
    requires rank.Sorts() && 1 <= k <= |sizes|
    ensures AllBelow(r, k)
  {
    BestFirstCuts(sizes, width, rank);
    Survivors(sizes, target, width, BestFirst(sizes, width, rank), k)
  }

  lemma NextFound(sizes: seq<nat>, target: nat, width: nat, rank: Ranking, k: nat)
    requires rank.Sorts() && 1 <= k < |sizes|
    ensures var all := ExpandAll(sizes, target, k, Found(sizes, target, width, rank, k));
            AllBelow(all, |sizes|) && Found(sizes, target, width, rank, k + 1)
              == BestFirst(sizes, width, rank)(k + 1, all)
  {
    BestFirstCuts(sizes, width, rank);
    NextSurvivors(sizes, target, width, BestFirst(sizes, width, rank), k);
  }

  lemma FoundStaysDead(sizes: seq<nat>, target: nat, width: nat, rank: Ranking, k: nat)
    requires rank.Sorts() && 1 <= k <= |sizes| && Found(sizes, target, width, rank, k) == []
    ensures Found(sizes, target, width, rank, |sizes|) == []
  {
    BestFirstCuts(sizes, width, rank);
    DeadStaysDead(sizes, target, width, BestFirst(sizes, width, rank), k, |sizes|);
  }

  // The beam after k groups.
  ghost function Level(sizes: seq<nat>, target: nat, width: nat, rank: Ranking, k: nat): seq<State>
    requires rank.Sorts() && 1 <= k <= |sizes|
  {
    StatesOf(sizes, rank, k, Found(sizes, target, width, rank, k))
  }

  lemma FirstLevel(sizes: seq<nat>, target: nat, width: nat, rank: Ranking)
    requires rank.Sorts() && sizes != []
    ensures [Start(sizes, rank)] == Level(sizes, target, width, rank, 1)
  {
    FirstState(sizes, rank);
  }

  // A level without states leaves none for the last level.
  lemma LevelStaysDead(sizes: seq<nat>, target: nat, width: nat, rank: Ranking, k: nat)
    requires rank.Sorts() && 1 <= k <= |sizes|
    requires Level(sizes, target, width, rank, k) == []
    ensures Level(sizes, target, width, rank, |sizes|) == []
  {
    FoundStaysDead(sizes, target, width, rank, k);
  }

  lemma FoundIsFull(sizes: seq<nat>, target: nat, width: nat, rank: Ranking)
    requires rank.Sorts() && CanFill(sizes, target) && width >= 1
    ensures var found := Found(sizes, target, width, rank, |sizes|);
            && |found| <= width && Distinct(found)
            && (forall c :: c in found ==> Chooses(sizes, |sizes|, c, target))
            && (Fits(sizes, target, width, |sizes|) ==> forall c :: Chooses(sizes, |sizes|, c, target) ==> c in found)
  {
    BestFirstCuts(sizes, width, rank);
    AtTheEnd(sizes, target, width, BestFirst(sizes, width, rank));
  }

  // One group: expand, sort, truncate.
  method Advance(sizes: seq<nat>, target: nat, width: nat, groupIndex: nat, beam: seq<State>, rank: Ranking)
    returns (next: seq<State>)
    requires rank.Sorts() && 1 <= groupIndex < |sizes|
    requires beam == Level(sizes, target, width, rank, groupIndex)
    ensures next == Level(sizes, target, width, rank, groupIndex + 1)
  {
    NextFound(sizes, target, width, rank, groupIndex);
    next := Proceed(sizes, target, width, groupIndex, beam, rank,
                    Found(sizes, target, width, rank, groupIndex), Found(sizes, target, width, rank, groupIndex + 1));
  }

  method Proceed(sizes: seq<nat>, target: nat, width: nat, groupIndex: nat, beam: seq<State>, rank: Ranking,
                 ghost cs: seq<seq<nat>>, ghost after: seq<seq<nat>>)
    returns (next: seq<State>)
    requires rank.Sorts() && 1 <= groupIndex < |sizes| && AllBelow(cs, groupIndex)
             && beam == StatesOf(sizes, rank, groupIndex, cs)
    requires AllBelow(ExpandAll(sizes, target, groupIndex, cs), |sizes|)
    requires after == BestFirst(sizes, width, rank)(groupIndex + 1, ExpandAll(sizes, target, groupIndex, cs))
    ensures AllBelow(after, |sizes|) && next == StatesOf(sizes, rank, groupIndex + 1, after)
  {
    KeptAfter(sizes, width, rank, groupIndex + 1, ExpandAll(sizes, target, groupIndex, cs), after);
    next := ExpandBeam(sizes, target, groupIndex, beam, cs, rank);
    next := SortAndCut(next, width, rank);
  }

  method SortAndCut(states: seq<State>, width: nat, rank: Ranking) returns (next: seq<State>)
    ensures next == Kept(rank, states, width)
  {
    next := rank.sort(states);
    if |next| > width {
      next := next[..width];
    }
  }

  /**
    The search computes the surviving choices.  Whatever was cut off, each has exactly the target
    number of players; if no level overflows they are all the choices that reach the target.
  */
  method BeamSearch(groups: seq<Group>, target: nat, width: nat, rank: Ranking)
    returns (r: Result<seq<State>, TeamError>)
    requires rank.Sorts() && width >= 1 && CanFill(Sizes(groups), target)
    ensures var found := Found(Sizes(groups), target, width, rank, |groups|);
            r == if found == [] then Err(InsufficientPlayers) else Ok(StatesOf(Sizes(groups), rank, |groups|, found))
  {
    var beam := Levels(Sizes(groups), target, width, rank);
    if beam == [] {
      return Err(InsufficientPlayers);
    }
    FoundIsFull(Sizes(groups), target, width, rank);
    StatesAreFull(Sizes(groups), rank, Found(Sizes(groups), target, width, rank, |groups|), target);
    var result := Full(beam, target);
    return Ok(result);
  }

  lemma StatesAreFull(sizes: seq<nat>, rank: Ranking, cs: seq<seq<nat>>, target: nat)
    requires AllBelow(cs, |sizes|) && forall c :: c in cs ==> Chooses(sizes, |sizes|, c, target)
    ensures forall i :: 0 <= i < |cs| ==> StatesOf(sizes, rank, |sizes|, cs)[i].players == target
  {
    forall i | 0 <= i < |cs| ensures StatesOf(sizes, rank, |sizes|, cs)[i].players == target {
      assert cs[i] in cs;
    }
  }

  // The loop over the groups; it stops when a level dies out.
  method Levels(sizes: seq<nat>, target: nat, width: nat, rank: Ranking) returns (beam: seq<State>)
    requires rank.Sorts() && sizes != []
    ensures beam == Level(sizes, target, width, rank, |sizes|)
  {
    beam := [Start(sizes, rank)];
    FirstLevel(sizes, target, width, rank);
    for groupIndex := 1 to |sizes|
      invariant beam == Level(sizes, target, width, rank, groupIndex)
    {
      beam := Advance(sizes, target, width, groupIndex, beam, rank);
      if beam == [] {
        LevelStaysDead(sizes, target, width, rank, groupIndex + 1);
        return;
      }
    }
  }

  method Full(beam: seq<State>, target: nat) returns (result: seq<State>)
    ensures (forall i :: 0 <= i < |beam| ==> beam[i].players == target) ==> result == beam
    ensures forall s :: s in result <==> s in beam && s.players == target
  {
    result := [];
    for n := 0 to |beam|
      invariant forall s :: s in result <==> s in beam[..n] && s.players == target
      invariant (forall i :: 0 <= i < n ==> beam[i].players == target) ==> result == beam[..n]
    {
      if beam[n].players == target {
        result := result + [beam[n]];
      }
    }
    assert beam[..|beam|] == beam;
  }

  /**
    Every choice that survives has exactly the target number of players, so the filter after the
    loop drops nothing; if no level overflows, all choices that reach the target survive.
  */
  lemma AtTheEnd(sizes: seq<nat>, target: nat, width: nat, cut: Cut)
    requires CanFill(sizes, target) && CutsTo(sizes, width, cut) && width >= 1
    ensures var beam := Survivors(sizes, target, width, cut, |sizes|);
            && |beam| <= width && Distinct(beam)
            && (forall c :: c in beam ==> Chooses(sizes, |sizes|, c, target))
            && (Fits(sizes, target, width, |sizes|) ==> forall c :: Chooses(sizes, |sizes|, c, target) ==> c in beam)
  {
    BeamInvariant(sizes, target, width, cut, |sizes|);
    if Fits(sizes, target, width, |sizes|) {
      BeamIsComplete(sizes, target, width, cut, |sizes|);
    }
    forall c | Chooses(sizes, |sizes|, c, target) ensures InPlay(sizes, target, |sizes|, c) {}
  }
}
