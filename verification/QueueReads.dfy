/**
  What the queue reads of the in-memory ticket store mean
  (internal/matchmaking/repository/memory/ticket_store.go:139-202): a snapshot is the oldest
  queued tickets of its pool, the pool keys are those with something to read, and the queue size
  adds the snapshots up.
*/
module QueueReads {
  import opened Prelude
  import opened Sorting
  import opened Tickets
  import opened TicketStoreSpec

  // A queued ticket of the pool.
  ghost predicate QueuedIn(s: Store, key: PoolKey, id: Id) {
    id in s.tickets && s.tickets[id].profile.pool == key && s.tickets[id].state == Queued
  }

  // The queued tickets of the pool, oldest first.
  ghost predicate IsQueueOf(s: Store, key: PoolKey, ids: seq<Id>) {
    OldestFirst(s.tickets, ids) && forall id :: id in ids <==> QueuedIn(s, key, id)
  }

  lemma {:induction false} CandidatesAre(s: Store, ids: seq<Id>)
    requires OldestFirst(s.tickets, ids)
    ensures OldestFirst(s.tickets, Candidates(s, ids))
    ensures forall id :: id in Candidates(s, ids) <==> id in ids && id in s.tickets && s.tickets[id].state == Queued
  {
    if ids != [] {
      var n := |ids| - 1;
      CandidatesAre(s, ids[..n]);
      SplitLast(ids);
      var init := Candidates(s, ids[..n]);
      forall i | 0 <= i < |init| ensures Precedes(s.tickets, init[i], ids[n]) {
        assert init[i] in init && init[i] in ids[..n];
        var k :| 0 <= k < n && ids[k] == init[i];
        assert Precedes(s.tickets, ids[k], ids[n]);
      }
    }
  }

  lemma SnapshotIsQueue(s: Store, key: PoolKey)
    requires Inv(s)
    ensures IsQueueOf(s, key, QueueSnapshot(s, key, 0))
  {
    assert PoolOk(s, key);
    CandidatesAre(s, PoolOf(s, key));
    forall id ensures id in QueueSnapshot(s, key, 0) <==> QueuedIn(s, key, id) {
      assert id in PoolOf(s, key) <==> InPool(s, key, id);
    }
  }

  // There is only one such sequence.
  lemma QueueIsUnique(s: Store, key: PoolKey, a: seq<Id>, b: seq<Id>)
    requires IsQueueOf(s, key, a) && IsQueueOf(s, key, b)
    ensures a == b
  {
    OrderDetermines(s.tickets, a, b);
  }

  // The ticket was created earlier, or at the same time under a smaller id.
  ghost predicate CreatedBefore(s: Store, a: Id, b: Id) {
    && a in s.tickets && b in s.tickets
    && var t, u := s.tickets[a].profile, s.tickets[b].profile;
       t.createdAt < u.createdAt || (t.createdAt == u.createdAt && a < b)
  }

  /**
    A snapshot is the given number of oldest queued tickets of the pool, all of them without a limit or with
    one that is not positive.
  */
  lemma SnapshotIsExact(s: Store, key: PoolKey, limit: int, queue: seq<Id>)
    requires Inv(s) && IsQueueOf(s, key, queue)
    ensures QueueSnapshot(s, key, limit) == if 0 < limit < |queue| then queue[..limit] else queue
    ensures forall i, j :: 0 <= i < j < |queue| ==> CreatedBefore(s, queue[i], queue[j])
  {
    forall i, j | 0 <= i < j < |queue| ensures Precedes(s.tickets, queue[i], queue[j]) {}
    SnapshotIsQueue(s, key);
    QueueIsUnique(s, key, queue, QueueSnapshot(s, key, 0));
  }

  // Two sequences in order with the same members are the same.
  lemma OrderDetermines(tickets: map<Id, Ticket>, a: seq<Id>, b: seq<Id>)
    requires OldestFirst(tickets, a) && OldestFirst(tickets, b) && forall x :: x in a <==> x in b
    requires forall x :: x in a ==> x in tickets
    ensures a == b
  {
    OldestFirstDistinct(tickets, a);
    OldestFirstDistinct(tickets, b);
    DistinctCount(a);
    DistinctCount(b);
    forall x ensures multiset(a)[x] == multiset(b)[x] {
      assert x in a <==> x in multiset(a);
      assert x in b <==> x in multiset(b);
    }
    var less := Older(tickets);
    forall i, j | 0 <= i < j < |a| ensures less(a[i], a[j]) { assert Precedes(tickets, a[i], a[j]); }
    forall i, j | 0 <= i < j < |b| ensures less(b[i], b[j]) { assert Precedes(tickets, b[i], b[j]); }
    OlderIsLinear(tickets, multiset(a));
    LinearIsAsymmetric(less, multiset(a));
    AscendingUnique(less, a, b);
  }

  /* Pool keys */

  predicate KeyLess(a: PoolKey, b: PoolKey) {
    if a.mode != b.mode then a.mode < b.mode
    else if a.clientVersion != b.clientVersion then a.clientVersion < b.clientVersion
    else a.region < b.region
  }

  // The keys with something to read, in order.
  ghost predicate ArePoolKeys(s: Store, keys: seq<PoolKey>) {
    && (forall i, j :: 0 <= i < j < |keys| ==> KeyLess(keys[i], keys[j]))
    && forall key :: key in keys <==> QueueSnapshot(s, key, 0) != []
  }

  lemma KeyOrderIsLinear(u: multiset<PoolKey>)
    ensures Linear(KeyLess, u)
  {
  }

  lemma SortedKeys(s: Store, keys: seq<PoolKey>)
    requires Distinct(keys) && forall key :: key in keys <==> QueueSnapshot(s, key, 0) != []
    ensures ArePoolKeys(s, StableSort(KeyLess, keys))
  {
    var sorted := StableSort(KeyLess, keys);
    KeyOrderIsLinear(multiset(keys));
    SortPermutes(KeyLess, keys);
    SortAscending(KeyLess, keys);
    forall i, j | 0 <= i < j < |sorted| ensures KeyLess(sorted[i], sorted[j]) {}
    forall key ensures key in sorted <==> QueueSnapshot(s, key, 0) != [] { MemberOfPermutation(sorted, keys, key); }
  }

  ghost predicate AnyQueued(tickets: map<Id, Ticket>, ids: seq<Id>) {
    exists i :: 0 <= i < |ids| && ids[i] in tickets && tickets[ids[i]].state == Queued
  }

  lemma HasCandidate(s: Store, key: PoolKey)
    requires Inv(s)
    ensures AnyQueued(s.tickets, PoolOf(s, key)) <==> QueueSnapshot(s, key, 0) != []
  {
    SnapshotIsQueue(s, key);
    assert PoolOk(s, key);
    var queue := QueueSnapshot(s, key, 0);
    if AnyQueued(s.tickets, PoolOf(s, key)) {
      var i :| 0 <= i < |PoolOf(s, key)| && PoolOf(s, key)[i] in s.tickets
        && s.tickets[PoolOf(s, key)[i]].state == Queued;
      assert PoolOf(s, key)[i] in PoolOf(s, key) && InPool(s, key, PoolOf(s, key)[i]);
      assert QueuedIn(s, key, PoolOf(s, key)[i]);
      assert PoolOf(s, key)[i] in queue;
    }
    if queue != [] {
      assert queue[0] in queue && QueuedIn(s, key, queue[0]) && InPool(s, key, queue[0]);
      assert queue[0] in PoolOf(s, key);
    }
  }

  /* Queue size */

  ghost function AllQueuedIds(s: Store): set<Id> {
    set id | id in s.tickets && s.tickets[id].state == Queued
  }

  ghost function QueuedUnder(s: Store, keys: seq<PoolKey>): set<Id> {
    set id | id in s.tickets && s.tickets[id].state == Queued && s.tickets[id].profile.pool in keys
  }

  function TotalOf(s: Store, keys: seq<PoolKey>): nat {
    if keys == [] then 0 else TotalOf(s, keys[..|keys| - 1]) + |QueueSnapshot(s, keys[|keys| - 1], 0)|
  }

  lemma {:induction false} SnapshotsCount(s: Store, keys: seq<PoolKey>)
    requires Inv(s) && Distinct(keys)
    ensures |QueuedUnder(s, keys)| == TotalOf(s, keys)
  {
    if keys == [] {
      assert QueuedUnder(s, keys) == {};
    } else {
      SnapshotsCount(s, keys[..|keys| - 1]);
      assert keys == keys[..|keys| - 1] + [keys[|keys| - 1]];
      OneMoreKey(s, keys[..|keys| - 1], keys[|keys| - 1]);
    }
  }

  lemma SnapshotSize(s: Store, key: PoolKey)
    requires Inv(s)
    ensures |Elements(QueueSnapshot(s, key, 0))| == |QueueSnapshot(s, key, 0)|
    ensures forall id :: id in Elements(QueueSnapshot(s, key, 0)) <==> QueuedIn(s, key, id)
  {
    var queue := QueueSnapshot(s, key, 0);
    SnapshotIsQueue(s, key);
    OldestFirstDistinct(s.tickets, queue);
    CountElements(queue);
    forall id ensures id in Elements(queue) <==> QueuedIn(s, key, id) {
      assert id in queue <==> QueuedIn(s, key, id);
    }
  }

  lemma OneMoreKey(s: Store, init: seq<PoolKey>, key: PoolKey)
    requires Inv(s) && key !in init
    ensures |QueuedUnder(s, init + [key])| == |QueuedUnder(s, init)| + |QueueSnapshot(s, key, 0)|
  {
    var queue := Elements(QueueSnapshot(s, key, 0));
    SnapshotSize(s, key);
    forall id ensures id in QueuedUnder(s, init + [key]) <==> id in QueuedUnder(s, init) || id in queue {
      assert id in queue <==> QueuedIn(s, key, id);
    }
    DisjointSizes(QueuedUnder(s, init + [key]), QueuedUnder(s, init), queue);
  }

  lemma DisjointSizes(all: set<Id>, a: set<Id>, b: set<Id>)
    requires a !! b && forall id :: id in all <==> id in a || id in b
    ensures |all| == |a| + |b|
  {
    assert all == a + b;
  }

  /** The queue size is the sum of the snapshots without a limit over the pool keys. */
  lemma SizeIsSum(s: Store, keys: seq<PoolKey>)
    requires Inv(s) && ArePoolKeys(s, keys)
    ensures |AllQueuedIds(s)| == TotalOf(s, keys)
  {
    forall i, j | 0 <= i < j < |keys| ensures keys[i] != keys[j] { assert KeyLess(keys[i], keys[j]); }
    SnapshotsCount(s, keys);
    forall id | id in AllQueuedIds(s) ensures s.tickets[id].profile.pool in keys {
      SnapshotIsQueue(s, s.tickets[id].profile.pool);
      assert QueuedIn(s, s.tickets[id].profile.pool, id);
    }
    assert QueuedUnder(s, keys) == AllQueuedIds(s);
  }

  lemma {:induction false} CountElements(ids: seq<Id>)
    requires Distinct(ids)
    ensures |Elements(ids)| == |ids|
  {
    if ids != [] {
      var n := |ids| - 1;
      CountElements(ids[..n]);
      assert ids == ids[..n] + [ids[n]];
      assert Elements(ids) == Elements(ids[..n]) + {ids[n]};
    }
  }
}
