/**
  The local game-server allocator (internal/matchmaking/application/local_allocator.go): at most
  one slot per match, and per region no more slots than its capacity.
*/
module Allocators {
  import opened Prelude

  datatype Slot = Slot(region: Id, address: Id, token: Id)

  datatype AllocationError = NoServerCapacity | TokenFailure

  // The address is spelled from the region's name.
  function AddressOf(region: Id): Id {
    region
  }

  function SlotsIn(slots: map<Id, Slot>, region: Id): set<Id> {
    set m | m in slots && slots[m].region == region
  }

  function CapacityOf(capacities: map<Id, int>, region: Id): int {
    if region in capacities then capacities[region] else 0
  }

  // An unknown region has no capacity, and a known slot is handed out again.
  function Allocating(slots: map<Id, Slot>, capacities: map<Id, int>, m: Id, region: Id, token: Option<Id>)
    : (map<Id, Slot>, Result<Slot, AllocationError>)
  {
    if m == NO_ID || region == NO_ID then (slots, Err(NoServerCapacity))
    else if m in slots then (slots, Ok(slots[m]))
    else if CapacityOf(capacities, region) - |SlotsIn(slots, region)| <= 0 then (slots, Err(NoServerCapacity))
    else
      match token
      case None => (slots, Err(TokenFailure))
      case Some(secret) =>
        var slot := Slot(region, AddressOf(region), secret);
        (slots[m := slot], Ok(slot))
  }

  ghost predicate WithinCapacity(slots: map<Id, Slot>, capacities: map<Id, int>, region: Id) {
    |SlotsIn(slots, region)| <= CapacityOf(capacities, region)
  }

  lemma AllocateWithin(slots: map<Id, Slot>, capacities: map<Id, int>, m: Id, region: Id, token: Option<Id>, other: Id)
    requires WithinCapacity(slots, capacities, other)
    ensures WithinCapacity(Allocating(slots, capacities, m, region, token).0, capacities, other)
  {
    var slots' := Allocating(slots, capacities, m, region, token).0;
    if slots' != slots {
      assert SlotsIn(slots', other) == if other == region then SlotsIn(slots, other) + {m} else SlotsIn(slots, other);
    }
  }

  lemma SubsetSize<T>(a: set<T>, b: set<T>)
    requires a <= b
    ensures |a| <= |b|
  {
    assert b == a + (b - a);
  }

  lemma ReleaseWithin(slots: map<Id, Slot>, capacities: map<Id, int>, m: Id, other: Id)
    requires WithinCapacity(slots, capacities, other)
    ensures WithinCapacity(slots - {m}, capacities, other)
  {
    SubsetSize(SlotsIn(slots - {m}, other), SlotsIn(slots, other));
  }

  // The slots of the region among those that a loop has been through.
  ghost function Counted(slots: map<Id, Slot>, todo: set<Id>, region: Id): nat {
    |SlotsIn(slots, region) - todo|
  }

  lemma NoneCounted(slots: map<Id, Slot>, region: Id)
    ensures Counted(slots, slots.Keys, region) == 0
  {
    assert SlotsIn(slots, region) - slots.Keys == {};
  }

  lemma AllCounted(slots: map<Id, Slot>, region: Id)
    ensures Counted(slots, {}, region) == |SlotsIn(slots, region)|
  {
    assert SlotsIn(slots, region) - {} == SlotsIn(slots, region);
  }

  lemma CountOneMore(slots: map<Id, Slot>, todo: set<Id>, m: Id, region: Id)
    requires m in todo && todo <= slots.Keys
    ensures Counted(slots, todo - {m}, region) == Counted(slots, todo, region) + if slots[m].region == region then 1
            else 0
  {
    assert SlotsIn(slots, region) - (todo - {m}) == (SlotsIn(slots, region) - todo) + if slots[m].region == region
           then {m} else {};
  }

  class LocalAllocator {
    const capacities: map<Id, int>
    var allocations: map<Id, Slot>

    ghost predicate Valid()
      reads this
    {
      (forall r :: r in capacities ==> capacities[r] >= 0) && forall r :: WithinCapacity(allocations, capacities, r)
    }

    constructor (capacities: map<Id, int>)
      requires forall r :: r in capacities ==> capacities[r] >= 0
      ensures Valid() && this.capacities == capacities && allocations == map[]
    {
      this.capacities := capacities;
      allocations := map[];
      new;
      assert forall r :: SlotsIn(allocations, r) == {};
    }

    /** The free slots of every region: never negative, and used and free slots make up the capacity. */
    method Capacities() returns (available: map<Id, int>)
      requires Valid()
      ensures available.Keys == capacities.Keys
      ensures forall r :: r in available ==>
                0 <= available[r] && |SlotsIn(allocations, r)| + available[r] == capacities[r]
    {
      var used := CountAll();
      available := map[];
      var rest := capacities.Keys;
      while rest != {}
        invariant rest <= capacities.Keys && available.Keys == capacities.Keys - rest
        invariant forall r :: r in available ==> available[r] == capacities[r] - CapacityOf(used, r)
      {
        var r :| r in rest;
        available := available[r := capacities[r] - CapacityOf(used, r)];
        rest := rest - {r};
      }
      forall r | r in available ensures 0 <= available[r] {
        assert WithinCapacity(allocations, capacities, r);
      }
    }

    method Allocate(m: Id, region: Id, token: Option<Id>) returns (r: Result<Slot, AllocationError>)
      requires Valid()
      modifies this
      ensures (allocations, r) == Allocating(old(allocations), capacities, m, region, token)
      ensures Valid()
    {
      forall other { AllocateWithin(allocations, capacities, m, region, token, other); }
      if m == NO_ID || region == NO_ID {
        return Err(NoServerCapacity);
      }
      if m in allocations {
        return Ok(allocations[m]);
      }
      var used := CountUsed(region);
      if CapacityOf(capacities, region) - used <= 0 {
        return Err(NoServerCapacity);
      }
      if token.None? {
        return Err(TokenFailure);
      }
      var slot := Slot(region, AddressOf(region), token.value);
      allocations := allocations[m := slot];
      return Ok(slot);
    }

    method CountAll() returns (used: map<Id, int>)
      ensures forall r {:trigger CapacityOf(used, r)} :: CapacityOf(used, r) == |SlotsIn(allocations, r)|
    {
      used := map[];
      var todo := allocations.Keys;
      forall r { NoneCounted(allocations, r); }
      while todo != {}
        invariant todo <= allocations.Keys
        invariant forall r {:trigger CapacityOf(used, r)} :: CapacityOf(used, r) == Counted(allocations, todo, r)
      {
        var m :| m in todo;
        var region := allocations[m].region;
        forall r { CountOneMore(allocations, todo, m, r); }
        ghost var before := used;
        used := used[region := CapacityOf(used, region) + 1];
        assert forall r {:trigger CapacityOf(used, r)} :: CapacityOf(used, r) == CapacityOf(before, r) + if r == region
               then 1 else 0;
        todo := todo - {m};
      }
      forall r { AllCounted(allocations, r); }
    }

    method CountUsed(region: Id) returns (used: nat)
      ensures used == |SlotsIn(allocations, region)|
    {
      used := 0;
      var todo := allocations.Keys;
      NoneCounted(allocations, region);
      while todo != {}
        invariant todo <= allocations.Keys && used == Counted(allocations, todo, region)
      {
        var m :| m in todo;
        CountOneMore(allocations, todo, m, region);
        if allocations[m].region == region {
          used := used + 1;
        }
        todo := todo - {m};
      }
      AllCounted(allocations, region);
    }

    method Release(m: Id)
      requires Valid()
      modifies this
      ensures allocations == old(allocations) - {m}
      ensures Valid()
    {
      forall other { ReleaseWithin(allocations, capacities, m, other); }
      allocations := allocations - {m};
    }
  }
}
