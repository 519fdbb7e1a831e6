/** The deterministic identifier generator of pkg/mock: a cursor over a fixed
    list that answers a constant once the list is used up. The interactors
    draw their identifiers from it; a run of the random generator is the same
    as a run of this one over the identifiers it happened to produce. */
module MockUuid {

  const Fallback := "mock-uuid"

  class MockUuidGenerator {
    const uuids: seq<string>
    var index: nat

    ghost predicate Valid()
      reads this
    {
      index <= |uuids|
    }

    /** NewMockUUIDGenerator: a cursor at the start of `uuids`. */
    constructor (uuids: seq<string>)
      ensures Valid()
      ensures this.uuids == uuids && index == 0
    {
      this.uuids := uuids;
      index := 0;
    }

    /** The identifier the `k`-th next call of Generate will return. */
    function Upcoming(k: nat): (id: string)
      reads this
      requires Valid()
      ensures index + k < |uuids| ==> id == uuids[index + k]
      ensures index + k >= |uuids| ==> id == Fallback
    {
      if index + k < |uuids| then uuids[index + k] else Fallback
    }

    /** Where the cursor stands after `k` more calls of Generate. */
    function IndexAfter(k: nat): (i: nat)
      reads this
      requires Valid()
      ensures i <= |uuids|
      ensures index + k <= |uuids| ==> i == index + k
      ensures index + k > |uuids| ==> i == |uuids|
    {
      if index + k <= |uuids| then index + k else |uuids|
    }

    method Generate() returns (id: string)
      requires Valid()
      modifies this
      ensures Valid()
      ensures old(index) < |uuids| ==> id == uuids[old(index)] && index == old(index) + 1
      ensures old(index) >= |uuids| ==> id == Fallback && index == old(index)
      ensures id == old(Upcoming(0)) && index == old(IndexAfter(1))
      ensures forall k: nat :: Upcoming(k) == old(Upcoming(k + 1))
    {
      if index >= |uuids| {
        return Fallback;
      }
      id := uuids[index];
      index := index + 1;
    }
  }
}
