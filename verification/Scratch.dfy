/**
 The pooled search scratch: arrays stamped with a generation number, so that a
 new search starts from empty maps without clearing anything, except when the
 generation counter wraps.
 */
module Scratch {
  import opened Base
  import opened ReplayGraph
  import opened SearchSpec

  datatype QueueItem = QueueItem(id: nat, key: BlockKey, cost: uint64)

  predicate ItemLess(a: QueueItem, b: QueueItem) {
    Precedes(a.cost, a.key, b.cost, b.key)
  }

  ghost predicate NoDuplicates(queue: seq<QueueItem>) {
    forall i, j :: 0 <= i < j < |queue| ==> queue[i] != queue[j]
  }

  ghost function Items(queue: seq<QueueItem>): set<QueueItem> {
    set item | item in queue
  }

  /** The library heap's contract: remove an item that no other item is less than. */
  method PopLeast(queue: seq<QueueItem>) returns (item: QueueItem, rest: seq<QueueItem>)
    requires queue != []
    ensures item in queue && forall other :: other in queue ==> !ItemLess(other, item)
    ensures |rest| == |queue| - 1
    ensures NoDuplicates(queue) ==> NoDuplicates(rest) && Items(rest) == Items(queue) - {item}
  {
    hide Precedes;
    var k := 0;
    PrecedesTotal(queue[0].cost, queue[0].key, queue[0].cost, queue[0].key);
    for i := 1 to |queue|
      invariant 0 <= k < i
      invariant forall j :: 0 <= j < i ==> !ItemLess(queue[j], queue[k])
    {
      if ItemLess(queue[i], queue[k]) {
        forall j | 0 <= j < i ensures !ItemLess(queue[j], queue[i]) {
          if ItemLess(queue[j], queue[i]) {
            PrecedesTransitive(queue[j].cost, queue[j].key, queue[i].cost, queue[i].key, queue[k].cost, queue[k].key);
          }
        }
        PrecedesTotal(queue[i].cost, queue[i].key, queue[i].cost, queue[i].key);
        k := i;
      }
    }
    item, rest := queue[k], queue[..k] + queue[k + 1..];
    assert forall other :: other in queue <==> other in rest || other == item;
    assert NoDuplicates(queue) ==> item !in rest;
  }

  /** The entries of a stamped array that belong to the current generation. */
  ghost function Live<T>(values: seq<T>, stamps: seq<uint64>, generation: uint64): map<nat, T>
    requires |values| == |stamps|
  {
    map id: nat | id < |stamps| && stamps[id] == generation :: values[id]
  }

  function Extended<T>(values: seq<T>, size: nat, zero: T): (r: seq<T>)
    ensures |r| == if |values| < size then size else |values|
    ensures forall i :: 0 <= i < |r| ==> r[i] == if i < |values| then values[i] else zero
  {
    if |values| < size then values + seq(size - |values|, _ => zero) else values
  }

  class SearchScratch {
    var generation: uint64
    var distances: seq<uint64>
    var distanceGenerations: seq<uint64>
    var predecessors: seq<nat>
    var predecessorGenerations: seq<uint64>
    var queue: seq<QueueItem>

    /** No stamp is ahead of the generation counter. */
    ghost predicate Valid()
      reads this
    {
      && |distances| == |distanceGenerations| == |predecessors| == |predecessorGenerations|
      && (forall i :: 0 <= i < |distanceGenerations| ==> distanceGenerations[i] <= generation)
      && (forall i :: 0 <= i < |predecessorGenerations| ==> predecessorGenerations[i] <= generation)
    }

    ghost function Distances(): map<nat, uint64>
      requires Valid()
      reads this
    {
      Live(distances, distanceGenerations, generation)
    }

    ghost function Predecessors(): map<nat, nat>
      requires Valid()
      reads this
    {
      Live(predecessors, predecessorGenerations, generation)
    }

    constructor ()
      ensures Valid() && queue == []
    {
      generation, distances, distanceGenerations, predecessors, predecessorGenerations, queue := 0, [], [], [], [], [];
    }

    /** Whatever a previous search left behind, both maps and the queue start empty. */
    method Begin(size: nat)
      requires Valid()
      modifies this
      ensures Valid() && size <= |distances|
      ensures Distances() == map[] && Predecessors() == map[] && queue == []
    {
      distances := Extended(distances, size, 0);
      distanceGenerations := Extended(distanceGenerations, size, 0);
      predecessors := Extended(predecessors, size, 0);
      predecessorGenerations := Extended(predecessorGenerations, size, 0);
      if generation == MAX_UINT64 {
        distanceGenerations := seq(|distanceGenerations|, _ => 0);
        predecessorGenerations := seq(|predecessorGenerations|, _ => 0);
        generation := 1;
      } else {
        generation := generation + 1;
      }
      queue := [];
    }

    method GetDistance(id: nat) returns (r: Option<uint64>)
      requires Valid()
      ensures r == if id in Distances() then Some(Distances()[id]) else None
    {
      if id >= |distanceGenerations| || distanceGenerations[id] != generation {
        return None;
      }
      return Some(distances[id]);
    }

    method SetDistance(id: nat, distance: uint64)
      requires Valid() && id < |distances|
      modifies this`distances, this`distanceGenerations
      ensures Valid() && |distances| == |old(distances)|
      ensures Distances() == old(Distances())[id := distance] && Predecessors() == old(Predecessors())
    {
      distances := distances[id := distance];
      distanceGenerations := distanceGenerations[id := generation];
    }

    method GetPredecessor(id: nat) returns (r: Option<nat>)
      requires Valid()
      ensures r == if id in Predecessors() then Some(Predecessors()[id]) else None
    {
      if id >= |predecessorGenerations| || predecessorGenerations[id] != generation {
        return None;
      }
      return Some(predecessors[id]);
    }

    method SetPredecessor(id: nat, predecessor: nat)
      requires Valid() && id < |predecessors|
      modifies this`predecessors, this`predecessorGenerations
      ensures Valid() && |predecessors| == |old(predecessors)|
      ensures Predecessors() == old(Predecessors())[id := predecessor] && Distances() == old(Distances())
    {
      predecessors := predecessors[id := predecessor];
      predecessorGenerations := predecessorGenerations[id := generation];
    }
  }
}
