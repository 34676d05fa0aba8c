/** Lamport stamps and vector clocks (lab 22). */
module Clocks {

  /** Node ids stand for distinct non-blank strings in their usual order. */
  type Node = nat

  /** The canonical sorted tuple of a vector clock, as the mapping it stands for. */
  type VectorClock = map<Node, nat>

  datatype ClockRelation = Before | After | Equal | Concurrent

  datatype Stamp = Stamp(counter: nat, node: Node)

  function Get(a: VectorClock, n: Node): nat {
    if n in a then a[n] else 0
  }

  function Increment(a: VectorClock, n: Node): VectorClock {
    a[n := Get(a, n) + 1]
  }

  function Larger(a: nat, b: nat): nat {
    if a < b then b else a
  }

  function Merge(a: VectorClock, b: VectorClock): VectorClock {
    map n | n in a.Keys + b.Keys :: Larger(Get(a, n), Get(b, n))
  }

  /** Pointwise order on clocks, over all nodes whatsoever. */
  ghost predicate Dominated(a: VectorClock, b: VectorClock) {
    forall n :: Get(a, n) <= Get(b, n)
  }

  ghost function Relation(a: VectorClock, b: VectorClock): ClockRelation {
    if Dominated(a, b) then (if Dominated(b, a) then Equal else Before)
    else if Dominated(b, a) then After
    else Concurrent
  }

  /** `merge`: the loop over the union of the keys. */
  method MergeClocks(a: VectorClock, b: VectorClock) returns (merged: VectorClock)
    ensures merged == Merge(a, b)
  {
    merged := map[];
    var left := a.Keys + b.Keys;
    while left != {}
      invariant left <= a.Keys + b.Keys && merged.Keys == a.Keys + b.Keys - left
      invariant forall n :: n in merged ==> merged[n] == Larger(Get(a, n), Get(b, n))
    {
      var n :| n in left;
      merged := merged[n := Larger(Get(a, n), Get(b, n))];
      left := left - {n};
    }
  }

  /** `compare`: looks at the nodes either clock mentions, and decides the order on all nodes. */
  method CompareClocks(a: VectorClock, b: VectorClock) returns (relation: ClockRelation)
    ensures relation == Relation(a, b)
  {
    var hasLess, hasGreater := false, false;
    var left := a.Keys + b.Keys;
    while left != {}
      invariant left <= a.Keys + b.Keys
      invariant hasLess <==> exists n :: n in a.Keys + b.Keys - left && Get(a, n) < Get(b, n)
      invariant hasGreater <==> exists n :: n in a.Keys + b.Keys - left && Get(a, n) > Get(b, n)
    {
      var n :| n in left;
      hasLess := hasLess || Get(a, n) < Get(b, n);
      hasGreater := hasGreater || Get(a, n) > Get(b, n);
      left := left - {n};
    }
    if !hasLess && !hasGreater { return Equal; }
    if hasLess && !hasGreater { return Before; }
    if hasGreater && !hasLess { return After; }
    relation := Concurrent;
  }

  lemma MergeIsLeastUpperBound(a: VectorClock, b: VectorClock, c: VectorClock)
    ensures Dominated(a, Merge(a, b)) && Dominated(b, Merge(a, b))
    ensures Dominated(a, c) && Dominated(b, c) ==> Dominated(Merge(a, b), c)
  {
    assert forall n :: Get(Merge(a, b), n) == Larger(Get(a, n), Get(b, n));
  }
}
