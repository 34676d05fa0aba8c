/** The consistent hash ring of lab 28, for an arbitrary hash with ties. */
module HashRing {
  import opened Options
  import opened Sequences

  type NodeId = nat

  datatype Point = Point(value: nat, node: NodeId)

  /** The hash of a node's virtual points. */
  type PointHash = (NodeId, nat) -> nat

  datatype Ring = Ring(nodes: seq<NodeId>, points: seq<Point>)

  datatype RingError = NoVirtualNodes | DuplicateNodes | NoNodes | BadCount

  // ---------- building a ring ----------

  /** A node's first `virtual` points. */
  function PointsOf(hash: PointHash, node: NodeId, virtual: nat): seq<Point> {
    if virtual == 0 then [] else PointsOf(hash, node, virtual - 1) + [Point(hash(node, virtual - 1), node)]
  }

  function AllPoints(hash: PointHash, nodes: seq<NodeId>, virtual: nat): seq<Point> {
    if nodes == [] then []
    else AllPoints(hash, nodes[..|nodes| - 1], virtual) + PointsOf(hash, nodes[|nodes| - 1], virtual)
  }

  /** Puts a point after all points that do not exceed it: the stable order. */
  function Insert(p: Point, sorted: seq<Point>): seq<Point> {
    if sorted == [] || sorted[|sorted| - 1].value <= p.value then sorted + [p]
    else Insert(p, sorted[..|sorted| - 1]) + [sorted[|sorted| - 1]]
  }

  /** A stable sort by value. */
  function Sort(points: seq<Point>): seq<Point> {
    if points == [] then [] else Insert(points[|points| - 1], Sort(points[..|points| - 1]))
  }

  function MakeRing(hash: PointHash, nodes: seq<NodeId>, virtual: nat): Ring {
    Ring(nodes, Sort(AllPoints(hash, nodes, virtual)))
  }

  function CreateRing(hash: PointHash, nodes: seq<NodeId>, virtual: int): Result<Ring, RingError> {
    if virtual < 1 then Err(NoVirtualNodes)
    else if |Elements(nodes)| != |nodes| then Err(DuplicateNodes)
    else if nodes == [] then Err(NoNodes)
    else Ok(MakeRing(hash, nodes, virtual))
  }

  ghost predicate Ascending(points: seq<Point>) {
    forall i, j :: 0 <= i <= j < |points| ==> points[i].value <= points[j].value
  }

  lemma {:induction false} InsertAscends(p: Point, sorted: seq<Point>)
    requires Ascending(sorted)
    ensures Ascending(Insert(p, sorted))
    ensures forall q :: q in Insert(p, sorted) <==> q == p || q in sorted
  {
    if sorted != [] && sorted[|sorted| - 1].value > p.value {
      var front, last := sorted[..|sorted| - 1], sorted[|sorted| - 1];
      InsertAscends(p, front);
      assert sorted == front + [last];
      var rest := Insert(p, front);
      forall i | 0 <= i < |rest| ensures rest[i].value <= last.value {
        assert rest[i] in rest;
        if rest[i] != p {
          var j :| 0 <= j < |front| && front[j] == rest[i];
          assert sorted[j] == front[j];
        }
      }
    }
  }

  lemma {:induction false} SortAscends(points: seq<Point>)
    ensures Ascending(Sort(points))
    ensures forall q :: q in Sort(points) <==> q in points
  {
    if points != [] {
      var front, last := points[..|points| - 1], points[|points| - 1];
      SortAscends(front);
      InsertAscends(last, Sort(front));
      assert points == front + [last];
    }
  }

  function AtValue(v: nat): Point -> bool {
    (p: Point) => p.value == v
  }

  lemma {:induction false} InsertGoesLast(p: Point, sorted: seq<Point>, v: nat)
    ensures Filter(Insert(p, sorted), AtValue(v))
            == if p.value == v then Filter(sorted, AtValue(v)) + [p] else Filter(sorted, AtValue(v))
  {
    if sorted == [] || sorted[|sorted| - 1].value <= p.value {
      FilterSnoc(sorted, p, AtValue(v));
    } else {
      var front, last := sorted[..|sorted| - 1], sorted[|sorted| - 1];
      InsertGoesLast(p, front, v);
      FilterSnoc(Insert(p, front), last, AtValue(v));
    }
  }

  /** The sort is stable: points of equal value, ties of the hash, keep their order, and none is lost. */
  lemma {:induction false} SortIsStable(points: seq<Point>, v: nat)
    ensures Filter(Sort(points), AtValue(v)) == Filter(points, AtValue(v))
  {
    if points != [] {
      var front, last := points[..|points| - 1], points[|points| - 1];
      SortIsStable(front, v);
      InsertGoesLast(last, Sort(front), v);
    }
  }

  // ---------- looking a key up ----------

  function Above(at: nat): Point -> bool {
    (p: Point) => p.value > at
  }

  function UpTo(at: nat): Point -> bool {
    (p: Point) => p.value <= at
  }

  /** The points in the order in which a lookup meets them: first those above the key, then round to the others. */
  function Walk(points: seq<Point>, at: nat): seq<Point> {
    Filter(points, Above(at)) + Filter(points, UpTo(at))
  }

  /** Each node where it is first met. */
  function Nodes(points: seq<Point>): seq<NodeId> {
    if points == [] then []
    else
      var last, before := points[|points| - 1].node, Nodes(points[..|points| - 1]);
      if last in before then before else before + [last]
  }

  lemma {:induction false} NodesAreMet(points: seq<Point>)
    ensures Distinct(Nodes(points))
    ensures forall p :: p in points ==> p.node in Nodes(points)
    ensures forall n :: n in Nodes(points) ==> exists p :: p in points && p.node == n
  {
    if points != [] {
      var front, last := points[..|points| - 1], points[|points| - 1];
      NodesAreMet(front);
      assert points == front + [last];
      forall n | n in Nodes(points) ensures exists p :: p in points && p.node == n {
        if n in Nodes(front) {
          var p :| p in front && p.node == n;
          assert p in points;
        } else {
          assert last in points;
        }
      }
    }
  }

  /** The number of points up to `at`, as a binary search to the right of equal values finds it. */
  function BisectRight(points: seq<Point>, at: nat): nat {
    |Filter(points, UpTo(at))|
  }

  lemma LastIsLargest(points: seq<Point>)
    requires Ascending(points) && points != []
    ensures forall p :: p in points ==> p.value <= points[|points| - 1].value
    ensures Ascending(points[..|points| - 1])
  {
  }

  lemma {:induction false} BisectSplits(points: seq<Point>, at: nat)
    requires Ascending(points)
    ensures BisectRight(points, at) <= |points|
    ensures Filter(points, UpTo(at)) == points[..BisectRight(points, at)]
    ensures Filter(points, Above(at)) == points[BisectRight(points, at)..]
  {
    if points != [] {
      var front, last := points[..|points| - 1], points[|points| - 1];
      LastIsLargest(points);
      hide Filter, Ascending;
      assert points == front + [last];
      BisectSplits(front, at);
      if last.value <= at {
        FilterAll(points, UpTo(at));
        FilterAll(points, Above(at));
      } else {
        FilterSnoc(front, last, UpTo(at));
        FilterSnoc(front, last, Above(at));
      }
    }
  }

  /** In a sorted ring a walk is a rotation that starts at the first point above the key. */
  lemma WalkIsRotation(points: seq<Point>, at: nat)
    requires Ascending(points)
    ensures var start := BisectRight(points, at);
            start <= |points| && Walk(points, at) == points[start..] + points[..start]
  {
    BisectSplits(points, at);
  }

  // ---------- a new node ----------

  function Other(extra: NodeId): NodeId -> bool {
    (n: NodeId) => n != extra
  }

  function OfOther(extra: NodeId): Point -> bool {
    (p: Point) => p.node != extra
  }

  lemma {:induction false} OneNodesPoints(hash: PointHash, node: NodeId, virtual: nat)
    ensures forall p :: p in PointsOf(hash, node, virtual) ==> p.node == node
    ensures |PointsOf(hash, node, virtual)| == virtual
  {
    if virtual > 0 {
      OneNodesPoints(hash, node, virtual - 1);
    }
  }

  lemma {:induction false} AllPointsWithout(hash: PointHash, nodes: seq<NodeId>, virtual: nat, extra: NodeId)
    ensures Filter(AllPoints(hash, nodes, virtual), OfOther(extra)) == AllPoints(hash, Filter(nodes, Other(extra)), virtual)
  {
    if nodes != [] {
      var front, last := nodes[..|nodes| - 1], nodes[|nodes| - 1];
      AllPointsWithout(hash, front, virtual, extra);
      FilterConcat(AllPoints(hash, front, virtual), PointsOf(hash, last, virtual), OfOther(extra));
      OneNodesPoints(hash, last, virtual);
      FilterAll(PointsOf(hash, last, virtual), OfOther(extra));
      AllPointsSnoc(hash, Filter(front, Other(extra)), last, virtual);
    }
  }

  lemma AllPointsSnoc(hash: PointHash, nodes: seq<NodeId>, node: NodeId, virtual: nat)
    ensures AllPoints(hash, nodes + [node], virtual) == AllPoints(hash, nodes, virtual) + PointsOf(hash, node, virtual)
  {
    assert (nodes + [node])[..|nodes|] == nodes;
  }

  lemma InsertSnoc(p: Point, sorted: seq<Point>, last: Point)
    ensures Insert(p, sorted + [last]) == if last.value <= p.value then sorted + [last] + [p] else Insert(p, sorted) + [last]
  {
    assert (sorted + [last])[..|sorted|] == sorted;
  }

  lemma InsertAtEnd(p: Point, sorted: seq<Point>)
    requires forall q :: q in sorted ==> q.value <= p.value
    ensures Insert(p, sorted) == sorted + [p]
  {
  }

  lemma {:induction false} InsertWithout(p: Point, sorted: seq<Point>, extra: NodeId)
    requires Ascending(sorted)
    ensures Filter(Insert(p, sorted), OfOther(extra))
            == if p.node == extra then Filter(sorted, OfOther(extra)) else Insert(p, Filter(sorted, OfOther(extra)))
  {
    if sorted == [] || sorted[|sorted| - 1].value <= p.value {
      FilterSnoc(sorted, p, OfOther(extra));
      FilterMembers(sorted, OfOther(extra));
      InsertAtEnd(p, Filter(sorted, OfOther(extra)));
    } else {
      var front, last := sorted[..|sorted| - 1], sorted[|sorted| - 1];
      InsertWithout(p, front, extra);
      FilterSnoc(Insert(p, front), last, OfOther(extra));
      InsertSnoc(p, Filter(front, OfOther(extra)), last);
    }
  }

  lemma SortSnoc(points: seq<Point>, p: Point)
    ensures Sort(points + [p]) == Insert(p, Sort(points))
  {
    assert (points + [p])[..|points|] == points;
  }

  lemma {:induction false} SortWithout(points: seq<Point>, extra: NodeId)
    ensures Filter(Sort(points), OfOther(extra)) == Sort(Filter(points, OfOther(extra)))
  {
    if points != [] {
      var front, last := points[..|points| - 1], points[|points| - 1];
      SortWithout(front, extra);
      SortAscends(front);
      InsertWithout(last, Sort(front), extra);
      SortSnoc(Filter(front, OfOther(extra)), last);
    }
  }

  lemma NodesSnoc(points: seq<Point>, p: Point)
    ensures Nodes(points + [p]) == if p.node in Nodes(points) then Nodes(points) else Nodes(points) + [p.node]
  {
    assert (points + [p])[..|points|] == points;
  }

  lemma {:induction false} NodesWithout(points: seq<Point>, extra: NodeId)
    ensures Nodes(Filter(points, OfOther(extra))) == Filter(Nodes(points), Other(extra))
  {
    if points != [] {
      var front, last := points[..|points| - 1], points[|points| - 1];
      NodesWithout(front, extra);
      NodesSnoc(Filter(front, OfOther(extra)), last);
      FilterSnoc(Nodes(front), last.node, Other(extra));
      FilterMembers(Nodes(front), Other(extra));
    }
  }

  /** The walk of a ring with an extra node, that node's points left out, is the walk of the ring without it. */
  lemma WalkWithout(hash: PointHash, nodes: seq<NodeId>, virtual: nat, extra: NodeId, at: nat)
    ensures Filter(Walk(MakeRing(hash, nodes, virtual).points, at), OfOther(extra))
            == Walk(MakeRing(hash, Filter(nodes, Other(extra)), virtual).points, at)
  {
    hide Filter, Sort, AllPoints;
    var points := AllPoints(hash, nodes, virtual);
    AllPointsWithout(hash, nodes, virtual, extra);
    SortWithout(points, extra);
    FiltersCommute(Sort(points), Above(at), OfOther(extra));
    FiltersCommute(Sort(points), UpTo(at), OfOther(extra));
    FilterConcat(Filter(Sort(points), Above(at)), Filter(Sort(points), UpTo(at)), OfOther(extra));
  }

  lemma {:induction false} AllPointsMeetNodes(hash: PointHash, nodes: seq<NodeId>, virtual: nat)
    ensures forall p :: p in AllPoints(hash, nodes, virtual) ==> p.node in nodes
    ensures virtual >= 1 ==> forall n :: n in nodes ==> exists p :: p in AllPoints(hash, nodes, virtual) && p.node == n
  {
    if nodes != [] {
      var front, last := nodes[..|nodes| - 1], nodes[|nodes| - 1];
      AllPointsMeetNodes(hash, front, virtual);
      OneNodesPoints(hash, last, virtual);
      assert nodes == front + [last];
      if virtual >= 1 {
        var first := PointsOf(hash, last, virtual)[0];
        assert first in PointsOf(hash, last, virtual);
        forall n | n in nodes ensures exists p :: p in AllPoints(hash, nodes, virtual) && p.node == n {
          if n in front {
            var p :| p in AllPoints(hash, front, virtual) && p.node == n;
            assert p in AllPoints(hash, nodes, virtual);
          } else {
            assert first in AllPoints(hash, nodes, virtual);
          }
        }
      }
    }
  }

  /** A ring as the constructor makes it. */
  ghost predicate ValidRing(ring: Ring) {
    && Distinct(ring.nodes) && ring.nodes != []
    && Ascending(ring.points)
    && (forall p :: p in ring.points ==> p.node in ring.nodes)
    && (forall n :: n in ring.nodes ==> exists p :: p in ring.points && p.node == n)
  }

  lemma CreatedIsValid(hash: PointHash, nodes: seq<NodeId>, virtual: nat)
    requires virtual >= 1 && Distinct(nodes) && nodes != []
    ensures ValidRing(MakeRing(hash, nodes, virtual))
  {
    var points := AllPoints(hash, nodes, virtual);
    AllPointsMeetNodes(hash, nodes, virtual);
    SortAscends(points);
    forall n | n in nodes ensures exists p :: p in Sort(points) && p.node == n {
      var p :| p in points && p.node == n;
      assert p in Sort(points);
    }
  }

  lemma {:induction false} InsertLength(p: Point, sorted: seq<Point>)
    ensures |Insert(p, sorted)| == |sorted| + 1
  {
    if sorted != [] {
      InsertLength(p, sorted[..|sorted| - 1]);
    }
  }

  lemma {:induction false} SortLength(points: seq<Point>)
    ensures |Sort(points)| == |points|
  {
    if points != [] {
      SortLength(points[..|points| - 1]);
      InsertLength(points[|points| - 1], Sort(points[..|points| - 1]));
    }
  }

  lemma {:induction false} AllPointsLength(hash: PointHash, nodes: seq<NodeId>, virtual: nat)
    ensures |AllPoints(hash, nodes, virtual)| == |nodes| * virtual
  {
    if nodes != [] {
      AllPointsLength(hash, nodes[..|nodes| - 1], virtual);
      OneNodesPoints(hash, nodes[|nodes| - 1], virtual);
      assert |nodes| * virtual == (|nodes| - 1) * virtual + virtual;
    }
  }

  /** A ring is made exactly of distinct nodes, at least one, with at least one point each. */
  lemma CreateRingAccepts(hash: PointHash, nodes: seq<NodeId>, virtual: int)
    ensures CreateRing(hash, nodes, virtual).Ok? <==> 1 <= virtual && Distinct(nodes) && nodes != []
    ensures var r := CreateRing(hash, nodes, virtual);
            r.Ok? ==> ValidRing(r.value) && r.value.nodes == nodes && |r.value.points| == |nodes| * virtual
  {
    DistinctSize(nodes);
    hide Distinct;
    if CreateRing(hash, nodes, virtual).Ok? {
      CreatedIsValid(hash, nodes, virtual);
      AllPointsLength(hash, nodes, virtual);
      SortLength(AllPoints(hash, nodes, virtual));
    }
  }

  /** Every walk meets every node once. */
  lemma WalkMeetsAll(ring: Ring, at: nat)
    requires ValidRing(ring)
    ensures Distinct(Nodes(Walk(ring.points, at)))
    ensures forall n :: n in Nodes(Walk(ring.points, at)) <==> n in ring.nodes
    ensures |Nodes(Walk(ring.points, at))| == |ring.nodes|
  {
    var walk := Walk(ring.points, at);
    var met := Nodes(walk);
    FilterMembers(ring.points, Above(at));
    FilterMembers(ring.points, UpTo(at));
    assert forall p :: p in walk <==> p in ring.points;
    NodesAreMet(walk);
    forall n | n in ring.nodes ensures n in met {
      var p :| p in ring.points && p.node == n;
      assert p in walk;
    }
    DistinctSize(met);
    DistinctSize(ring.nodes);
    assert Elements(met) == Elements(ring.nodes);
  }

  /** The owners of a key: the first `count` distinct nodes of the walk from its hash. */
  function Owners(ring: Ring, at: nat, count: int): Result<seq<NodeId>, RingError> {
    if count < 1 || count > |ring.nodes| then Err(BadCount)
    else if count > |Nodes(Walk(ring.points, at))| then Err(BadCount)
    else Ok(Nodes(Walk(ring.points, at))[..count])
  }

  lemma OwnersAreDistinct(ring: Ring, at: nat, count: int)
    requires ValidRing(ring)
    ensures Owners(ring, at, count).Ok? <==> 1 <= count <= |ring.nodes|
    ensures var r := Owners(ring, at, count);
            r.Ok? ==> |r.value| == count && Distinct(r.value) && forall n :: n in r.value ==> n in ring.nodes
  {
    WalkMeetsAll(ring, at);
  }

  lemma {:induction false} OneLeftOut(s: seq<NodeId>, extra: NodeId)
    requires Distinct(s)
    ensures |Filter(s, Other(extra))| == |s| - (if extra in s then 1 else 0)
  {
    if s != [] {
      var front, last := s[..|s| - 1], s[|s| - 1];
      OneLeftOut(front, extra);
      assert s == front + [last];
    }
  }

  /**
   * Adding a node, wherever it is listed, changes a key's owners only by inserting that node:
   * the new owners without it begin the old ones, in order.
   */
  lemma RingIsStable(hash: PointHash, nodes: seq<NodeId>, virtual: nat, extra: NodeId, at: nat, count: int)
    requires virtual >= 1 && Distinct(nodes) && 1 <= count <= |Filter(nodes, Other(extra))|
    ensures var before := Owners(MakeRing(hash, Filter(nodes, Other(extra)), virtual), at, count);
            var after := Owners(MakeRing(hash, nodes, virtual), at, count);
            && before.Ok? && after.Ok?
            && |Filter(after.value, Other(extra))| == count - (if extra in after.value then 1 else 0)
            && Filter(after.value, Other(extra)) <= before.value
  {
    var others := Filter(nodes, Other(extra));
    FilterDistinct(nodes, Other(extra));
    OneLeftOut(nodes, extra);
    CreatedIsValid(hash, nodes, virtual);
    CreatedIsValid(hash, others, virtual);
    var ring, was := MakeRing(hash, nodes, virtual), MakeRing(hash, others, virtual);
    hide MakeRing, ValidRing, Filter, Walk, Nodes;
    OwnersAreDistinct(ring, at, count);
    OwnersAreDistinct(was, at, count);
    WalkWithout(hash, nodes, virtual, extra, at);
    NodesWithout(Walk(ring.points, at), extra);
    FilterPrefix(Nodes(Walk(ring.points, at)), Other(extra), count);
    OneLeftOut(Owners(ring, at, count).value, extra);
  }

  // ---------- the lookup loop ----------

  lemma {:induction false} NodesPrefix(points: seq<Point>, k: nat)
    requires k <= |points|
    ensures Nodes(points[..k]) <= Nodes(points)
    decreases |points|
  {
    if k == |points| {
      assert points[..k] == points;
    } else {
      NodesPrefix(points[..|points| - 1], k);
      assert points[..|points| - 1][..k] == points[..k];
    }
  }

  lemma WalkAt(points: seq<Point>, at: nat, k: nat)
    requires Ascending(points) && k < |points|
    ensures |Walk(points, at)| == |points| && BisectRight(points, at) <= |points|
    ensures Walk(points, at)[k] == points[(BisectRight(points, at) + k) % |points|]
  {
    WalkIsRotation(points, at);
    hide Walk, BisectRight;
    ModuloWraps(BisectRight(points, at) + k, |points|);
  }

  lemma ModuloWraps(x: nat, n: nat)
    requires 0 < n && x < 2 * n
    ensures x % n == if x < n then x else x - n
  {
  }

  /** The point at an index that counts on past the end of the ring. */
  function PointAt(points: seq<Point>, index: nat): Point
    requires points != []
  {
    points[index % |points|]
  }

  /** The point at an index is the next of the walk. */
  lemma LookupStep(points: seq<Point>, at: nat, index: nat)
    requires Ascending(points) && BisectRight(points, at) <= index < BisectRight(points, at) + |points|
    ensures |Walk(points, at)| == |points|
    ensures var walk, k := Walk(points, at), index - BisectRight(points, at);
            var met, node := Nodes(walk[..k]), PointAt(points, index).node;
            Nodes(walk[..k + 1]) == if node in met then met else met + [node]
  {
    hide Walk, BisectRight, Nodes, Ascending;
    var walk, k := Walk(points, at), index - BisectRight(points, at);
    WalkAt(points, at, k);
    assert walk[..k + 1] == walk[..k] + [walk[k]];
    NodesSnoc(walk[..k], walk[k]);
  }

  method OwnersForKey(ring: Ring, at: nat, count: int) returns (r: Result<seq<NodeId>, RingError>)
    requires ValidRing(ring)
    ensures r == Owners(ring, at, count)
  {
    hide *;
    OwnersBegin(ring, at, count);
    if count < 1 || count > |ring.nodes| {
      return Err(BadCount);
    }
    ghost var walk := Walk(ring.points, at);
    WalkHasAll(ring, at);
    var start := BisectRight(ring.points, at);
    var owners: seq<NodeId> := [];
    var index := start;
    NoNodesYet(walk);
    assert walk[..|walk|] == walk;
    while |owners| < count
      invariant start <= index <= start + |walk| == start + |ring.points|
      invariant owners == Nodes(walk[..index - start]) && |owners| <= count
      decreases start + |walk| - index
    {
      LookupStep(ring.points, at, index);
      var point := PointAt(ring.points, index);
      if point.node !in owners {
        owners := owners + [point.node];
      }
      index := index + 1;
    }
    NodesPrefix(walk, index - start);
    assert owners == Nodes(walk)[..count];
    return Ok(owners);
  }

  lemma OwnersBegin(ring: Ring, at: nat, count: int)
    requires ValidRing(ring)
    ensures var met := Nodes(Walk(ring.points, at));
            && |met| == |ring.nodes|
            && Owners(ring, at, count) == if 1 <= count <= |met| then Ok(met[..count]) else Err(BadCount)
  {
    WalkMeetsAll(ring, at);
  }

  lemma NoNodesYet(walk: seq<Point>)
    ensures Nodes(walk[..0]) == []
  {
  }

  lemma WalkHasAll(ring: Ring, at: nat)
    requires ValidRing(ring)
    ensures Ascending(ring.points) && |Walk(ring.points, at)| == |ring.points|
  {
    WalkIsRotation(ring.points, at);
  }

  // ---------- which points and nodes a lookup meets ----------

  lemma {:induction false} PointsOfExactly(hash: PointHash, node: NodeId, virtual: nat, p: Point)
    ensures p in PointsOf(hash, node, virtual) <==> exists i: nat :: i < virtual && p == Point(hash(node, i), node)
  {
    if virtual > 0 {
      PointsOfExactly(hash, node, virtual - 1, p);
    }
  }

  lemma {:induction false} AllPointsExactly(hash: PointHash, nodes: seq<NodeId>, virtual: nat, p: Point)
    ensures p in AllPoints(hash, nodes, virtual)
            <==> p.node in nodes && exists i: nat :: i < virtual && p.value == hash(p.node, i)
  {
    if nodes != [] {
      var front, last := nodes[..|nodes| - 1], nodes[|nodes| - 1];
      AllPointsExactly(hash, front, virtual, p);
      PointsOfExactly(hash, last, virtual, p);
      assert nodes == front + [last];
      if p.node == last && exists i: nat :: i < virtual && p.value == hash(p.node, i) {
        var i: nat :| i < virtual && p.value == hash(p.node, i);
        assert p == Point(hash(last, i), last);
      }
    }
  }

  /** A ring's points are the hashes of its nodes' indices, each from zero up to the number of points a node has. */
  lemma RingPointsExactly(hash: PointHash, nodes: seq<NodeId>, virtual: nat, p: Point)
    ensures p in MakeRing(hash, nodes, virtual).points
            <==> p.node in nodes && exists i: nat :: i < virtual && p.value == hash(p.node, i)
  {
    AllPointsExactly(hash, nodes, virtual, p);
    SortAscends(AllPoints(hash, nodes, virtual));
  }

  /** Going through the points, `n` is met, and `m` not before it. */
  ghost predicate MeetsFirst(points: seq<Point>, n: NodeId, m: NodeId) {
    exists k :: 0 <= k < |points| && points[k].node == n && forall i :: 0 <= i <= k ==> points[i].node != m
  }

  lemma MeetsFirstLater(front: seq<Point>, last: Point, n: NodeId, m: NodeId)
    requires MeetsFirst(front, n, m)
    ensures MeetsFirst(front + [last], n, m)
  {
    var k :| 0 <= k < |front| && front[k].node == n && forall i :: 0 <= i <= k ==> front[i].node != m;
    assert (front + [last])[k].node == n;
  }

  lemma MeetsFirstNew(front: seq<Point>, last: Point, n: NodeId)
    requires (exists p :: p in front && p.node == n) && forall p :: p in front ==> p.node != last.node
    ensures MeetsFirst(front + [last], n, last.node)
  {
    var p :| p in front && p.node == n;
    var k :| 0 <= k < |front| && front[k] == p;
    assert (front + [last])[k].node == n;
    assert forall i :: 0 <= i <= k ==> (front + [last])[i] == front[i] && front[i] in front;
  }

  lemma {:induction false} NodesInOrder(points: seq<Point>, a: nat, b: nat)
    requires a < b < |Nodes(points)|
    ensures MeetsFirst(points, Nodes(points)[a], Nodes(points)[b])
  {
    var front, last := points[..|points| - 1], points[|points| - 1];
    assert points == front + [last];
    NodesAreMet(front);
    NodesSnoc(front, last);
    hide Nodes, MeetsFirst, Distinct;
    assert Nodes(front)[a] in Nodes(front);
    if b < |Nodes(front)| {
      NodesInOrder(front, a, b);
      MeetsFirstLater(front, last, Nodes(front)[a], Nodes(front)[b]);
    } else {
      MeetsFirstNew(front, last, Nodes(front)[a]);
    }
  }

  /** All points before `start` are at or below the key and all others above it. */
  ghost predicate StartsAt(points: seq<Point>, at: nat, start: nat) {
    && start <= |points|
    && (forall i :: 0 <= i < start ==> points[i].value <= at)
    && (forall i :: start <= i < |points| ==> points[i].value > at)
  }

  /**
   * A lookup begins at the first point above the key and goes round once; each owner is met before every node that is not
   * among the owners up to it.
   */
  lemma OwnersInOrder(ring: Ring, at: nat, count: int, start: nat, a: nat, n: NodeId)
    requires ValidRing(ring) && Owners(ring, at, count).Ok? && StartsAt(ring.points, at, start)
    requires a < count && n in ring.nodes && n !in Owners(ring, at, count).value[..a + 1]
    ensures MeetsFirst(ring.points[start..] + ring.points[..start], Owners(ring, at, count).value[a], n)
  {
    var owners, walk := Owners(ring, at, count).value, Walk(ring.points, at);
    StartIsBisection(ring.points, at, start);
    WalkIsRotation(ring.points, at);
    WalkMeetsAll(ring, at);
    hide Walk, BisectRight, ValidRing, Nodes, MeetsFirst, StartsAt;
    assert forall i :: 0 <= i <= a ==> owners[..a + 1][i] == Nodes(walk)[i];
    var b :| 0 <= b < |Nodes(walk)| && Nodes(walk)[b] == n;
    NodesInOrder(walk, a, b);
  }

  lemma StartIsBisection(points: seq<Point>, at: nat, start: nat)
    requires Ascending(points)
    ensures StartsAt(points, at, start) <==> start == BisectRight(points, at)
  {
    StartSplits(points, at);
    var middle := BisectRight(points, at);
    hide BisectRight, Ascending;
    if StartsAt(points, at, start) {
      assert start < |points| ==> points[start].value > at;
      assert middle < |points| ==> points[middle].value > at;
    }
  }

  lemma StartSplits(points: seq<Point>, at: nat)
    requires Ascending(points)
    ensures StartsAt(points, at, BisectRight(points, at))
  {
    BisectSplits(points, at);
    FilterMembers(points, Above(at));
    FilterMembers(points, UpTo(at));
    var start := BisectRight(points, at);
    hide Filter, Ascending, BisectRight;
    forall i | 0 <= i < start ensures points[i].value <= at {
      assert points[..start][i] in Filter(points, UpTo(at));
    }
    forall i | start <= i < |points| ensures points[i].value > at {
      assert points[start..][i - start] in Filter(points, Above(at));
    }
  }
}
