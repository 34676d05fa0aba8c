/** The topological order of the directed graph of lab 06, by counting incoming arcs. */
module Ordering {
  import opened Options
  import opened Sets
  import opened Sequences
  import opened Walks
  import opened Digraphs

  // ---------- incoming arcs ----------

  /** The nodes with an arc to `t` that are not in `done`. */
  ghost function Open(g: Digraph, t: Vertex, done: set<Vertex>): set<Vertex> {
    set v | v in g.adjacency && v !in done && t in g.adjacency[v]
  }

  type Counts = map<Vertex, nat>

  ghost predicate CountsOpen(g: Digraph, counts: Counts, done: set<Vertex>) {
    && counts.Keys == g.adjacency.Keys
    && forall t :: t in counts ==> counts[t] == |Open(g, t, done)|
  }

  /** While `node`'s arcs are gone through: its first `j` targets count against `after`, all others against `before`. */
  ghost predicate CountsPartly(g: Digraph, counts: Counts, before: set<Vertex>, after: set<Vertex>, node: Vertex, j: nat) {
    && counts.Keys == g.adjacency.Keys
    && node in g.adjacency && j <= |g.adjacency[node]|
    && forall t :: t in counts ==> counts[t] == |Open(g, t, if t in g.adjacency[node][..j] then after else before)|
  }

  lemma OpenDrops(g: Digraph, t: Vertex, done: set<Vertex>, node: Vertex)
    requires node in g.adjacency && node !in done
    ensures t in g.adjacency[node] ==> |Open(g, t, done)| == |Open(g, t, done + {node})| + 1
    ensures t !in g.adjacency[node] ==> Open(g, t, done) == Open(g, t, done + {node})
  {
    if t in g.adjacency[node] {
      assert Open(g, t, done) == Open(g, t, done + {node}) + {node};
    }
  }

  /** One more target of a node that joins or leaves the nodes that do not count. */
  lemma TargetStep(g: Digraph, counts: Counts, before: set<Vertex>, after: set<Vertex>, node: Vertex, j: nat)
    requires ValidDigraph(g) && CountsPartly(g, counts, before, after, node, j) && j < |g.adjacency[node]|
    requires (node !in before && after == before + {node}) || (node !in after && before == after + {node})
    ensures g.adjacency[node][j] in counts && (node in after ==> counts[g.adjacency[node][j]] >= 1)
    ensures var t := g.adjacency[node][j];
            CountsPartly(g, counts[t := if node in after then counts[t] - 1 else counts[t] + 1], before, after, node, j + 1)
  {
    hide *;
    PartlyAt(g, counts, before, after, node, j);
    var arcs := g.adjacency[node];
    var t := arcs[j];
    TargetIsNew(g, node, j);
    ArcsSoFar(arcs, j);
    OpenDrops(g, t, if node in after then before else after, node);
    var next := counts[t := if node in after then counts[t] - 1 else counts[t] + 1];
    forall x | x in next
      ensures next[x] == |Open(g, x, if x in arcs[..j + 1] then after else before)|
    {
      if x != t {
        assert next[x] == counts[x];
      }
    }
    PartlyIntro(g, next, before, after, node, j + 1);
  }

  lemma ArcsSoFar(arcs: seq<Vertex>, j: nat)
    requires j < |arcs|
    ensures forall x :: x in arcs[..j + 1] <==> x in arcs[..j] || x == arcs[j]
  {
    assert arcs[..j + 1] == arcs[..j] + [arcs[j]];
  }

  lemma PartlyAt(g: Digraph, counts: Counts, before: set<Vertex>, after: set<Vertex>, node: Vertex, j: nat)
    requires CountsPartly(g, counts, before, after, node, j)
    ensures counts.Keys == g.adjacency.Keys && node in g.adjacency && j <= |g.adjacency[node]|
    ensures forall t :: t in counts ==> counts[t] == |Open(g, t, if t in g.adjacency[node][..j] then after else before)|
  {
    hide Open;
  }

  lemma PartlyIntro(g: Digraph, counts: Counts, before: set<Vertex>, after: set<Vertex>, node: Vertex, j: nat)
    requires counts.Keys == g.adjacency.Keys && node in g.adjacency && j <= |g.adjacency[node]|
    requires forall t :: t in counts ==> counts[t] == |Open(g, t, if t in g.adjacency[node][..j] then after else before)|
    ensures CountsPartly(g, counts, before, after, node, j)
  {
    hide Open;
  }

  lemma TargetIsNew(g: Digraph, node: Vertex, j: nat)
    requires ValidDigraph(g) && node in g.adjacency && j < |g.adjacency[node]|
    ensures var arcs := g.adjacency[node];
            arcs[j] in arcs && arcs[j] !in arcs[..j] && arcs[..j + 1] == arcs[..j] + [arcs[j]] && arcs[j] in g.adjacency
  {
  }

  lemma TargetsDone(g: Digraph, counts: Counts, before: set<Vertex>, after: set<Vertex>, node: Vertex)
    requires node in g.adjacency && CountsPartly(g, counts, before, after, node, |g.adjacency[node]|)
    requires (node !in before && after == before + {node}) || (node !in after && before == after + {node})
    ensures CountsOpen(g, counts, after)
  {
    var arcs := g.adjacency[node];
    assert arcs[..|arcs|] == arcs;
    forall t | t in counts ensures counts[t] == |Open(g, t, after)| {
      OpenDrops(g, t, if node in after then before else after, node);
    }
  }

  lemma TargetsBegin(g: Digraph, counts: Counts, before: set<Vertex>, after: set<Vertex>, node: Vertex)
    requires node in g.adjacency && CountsOpen(g, counts, before)
    ensures CountsPartly(g, counts, before, after, node, 0)
  {
  }

  // ---------- what the loop keeps ----------

  /** Every node that is ordered comes after all nodes with an arc to it. */
  ghost predicate ArcsForward(g: Digraph, ordered: seq<Vertex>) {
    forall i, v :: 0 <= i < |ordered| && HasArc(g, v, ordered[i]) ==> v in ordered[..i]
  }

  /** The ordered and the ready nodes are those with no open arc, each once. */
  ghost predicate Queued(g: Digraph, counts: Counts, ordered: seq<Vertex>, ready: seq<Vertex>) {
    && counts.Keys == g.adjacency.Keys
    && Distinct(ordered + ready)
    && forall t :: t in ordered + ready <==> t in counts && counts[t] == 0
  }

  lemma OrderGrows(g: Digraph, counts: Counts, ordered: seq<Vertex>, ready: seq<Vertex>)
    requires CountsOpen(g, counts, Elements(ordered)) && Queued(g, counts, ordered, ready) && ArcsForward(g, ordered) && ready != []
    ensures ready[0] in g.adjacency && ready[0] !in ordered
    ensures ArcsForward(g, ordered + [ready[0]]) && Elements(ordered + [ready[0]]) == Elements(ordered) + {ready[0]}
    ensures ready[0] !in Elements(ordered) && Queued(g, counts, ordered + [ready[0]], ready[1..])
  {
    assert ordered + [ready[0]] + ready[1..] == ordered + ready;
    var node := ready[0];
    var all := ordered + ready;
    assert all[|ordered|] == node;
    assert node in all;
    forall i | 0 <= i < |ordered| ensures ordered[i] != node {
      assert all[i] == ordered[i];
    }
    assert Open(g, node, Elements(ordered)) == {};
    var more := ordered + [node];
    forall i, v | 0 <= i < |more| && HasArc(g, v, more[i]) ensures v in more[..i] {
      if i < |ordered| {
        assert more[..i] == ordered[..i];
      } else {
        assert more[..i] == ordered;
        assert v !in Open(g, node, Elements(ordered));
      }
    }
  }

  lemma CountFalls(g: Digraph, counts: Counts, ordered: seq<Vertex>, ready: seq<Vertex>, t: Vertex)
    requires Queued(g, counts, ordered, ready) && t in counts && counts[t] >= 1
    ensures Queued(g, counts[t := counts[t] - 1], ordered, if counts[t] == 1 then ready + [t] else ready)
  {
    var all := ordered + ready;
    assert t !in all;
    if counts[t] == 1 {
      assert ordered + (ready + [t]) == all + [t];
    }
  }

  lemma DistinctFits(ordered: seq<Vertex>, nodes: set<Vertex>)
    requires Distinct(ordered) && Elements(ordered) <= nodes
    ensures |ordered| <= |nodes| && (|ordered| == |nodes| <==> Elements(ordered) == nodes)
  {
    DistinctSize(ordered);
    SubsetSize(Elements(ordered), nodes);
    if x :| x in nodes && x !in Elements(ordered) {
      SubsetSize(Elements(ordered), nodes - {x});
    }
  }

  // ---------- what is left over ----------

  ghost predicate OnCycle(g: Digraph, c: Vertex) {
    exists route :: RouteBetween(g, route, c, c) && |route| >= 2
  }

  /** Nodes that all have an arc from among themselves lead back to a cycle. */
  ghost predicate Stuck(g: Digraph, left: set<Vertex>) {
    && left <= g.adjacency.Keys
    && forall t :: t in left ==> Fed(g, left, t)
  }

  ghost predicate Fed(g: Digraph, left: set<Vertex>, t: Vertex) {
    exists v :: v in left && HasArc(g, v, t)
  }

  lemma Feeder(g: Digraph, left: set<Vertex>, t: Vertex) returns (v: Vertex)
    requires Fed(g, left, t)
    ensures v in left && HasArc(g, v, t)
  {
    v :| v in left && HasArc(g, v, t);
  }

  lemma {:induction false} BackwardRoute(g: Digraph, left: set<Vertex>, t: Vertex, n: nat) returns (route: seq<Vertex>)
    requires Stuck(g, left) && t in left
    ensures IsRoute(g, route) && |route| == n + 1 && route[n] == t && forall v :: v in route ==> v in left
  {
    hide Fed, HasArc, IsRoute;
    if n == 0 {
      route := [t];
      SingleRoute(g, t);
    } else {
      var later := BackwardRoute(g, left, t, n - 1);
      assert later[0] in left;
      var v := Feeder(g, left, later[0]);
      route := [v] + later;
      RouteCons(g, v, later);
    }
  }

  lemma SingleRoute(g: Digraph, t: Vertex)
    requires t in g.adjacency
    ensures IsRoute(g, [t])
  {
  }

  lemma RouteCons(g: Digraph, v: Vertex, route: seq<Vertex>)
    requires IsRoute(g, route) && v in g.adjacency && HasArc(g, v, route[0])
    ensures IsRoute(g, [v] + route)
  {
  }

  lemma StuckIsBehindCycle(g: Digraph, left: set<Vertex>, t: Vertex)
    requires Stuck(g, left) && t in left
    ensures exists c :: OnCycle(g, c) && Connected(g, c, t)
  {
    hide IsRoute, RouteBetween, Stuck;
    var route := BackwardRoute(g, left, t, |left|);
    var i, j := Pigeonhole(route, left);
    RoutePart(g, route, i, j);
    RoutePart(g, route, j, |route| - 1);
    var c := route[i];
    assert OnCycle(g, c) && Connected(g, c, t);
  }

  lemma RoutePart(g: Digraph, route: seq<Vertex>, i: nat, j: nat)
    requires IsRoute(g, route) && i <= j < |route|
    ensures RouteBetween(g, route[i..j + 1], route[i], route[j]) && |route[i..j + 1]| == j - i + 1
  {
  }

  /** A node that is ordered has everything that leads to it ordered before it. */
  lemma {:induction false} LeadsIn(g: Digraph, ordered: seq<Vertex>, route: seq<Vertex>, p: nat)
    requires ArcsForward(g, ordered) && IsRoute(g, route) && p < |ordered| && ordered[p] == route[|route| - 1]
    ensures route[0] in ordered[..p + 1 - (if |route| == 1 then 0 else 1)]
    decreases |route|
  {
    if |route| > 1 {
      var front := route[..|route| - 1];
      var v := front[|front| - 1];
      assert HasArc(g, v, ordered[p]);
      assert v in ordered[..p];
      var q :| 0 <= q < p && ordered[q] == v;
      LeadsIn(g, ordered, front, q);
      assert ordered[..p] == ordered[..q + 1] + ordered[q + 1..p];
      assert ordered[..q + 1] == ordered[..q] + [ordered[q]];
    }
  }

  /** No node that a cycle leads to is ever ordered. */
  lemma OrderedIsFree(g: Digraph, ordered: seq<Vertex>, c: Vertex, t: Vertex)
    requires ArcsForward(g, ordered) && Distinct(ordered) && OnCycle(g, c) && Connected(g, c, t)
    ensures t !in ordered
  {
    if t in ordered {
      var p :| 0 <= p < |ordered| && ordered[p] == t;
      var path :| RouteBetween(g, path, c, t);
      LeadsIn(g, ordered, path, p);
      assert c in ordered;
      var q :| 0 <= q < |ordered| && ordered[q] == c;
      var cycle :| RouteBetween(g, cycle, c, c) && |cycle| >= 2;
      assert c !in ordered[..q];
      LeadsIn(g, ordered, cycle, q);
    }
  }

  // ---------- the algorithm ----------

  /** All nodes once, every arc pointing forward. */
  ghost predicate IsTopologicalOrder(g: Digraph, order: seq<Vertex>) {
    && Distinct(order)
    && (forall v :: v in order <==> v in g.adjacency)
    && forall i, j :: 0 <= i < |order| && 0 <= j < |order| && HasArc(g, order[i], order[j]) ==> i < j
  }

  /** The nodes on a cycle and those that a cycle leads to, in graph order. */
  ghost predicate IsBlocked(g: Digraph, blocked: seq<Vertex>) {
    && blocked != []
    && Distinct(blocked)
    && forall t :: t in blocked <==> t in g.adjacency && BehindCycle(g, t)
  }

  ghost predicate BehindCycle(g: Digraph, t: Vertex) {
    exists c :: OnCycle(g, c) && Connected(g, c, t)
  }

  lemma NothingCounted(g: Digraph)
    requires ValidDigraph(g)
    ensures CountsOpen(g, map v | v in g.adjacency :: 0, Elements(g.nodes))
  {
    forall t ensures Open(g, t, Elements(g.nodes)) == {} {
    }
  }

  lemma NodeLater(g: Digraph, i: nat)
    requires ValidDigraph(g) && i < |g.nodes|
    ensures Elements(g.nodes[i..]) == Elements(g.nodes[i + 1..]) + {g.nodes[i]} && g.nodes[i] !in Elements(g.nodes[i + 1..])
    ensures g.nodes[i] in g.adjacency
  {
    assert g.nodes[i..] == [g.nodes[i]] + g.nodes[i + 1..];
    assert g.nodes[i] in g.nodes;
  }

  /** Counts every node's incoming arcs. */
  method CountTargets(g: Digraph) returns (counts: Counts)
    requires ValidDigraph(g)
    ensures CountsOpen(g, counts, {})
  {
    hide *;
    counts := map v | v in g.adjacency :: 0;
    NothingCounted(g);
    var i := 0;
    assert g.nodes[0..] == g.nodes;
    while i < |g.nodes|
      invariant i <= |g.nodes| && CountsOpen(g, counts, Elements(g.nodes[i..]))
    {
      var node := g.nodes[i];
      ghost var before, after := Elements(g.nodes[i..]), Elements(g.nodes[i + 1..]);
      NodeLater(g, i);
      TargetsBegin(g, counts, before, after, node);
      var j := 0;
      while j < |g.adjacency[node]|
        invariant node in g.adjacency && j <= |g.adjacency[node]| && CountsPartly(g, counts, before, after, node, j)
      {
        TargetStep(g, counts, before, after, node, j);
        var t := g.adjacency[node][j];
        counts := counts[t := counts[t] + 1];
        j := j + 1;
      }
      TargetsDone(g, counts, before, after, node);
      i := i + 1;
    }
    NoneLater(g.nodes);
  }

  lemma NoneLater(nodes: seq<Vertex>)
    ensures Elements(nodes[|nodes|..]) == {}
  {
  }

  /** The nodes with a count of zero, or with a positive one, in graph order. */
  method WithCount(g: Digraph, counts: Counts, zero: bool) returns (found: seq<Vertex>)
    requires ValidDigraph(g) && counts.Keys == g.adjacency.Keys
    ensures Distinct(found)
    ensures forall v :: v in found <==> v in counts && (counts[v] == 0) == zero
  {
    found := [];
    var i := 0;
    while i < |g.nodes|
      invariant i <= |g.nodes| && Distinct(found)
      invariant forall v :: v in found <==> v in g.nodes[..i] && (counts[v] == 0) == zero
    {
      var v := g.nodes[i];
      assert g.nodes[..i + 1] == g.nodes[..i] + [v];
      if (counts[v] == 0) == zero {
        found := found + [v];
      }
      i := i + 1;
    }
    assert g.nodes[..i] == g.nodes;
  }

  lemma BeginQueued(g: Digraph, counts: Counts, ready: seq<Vertex>)
    requires counts.Keys == g.adjacency.Keys && Distinct(ready) && forall v :: v in ready <==> v in counts && counts[v] == 0
    ensures Queued(g, counts, [], ready) && ArcsForward(g, []) && Elements<Vertex>([]) == {}
  {
    assert [] + ready == ready;
  }

  ghost function Unordered(g: Digraph, ordered: seq<Vertex>): set<Vertex> {
    set v | v in g.adjacency && v !in ordered
  }

  lemma UnorderedIsStuck(g: Digraph, counts: Counts, ordered: seq<Vertex>)
    requires CountsOpen(g, counts, Elements(ordered)) && Queued(g, counts, ordered, [])
    ensures Stuck(g, Unordered(g, ordered))
  {
    assert ordered + [] == ordered;
    var left := Unordered(g, ordered);
    forall x | x in left ensures Fed(g, left, x) {
      assert counts[x] != 0;
      var v :| v in Open(g, x, Elements(ordered));
      assert v in left && HasArc(g, v, x);
    }
  }

  /** When nothing is ready, the nodes not ordered are exactly those a cycle leads to. */
  lemma LeftIsBlocked(g: Digraph, counts: Counts, ordered: seq<Vertex>, t: Vertex)
    requires CountsOpen(g, counts, Elements(ordered)) && Queued(g, counts, ordered, []) && ArcsForward(g, ordered)
    requires Distinct(ordered) && t in g.adjacency
    ensures t !in ordered <==> exists c :: OnCycle(g, c) && Connected(g, c, t)
  {
    if t !in ordered {
      assert t in Unordered(g, ordered);
      hide *;
      UnorderedIsStuck(g, counts, ordered);
      StuckIsBehindCycle(g, Unordered(g, ordered), t);
    }
    hide *;
    forall c | OnCycle(g, c) && Connected(g, c, t) ensures t !in ordered {
      OrderedIsFree(g, ordered, c, t);
    }
  }

  lemma AllOrdered(g: Digraph, counts: Counts, ordered: seq<Vertex>)
    requires ValidDigraph(g) && Queued(g, counts, ordered, []) && ArcsForward(g, ordered) && |ordered| == |g.nodes|
    ensures IsTopologicalOrder(g, ordered)
  {
    assert ordered + [] == ordered;
    assert Elements(ordered) <= g.adjacency.Keys;
    assert g.adjacency.Keys == Elements(g.nodes);
    DistinctSize(g.nodes);
    DistinctFits(ordered, g.adjacency.Keys);
    forall i, j | 0 <= i < |ordered| && 0 <= j < |ordered| && HasArc(g, ordered[i], ordered[j]) ensures i < j {
      var k :| 0 <= k < j && ordered[k] == ordered[i];
    }
  }

  lemma SomeLeft(g: Digraph, counts: Counts, ordered: seq<Vertex>)
    requires ValidDigraph(g) && Queued(g, counts, ordered, []) && |ordered| != |g.nodes|
    ensures exists t :: t in g.adjacency && t !in ordered
  {
    assert ordered + [] == ordered;
    assert Elements(ordered) <= g.adjacency.Keys;
    assert g.adjacency.Keys == Elements(g.nodes);
    DistinctSize(g.nodes);
    DistinctFits(ordered, g.adjacency.Keys);
  }

  /** A topological order and a cycle exclude each other. */
  lemma OrderMeansNoCycle(g: Digraph, order: seq<Vertex>)
    requires IsTopologicalOrder(g, order)
    ensures !HasCycle(g)
  {
    forall route | IsRoute(g, route) && |route| >= 2 ensures route[0] != route[|route| - 1] {
      OrderRises(g, order, route);
    }
  }

  lemma {:induction false} OrderRises(g: Digraph, order: seq<Vertex>, route: seq<Vertex>)
    requires IsTopologicalOrder(g, order) && IsRoute(g, route)
    ensures exists i, j :: 0 <= i <= j < |order| && order[i] == route[0] && order[j] == route[|route| - 1] && (|route| >= 2 ==> i < j)
  {
    var last := route[|route| - 1];
    assert last in order;
    var k :| 0 <= k < |order| && order[k] == last;
    if |route| >= 2 {
      var front := route[..|route| - 1];
      OrderRises(g, order, front);
      var i, j :| 0 <= i <= j < |order| && order[i] == front[0] && order[j] == front[|front| - 1];
      assert HasArc(g, order[j], order[k]);
    }
  }

  method TopologicalOrder(g: Digraph) returns (r: Result<seq<Vertex>, seq<Vertex>>)
    requires ValidDigraph(g)
    ensures r.Ok? <==> !HasCycle(g)
    ensures r.Ok? ==> IsTopologicalOrder(g, r.value)
    ensures r.Err? ==> IsBlocked(g, r.error)
  {
    hide *;
    var counts := CountTargets(g);
    CountsHaveKeys(g, counts, {});
    var ready := WithCount(g, counts, true);
    var ordered: seq<Vertex> := [];
    BeginQueued(g, counts, ready);
    while ready != []
      invariant CountsOpen(g, counts, Elements(ordered)) && Queued(g, counts, ordered, ready) && ArcsForward(g, ordered)
      decreases |g.nodes| - |ordered|
    {
      var node := ready[0];
      ghost var before := Elements(ordered);
      OrderGrows(g, counts, ordered, ready);
      ordered, ready := ordered + [node], ready[1..];
      ghost var after := Elements(ordered);
      TargetsBegin(g, counts, before, after, node);
      var j := 0;
      while j < |g.adjacency[node]|
        invariant node in g.adjacency && j <= |g.adjacency[node]|
        invariant CountsPartly(g, counts, before, after, node, j) && Queued(g, counts, ordered, ready)
      {
        TargetStep(g, counts, before, after, node, j);
        var target := g.adjacency[node][j];
        CountFalls(g, counts, ordered, ready, target);
        counts := counts[target := counts[target] - 1];
        if counts[target] == 0 {
          ready := ready + [target];
        }
        j := j + 1;
      }
      TargetsDone(g, counts, before, after, node);
      OrderedFits(g, counts, ordered, ready);
    }
    if |ordered| != |g.nodes| {
      CountsHaveKeys(g, counts, Elements(ordered));
      var blocked := WithCount(g, counts, false);
      EndsBlocked(g, counts, ordered, blocked);
      return Err(blocked);
    }
    AllOrdered(g, counts, ordered);
    OrderMeansNoCycle(g, ordered);
    return Ok(ordered);
  }

  lemma CountsHaveKeys(g: Digraph, counts: Counts, done: set<Vertex>)
    requires CountsOpen(g, counts, done)
    ensures counts.Keys == g.adjacency.Keys
  {
  }

  lemma OrderedFits(g: Digraph, counts: Counts, ordered: seq<Vertex>, ready: seq<Vertex>)
    requires ValidDigraph(g) && Queued(g, counts, ordered, ready)
    ensures |ordered| <= |g.nodes|
  {
    var all := ordered + ready;
    assert Elements(ordered) <= g.adjacency.Keys by {
      assert forall v :: v in ordered ==> v in all;
    }
    assert g.adjacency.Keys == Elements(g.nodes);
    assert Distinct(ordered) by {
      forall i, j | 0 <= i < j < |ordered| ensures ordered[i] != ordered[j] {
        assert all[i] == ordered[i] && all[j] == ordered[j];
      }
    }
    DistinctSize(g.nodes);
    DistinctFits(ordered, g.adjacency.Keys);
  }

  lemma EndsBlocked(g: Digraph, counts: Counts, ordered: seq<Vertex>, blocked: seq<Vertex>)
    requires ValidDigraph(g) && CountsOpen(g, counts, Elements(ordered)) && Queued(g, counts, ordered, []) && ArcsForward(g, ordered)
    requires |ordered| != |g.nodes| && Distinct(blocked)
    requires forall v :: v in blocked <==> v in counts && (counts[v] == 0) == false
    ensures IsBlocked(g, blocked) && HasCycle(g)
  {
    hide *;
    BlockedIsRest(g, counts, ordered, blocked);
    SomeLeft(g, counts, ordered);
    forall t | t in g.adjacency ensures t in blocked <==> BehindCycle(g, t) {
      LeftIsBehindCycle(g, counts, ordered, t);
    }
    BlockedIntro(g, blocked);
    var t :| t in g.adjacency && t !in ordered;
    CycleExists(g, t);
  }

  lemma LeftIsBehindCycle(g: Digraph, counts: Counts, ordered: seq<Vertex>, t: Vertex)
    requires CountsOpen(g, counts, Elements(ordered)) && Queued(g, counts, ordered, []) && ArcsForward(g, ordered)
    requires Distinct(ordered) && t in g.adjacency
    ensures t !in ordered <==> BehindCycle(g, t)
  {
    hide OnCycle, Connected, CountsOpen, Queued, ArcsForward;
    LeftIsBlocked(g, counts, ordered, t);
  }

  lemma BlockedIsRest(g: Digraph, counts: Counts, ordered: seq<Vertex>, blocked: seq<Vertex>)
    requires Queued(g, counts, ordered, [])
    requires forall v :: v in blocked <==> v in counts && (counts[v] == 0) == false
    ensures forall v :: v in blocked <==> v in g.adjacency && v !in ordered
    ensures Distinct(ordered)
  {
    assert ordered + [] == ordered;
  }

  lemma BlockedIntro(g: Digraph, blocked: seq<Vertex>)
    requires Distinct(blocked) && blocked != [] && forall t :: t in blocked ==> t in g.adjacency
    requires forall t :: t in g.adjacency ==> (t in blocked <==> BehindCycle(g, t))
    ensures IsBlocked(g, blocked)
  {
    hide OnCycle, Connected, Distinct;
  }

  lemma CycleExists(g: Digraph, t: Vertex)
    requires BehindCycle(g, t)
    ensures HasCycle(g)
  {
    var c :| OnCycle(g, c) && Connected(g, c, t);
    var route :| RouteBetween(g, route, c, c) && |route| >= 2;
  }

  // ---------- who is on a cycle ----------

  /** The nodes the error names are all on cycles exactly when no arc leaves the cycles. */
  lemma BlockedAreOnCyclesExactly(g: Digraph, blocked: seq<Vertex>)
    requires ValidDigraph(g) && IsBlocked(g, blocked)
    ensures (forall t :: t in blocked ==> OnCycle(g, t)) <==> forall v, w :: OnCycle(g, v) && HasArc(g, v, w) ==> OnCycle(g, w)
  {
    hide OnCycle, Distinct;
    if forall t :: t in blocked ==> OnCycle(g, t) {
      forall v, w | OnCycle(g, v) && HasArc(g, v, w) ensures OnCycle(g, w) {
        assert RouteBetween(g, [v, w], v, w);
        assert BehindCycle(g, w);
      }
    }
    if forall v, w :: OnCycle(g, v) && HasArc(g, v, w) ==> OnCycle(g, w) {
      forall t | t in blocked ensures OnCycle(g, t) {
        var c :| OnCycle(g, c) && Connected(g, c, t);
        var route :| RouteBetween(g, route, c, t);
        ClosedHolds(g, (set v | v in g.adjacency && OnCycle(g, v)), route);
      }
    }
  }

  /** Two nodes that lead to each other and a third below them. */
  const FORK: Digraph := Digraph([0, 1, 2], map[0 := [1], 1 := [0, 2], 2 := []])

  lemma ForkArcs()
    ensures ValidDigraph(FORK) && FORK.adjacency.Keys == {0, 1, 2}
    ensures HasArc(FORK, 0, 1) && HasArc(FORK, 1, 0) && HasArc(FORK, 1, 2) && forall w :: !HasArc(FORK, 2, w)
  {
  }

  lemma ArcAlone(g: Digraph, v: Vertex, w: Vertex)
    requires v in g.adjacency && w in g.adjacency && HasArc(g, v, w)
    ensures Connected(g, v, v) && Connected(g, v, w) && (HasArc(g, w, v) ==> OnCycle(g, v))
  {
    assert RouteBetween(g, [v], v, v) && RouteBetween(g, [v, w], v, w);
    if HasArc(g, w, v) {
      assert RouteBetween(g, [v, w, v], v, v);
    }
  }

  lemma CycleGoesOn(g: Digraph, v: Vertex)
    requires OnCycle(g, v)
    ensures exists w :: HasArc(g, v, w)
  {
    var route :| RouteBetween(g, route, v, v) && |route| >= 2;
    assert HasArc(g, route[0], route[1]);
  }

  /** The error names the third node, which is on no cycle. */
  lemma NamedOffCycle()
    ensures ValidDigraph(FORK) && IsBlocked(FORK, [0, 1, 2]) && !OnCycle(FORK, 2)
  {
    ForkArcs();
    hide FORK, HasArc, OnCycle, Connected;
    ArcAlone(FORK, 0, 1);
    ArcAlone(FORK, 1, 0);
    ArcAlone(FORK, 1, 2);
    if OnCycle(FORK, 2) {
      CycleGoesOn(FORK, 2);
    }
    assert BehindCycle(FORK, 0) && BehindCycle(FORK, 1) && BehindCycle(FORK, 2);
    BlockedIntro(FORK, [0, 1, 2]);
  }
}
