/** The traversals of the directed graph of lab 06: depth-first order and shortest path by hops. */
module Traversal {
  import opened Options
  import opened Sequences
  import opened Walks
  import opened Digraphs

  datatype GraphError = UnknownNode | NoRoute | CycleFound(blocked: seq<Vertex>)

  function Reversed(s: seq<Vertex>): (r: seq<Vertex>)
    ensures |r| == |s|
  {
    if s == [] then [] else [s[|s| - 1]] + Reversed(s[..|s| - 1])
  }

  lemma {:induction false} ReversedAt(s: seq<Vertex>, k: nat)
    requires k < |s|
    ensures Reversed(s)[k] == s[|s| - 1 - k]
  {
    if k > 0 {
      ReversedAt(s[..|s| - 1], k - 1);
    }
  }

  lemma {:induction false} ReversedConcat(a: seq<Vertex>, b: seq<Vertex>)
    ensures Reversed(a + b) == Reversed(b) + Reversed(a)
  {
    if b == [] {
      assert a + b == a;
    } else {
      hide Reversed;
      var front, last := b[..|b| - 1], b[|b| - 1];
      ReversedConcat(a, front);
      TopIsFirst(b);
      assert a + b == (a + front) + [last];
      LastIsFirst(a + front, last);
      assert [last] + (Reversed(front) + Reversed(a)) == ([last] + Reversed(front)) + Reversed(a);
    }
  }

  lemma LastIsFirst(s: seq<Vertex>, v: Vertex)
    ensures Reversed(s + [v]) == [v] + Reversed(s)
  {
    assert (s + [v])[..|s|] == s;
  }

  lemma TopIsFirst(stack: seq<Vertex>)
    requires stack != []
    ensures Reversed(stack) == [stack[|stack| - 1]] + Reversed(stack[..|stack| - 1])
  {
  }

  lemma SingletonReversed(v: Vertex)
    ensures Reversed([v]) == [v]
  {
    ReversedAt([v], 0);
  }

  lemma {:induction false} ReversedTwice(s: seq<Vertex>)
    ensures Reversed(Reversed(s)) == s
  {
    if s != [] {
      var last := s[|s| - 1];
      ReversedTwice(s[..|s| - 1]);
      ReversedConcat([last], Reversed(s[..|s| - 1]));
      SingletonReversed(last);
    }
  }

  /** Pushing a reversed list on a stack puts the list, in order, on top. */
  lemma ReversedOnTop(stack: seq<Vertex>, list: seq<Vertex>)
    ensures Reversed(stack + Reversed(list)) == list + Reversed(stack)
  {
    ReversedConcat(stack, Reversed(list));
    ReversedTwice(list);
  }

  // ---------- depth first ----------

  /** The stack loop, duplicates and all, lists the recursive neighbour-order preorder. */
  method DepthFirst(g: Digraph, source: Vertex) returns (r: Result<seq<Vertex>, GraphError>)
    requires ValidDigraph(g)
    ensures source !in g.adjacency ==> r == Err(UnknownNode)
    ensures source in g.adjacency ==> r == Ok(Preorder(g, [source], {}))
  {
    hide *;
    if source !in g.adjacency {
      return Err(UnknownNode);
    }
    var stack := [source];
    var visited: set<Vertex> := {};
    var order: seq<Vertex> := [];
    SingletonReversed(source);
    while stack != []
      invariant visited <= g.adjacency.Keys && forall v :: v in stack ==> v in g.adjacency
      invariant order + Preorder(g, Reversed(stack), visited) == Preorder(g, [source], {})
      decreases |Unseen(g, visited)|, |stack|
    {
      var node := stack[|stack| - 1];
      TopIsFirst(stack);
      stack := stack[..|stack| - 1];
      if node in visited {
        PreorderPasses(g, [node] + Reversed(stack), visited);
      } else {
        DescendFirst(g, node, Reversed(stack), visited);
        ReversedOnTop(stack, g.adjacency[node]);
        Fewer(g, visited, visited + {node}, node);
        visited := visited + {node};
        order := order + [node];
        ArcsStayInside(g, node);
        ReversedKeeps(g.adjacency[node]);
        stack := stack + Reversed(g.adjacency[node]);
      }
    }
    NothingLeft(g, visited);
    assert order + [] == order;
    return Ok(order);
  }

  lemma ArcsStayInside(g: Digraph, v: Vertex)
    requires ValidDigraph(g) && v in g.adjacency
    ensures forall w :: w in g.adjacency[v] ==> w in g.adjacency
  {
  }

  lemma NothingLeft(g: Digraph, seen: set<Vertex>)
    ensures Preorder(g, Reversed([]), seen) == []
  {
  }

  lemma ReversedKeeps(s: seq<Vertex>)
    ensures forall v :: v in Reversed(s) ==> v in s
  {
    forall v | v in Reversed(s) ensures v in s {
      var k :| 0 <= k < |s| && Reversed(s)[k] == v;
      ReversedAt(s, k);
    }
  }

  /** A new node is listed, and then its neighbours are visited before the rest. */
  lemma DescendFirst(g: Digraph, v: Vertex, rest: seq<Vertex>, seen: set<Vertex>)
    requires v in g.adjacency && v !in seen
    ensures Preorder(g, [v] + rest, seen) == [v] + Preorder(g, g.adjacency[v] + rest, seen + {v})
  {
    hide Preorder, Unseen, Elements;
    var todo := [v] + rest;
    var visit := PreorderVisits(g, todo, seen);
    assert todo[1..] == rest;
    var under := Preorder(g, g.adjacency[v], seen + {v});
    PreorderConcat(g, g.adjacency[v], rest, seen + {v});
    ElementsCons(v, under);
    assert seen + Elements(visit) == seen + {v} + Elements(under);
  }

  lemma ElementsCons(v: Vertex, s: seq<Vertex>)
    ensures Elements([v] + s) == {v} + Elements(s)
  {
  }

  /** So depth-first order lists the reachable nodes, each once. */
  lemma DepthFirstListsReachable(g: Digraph, source: Vertex)
    requires ValidDigraph(g) && source in g.adjacency
    ensures Distinct(Preorder(g, [source], {}))
    ensures forall v :: v in Preorder(g, [source], {}) <==> Connected(g, source, v)
  {
    PreorderIsDistinct(g, [source], {});
    forall v ensures v in Preorder(g, [source], {}) <==> Connected(g, source, v) {
      PreorderIsReachable(g, source, v);
    }
  }

  // ---------- breadth first ----------

  type Depths = map<Vertex, nat>

  /** Every node but the source was first met through a node one level up. */
  ghost predicate Levelled(g: Digraph, source: Vertex, previous: map<Vertex, Option<Vertex>>, depth: Depths) {
    && previous.Keys == depth.Keys <= g.adjacency.Keys
    && source in depth && depth[source] == 0 && previous[source] == None
    && forall v :: v in previous && v != source ==>
         previous[v].Some? && previous[v].value in depth
         && depth[previous[v].value] + 1 == depth[v] && HasArc(g, previous[v].value, v)
  }

  /** The queue is in level order and spans at most two levels. */
  ghost predicate QueueInOrder(queue: seq<Vertex>, depth: Depths) {
    && Distinct(queue)
    && (forall i :: 0 <= i < |queue| ==> queue[i] in depth)
    && (forall i, j :: 0 <= i <= j < |queue| ==> depth[queue[i]] <= depth[queue[j]] <= depth[queue[i]] + 1)
  }

  /** A node that has left the queue has passed on to all its neighbours. */
  ghost predicate PassedOn(g: Digraph, v: Vertex, depth: Depths) {
    v in depth ==> forall w :: HasArc(g, v, w) ==> w in depth && depth[w] <= depth[v] + 1
  }

  ghost predicate AllPassedOn(g: Digraph, queue: seq<Vertex>, depth: Depths) {
    forall v :: v in depth && v !in queue ==> PassedOn(g, v, depth)
  }

  /** No route to a node at the front of the queue has fewer hops than its level. */
  lemma {:induction false} NoShorterRoute(g: Digraph, source: Vertex, depth: Depths, level: nat, route: seq<Vertex>)
    requires source in depth && depth[source] == 0 && IsRoute(g, route) && route[0] == source
    requires forall v :: v in depth && depth[v] < level ==> PassedOn(g, v, depth)
    requires |route| <= level + 1
    ensures route[|route| - 1] in depth && depth[route[|route| - 1]] <= |route| - 1
  {
    if |route| > 1 {
      NoShorterRoute(g, source, depth, level, route[..|route| - 1]);
      assert HasArc(g, route[|route| - 2], route[|route| - 1]);
    }
  }

  ghost predicate IsShortestRoute(g: Digraph, source: Vertex, target: Vertex, route: seq<Vertex>) {
    && RouteBetween(g, route, source, target)
    && forall other :: RouteBetween(g, other, source, target) ==> |route| <= |other|
  }

  method TraceBack(g: Digraph, source: Vertex, target: Vertex, previous: map<Vertex, Option<Vertex>>, ghost depth: Depths)
    returns (path: seq<Vertex>)
    requires Levelled(g, source, previous, depth) && target in depth
    ensures RouteBetween(g, path, source, target) && |path| == depth[target] + 1
  {
    hide Reversed;
    var backwards := [target];
    SingletonReversed(target);
    var current := previous[target];
    ghost var at := target;
    while current.Some?
      invariant at in depth && current == previous[at] && |backwards| + depth[at] == depth[target] + 1
      invariant RouteBetween(g, Reversed(backwards), at, target)
      decreases depth[at]
    {
      ghost var below := at;
      at := current.value;
      ghost var was := Reversed(backwards);
      backwards := backwards + [current.value];
      TopIsFirst(backwards);
      assert backwards[..|backwards| - 1] + [current.value] == backwards;
      RouteJoin(g, [at], was, at, at, below, target);
      current := previous[current.value];
    }
    path := Reversed(backwards);
  }

  lemma FrontIsShortest(g: Digraph, source: Vertex, target: Vertex, queue: seq<Vertex>, depth: Depths, path: seq<Vertex>)
    requires source in depth && depth[source] == 0 && QueueInOrder(queue, depth) && AllPassedOn(g, queue, depth)
    requires queue != [] && queue[0] == target
    requires RouteBetween(g, path, source, target) && |path| == depth[target] + 1
    ensures IsShortestRoute(g, source, target, path) && Connected(g, source, target)
  {
    hide PassedOn;
    forall v | v in depth && depth[v] < depth[target] ensures PassedOn(g, v, depth) {
    }
    forall other | RouteBetween(g, other, source, target) ensures |path| <= |other| {
      if |other| <= depth[target] {
        NoShorterRoute(g, source, depth, depth[target], other);
      }
    }
  }

  ghost predicate PassedOnBut(g: Digraph, node: Vertex, queue: seq<Vertex>, depth: Depths) {
    forall v :: v in depth && v !in queue && v != node ==> PassedOn(g, v, depth)
  }

  ghost predicate AfterNode(node: Vertex, queue: seq<Vertex>, depth: Depths) {
    && node in depth && node !in queue && QueueInOrder(queue, depth)
    && (forall i :: 0 <= i < |queue| ==> depth[node] <= depth[queue[i]] <= depth[node] + 1)
    && (forall v :: v in depth && v !in queue ==> depth[v] <= depth[node])
  }

  ghost predicate FirstPassed(g: Digraph, node: Vertex, j: nat, depth: Depths) {
    && node in depth && node in g.adjacency && j <= |g.adjacency[node]|
    && forall i :: 0 <= i < j ==> g.adjacency[node][i] in depth && depth[g.adjacency[node][i]] <= depth[node] + 1
  }

  /** What the loop over `node`'s neighbours keeps, with the first `j` of them done. */
  ghost predicate Passing(g: Digraph, source: Vertex, node: Vertex, j: nat, queue: seq<Vertex>,
                          previous: map<Vertex, Option<Vertex>>, depth: Depths)
  {
    && Levelled(g, source, previous, depth)
    && AfterNode(node, queue, depth)
    && PassedOnBut(g, node, queue, depth)
    && FirstPassed(g, node, j, depth)
  }

  ghost predicate Searching(g: Digraph, source: Vertex, queue: seq<Vertex>, previous: map<Vertex, Option<Vertex>>, depth: Depths) {
    && Levelled(g, source, previous, depth)
    && QueueInOrder(queue, depth)
    && AllPassedOn(g, queue, depth)
    && (queue != [] ==> forall v :: v in depth && v !in queue ==> depth[v] <= depth[queue[0]])
  }

  lemma SearchBegins(g: Digraph, source: Vertex)
    requires source in g.adjacency
    ensures Searching(g, source, [source], map[source := None], map[source := 0])
  {
  }

  lemma NodeLeaves(g: Digraph, source: Vertex, queue: seq<Vertex>, previous: map<Vertex, Option<Vertex>>, depth: Depths)
    requires Searching(g, source, queue, previous, depth) && queue != []
    ensures Passing(g, source, queue[0], 0, queue[1..], previous, depth)
  {
    assert depth.Keys <= g.adjacency.Keys;
    hide PassedOnBut, AllPassedOn, Levelled, QueueInOrder, AfterNode;
    FrontPrecedes(queue, depth);
    FrontIsLeft(g, queue, depth);
  }

  lemma FrontPrecedes(queue: seq<Vertex>, depth: Depths)
    requires QueueInOrder(queue, depth) && queue != []
    requires forall v :: v in depth && v !in queue ==> depth[v] <= depth[queue[0]]
    ensures AfterNode(queue[0], queue[1..], depth)
  {
    hide QueueInOrder;
    HeadOrRest(queue);
    RestInOrder(queue, depth);
  }

  lemma FrontIsLeft(g: Digraph, queue: seq<Vertex>, depth: Depths)
    requires AllPassedOn(g, queue, depth) && queue != []
    ensures PassedOnBut(g, queue[0], queue[1..], depth)
  {
    hide PassedOn;
    HeadOrRest(queue);
  }

  lemma HeadOrRest(queue: seq<Vertex>)
    requires queue != []
    ensures forall v :: v in queue <==> v == queue[0] || v in queue[1..]
  {
    assert queue == [queue[0]] + queue[1..];
  }

  lemma RestInOrder(queue: seq<Vertex>, depth: Depths)
    requires QueueInOrder(queue, depth) && queue != []
    ensures queue[0] in depth && queue[0] !in queue[1..] && QueueInOrder(queue[1..], depth)
    ensures forall i :: 0 <= i < |queue[1..]| ==> depth[queue[0]] <= depth[queue[1..][i]] <= depth[queue[0]] + 1
  {
    var rest := queue[1..];
    assert forall i :: 0 <= i < |rest| ==> rest[i] == queue[i + 1];
  }

  lemma NeighbourIsKnown(g: Digraph, source: Vertex, node: Vertex, j: nat, queue: seq<Vertex>,
                         previous: map<Vertex, Option<Vertex>>, depth: Depths)
    requires Passing(g, source, node, j, queue, previous, depth) && j < |g.adjacency[node]| && g.adjacency[node][j] in previous
    ensures Passing(g, source, node, j + 1, queue, previous, depth)
  {
    hide PassedOnBut, QueueInOrder;
    var w := g.adjacency[node][j];
    if w in queue {
      var i :| 0 <= i < |queue| && queue[i] == w;
    }
  }

  lemma QueueGrows(node: Vertex, w: Vertex, queue: seq<Vertex>, depth: Depths)
    requires AfterNode(node, queue, depth) && w !in depth
    ensures AfterNode(node, queue + [w], depth[w := depth[node] + 1])
  {
  }

  lemma LevelsGrow(g: Digraph, source: Vertex, node: Vertex, w: Vertex, previous: map<Vertex, Option<Vertex>>, depth: Depths)
    requires Levelled(g, source, previous, depth) && node in depth && w !in depth && HasArc(g, node, w) && w in g.adjacency
    ensures Levelled(g, source, previous[w := Some(node)], depth[w := depth[node] + 1])
  {
  }

  lemma PassedGrows(g: Digraph, node: Vertex, w: Vertex, level: nat, queue: seq<Vertex>, depth: Depths)
    requires PassedOnBut(g, node, queue, depth) && w !in depth
    ensures PassedOnBut(g, node, queue + [w], depth[w := level])
  {
    var grown := depth[w := level];
    forall v | v in grown && v !in queue + [w] && v != node ensures PassedOn(g, v, grown) {
      assert PassedOn(g, v, depth);
    }
  }

  lemma NeighbourFacts(g: Digraph, source: Vertex, node: Vertex, j: nat, queue: seq<Vertex>,
                       previous: map<Vertex, Option<Vertex>>, depth: Depths)
    requires ValidDigraph(g)
    requires Passing(g, source, node, j, queue, previous, depth) && j < |g.adjacency[node]| && g.adjacency[node][j] !in previous
    ensures node in depth && node in g.adjacency && depth.Keys == previous.Keys
    ensures var w := g.adjacency[node][j]; HasArc(g, node, w) && w in g.adjacency && w !in depth
  {
    hide PassedOnBut, QueueInOrder, Distinct;
  }

  lemma NeighbourIsNew(g: Digraph, source: Vertex, node: Vertex, j: nat, queue: seq<Vertex>,
                       previous: map<Vertex, Option<Vertex>>, depth: Depths)
    requires ValidDigraph(g)
    requires Passing(g, source, node, j, queue, previous, depth) && j < |g.adjacency[node]| && g.adjacency[node][j] !in previous
    ensures node in depth
    ensures var w := g.adjacency[node][j];
            Passing(g, source, node, j + 1, queue + [w], previous[w := Some(node)], depth[w := depth[node] + 1])
  {
    hide *;
    NeighbourFacts(g, source, node, j, queue, previous, depth);
    var w := g.adjacency[node][j];
    PassingParts(g, source, node, j, queue, previous, depth);
    QueueGrows(node, w, queue, depth);
    LevelsGrow(g, source, node, w, previous, depth);
    PassedGrows(g, node, w, depth[node] + 1, queue, depth);
    FirstGrows(g, node, j, depth);
    PassingIntro(g, source, node, j + 1, queue + [w], previous[w := Some(node)], depth[w := depth[node] + 1]);
  }

  lemma PassingParts(g: Digraph, source: Vertex, node: Vertex, j: nat, queue: seq<Vertex>,
                     previous: map<Vertex, Option<Vertex>>, depth: Depths)
    requires Passing(g, source, node, j, queue, previous, depth)
    ensures Levelled(g, source, previous, depth) && AfterNode(node, queue, depth)
    ensures PassedOnBut(g, node, queue, depth) && FirstPassed(g, node, j, depth)
  {
    hide Levelled, AfterNode, PassedOnBut, FirstPassed;
  }

  lemma PassingIntro(g: Digraph, source: Vertex, node: Vertex, j: nat, queue: seq<Vertex>,
                     previous: map<Vertex, Option<Vertex>>, depth: Depths)
    requires Levelled(g, source, previous, depth) && AfterNode(node, queue, depth)
    requires PassedOnBut(g, node, queue, depth) && FirstPassed(g, node, j, depth)
    ensures Passing(g, source, node, j, queue, previous, depth)
  {
    hide Levelled, AfterNode, PassedOnBut, FirstPassed;
  }

  lemma FirstGrows(g: Digraph, node: Vertex, j: nat, depth: Depths)
    requires FirstPassed(g, node, j, depth) && j < |g.adjacency[node]| && g.adjacency[node][j] !in depth
    ensures FirstPassed(g, node, j + 1, depth[g.adjacency[node][j] := depth[node] + 1])
  {
  }

  lemma NodeIsDone(g: Digraph, source: Vertex, node: Vertex, queue: seq<Vertex>, previous: map<Vertex, Option<Vertex>>, depth: Depths)
    requires node in g.adjacency && Passing(g, source, node, |g.adjacency[node]|, queue, previous, depth)
    ensures Searching(g, source, queue, previous, depth)
  {
    hide Levelled;
    assert PassedOn(g, node, depth);
    hide PassedOn;
  }

  lemma SearchEnds(g: Digraph, source: Vertex, target: Vertex, previous: map<Vertex, Option<Vertex>>, depth: Depths)
    requires Searching(g, source, [], previous, depth) && target !in depth
    ensures !Connected(g, source, target)
  {
    hide QueueInOrder;
    if Connected(g, source, target) {
      var route :| RouteBetween(g, route, source, target);
      ClosedHolds(g, depth.Keys, route);
    }
  }

  lemma SearchingFacts(g: Digraph, source: Vertex, queue: seq<Vertex>, previous: map<Vertex, Option<Vertex>>, depth: Depths)
    requires Searching(g, source, queue, previous, depth)
    ensures Levelled(g, source, previous, depth) && QueueInOrder(queue, depth) && AllPassedOn(g, queue, depth)
    ensures queue != [] ==> queue[0] in depth
    ensures queue != [] ==> forall v :: v in depth && v !in queue ==> depth[v] <= depth[queue[0]]
  {
    hide Levelled, AllPassedOn;
  }

  lemma PassingFacts(g: Digraph, source: Vertex, node: Vertex, j: nat, queue: seq<Vertex>,
                     previous: map<Vertex, Option<Vertex>>, depth: Depths)
    requires ValidDigraph(g) && Passing(g, source, node, j, queue, previous, depth)
    ensures node in g.adjacency && j <= |g.adjacency[node]| && previous.Keys == depth.Keys
    ensures forall i :: 0 <= i < |g.adjacency[node]| ==> g.adjacency[node][i] in g.adjacency
  {
    hide QueueInOrder, AllPassedOn;
  }

  method ShortestPath(g: Digraph, source: Vertex, target: Vertex) returns (r: Result<seq<Vertex>, GraphError>)
    requires ValidDigraph(g)
    ensures source !in g.adjacency || target !in g.adjacency ==> r == Err(UnknownNode)
    ensures source in g.adjacency && target in g.adjacency ==>
              if Connected(g, source, target) then r.Ok? && IsShortestRoute(g, source, target, r.value) else r == Err(NoRoute)
  {
    if source !in g.adjacency || target !in g.adjacency {
      return Err(UnknownNode);
    }
    hide Searching, Passing, ValidDigraph, Connected, IsShortestRoute, HasArc, Unseen;
    var queue := [source];
    var previous: map<Vertex, Option<Vertex>> := map[source := None];
    ghost var depth: Depths := map[source := 0];
    SearchBegins(g, source);
    while queue != []
      invariant Searching(g, source, queue, previous, depth)
      invariant previous.Keys == depth.Keys
      invariant target in depth ==> target in queue
      decreases |Unseen(g, previous.Keys)|, |queue|
    {
      var node := queue[0];
      if node == target {
        SearchingFacts(g, source, queue, previous, depth);
        var path := TraceBack(g, source, target, previous, depth);
        FrontIsShortest(g, source, target, queue, depth, path);
        return Ok(path);
      }
      NodeLeaves(g, source, queue, previous, depth);
      assert forall v :: v in queue[1..] ==> v in queue;
      queue := queue[1..];
      PassingFacts(g, source, node, 0, queue, previous, depth);
      ghost var known, waiting := previous.Keys, queue;
      var j := 0;
      while j < |g.adjacency[node]|
        invariant node in g.adjacency && j <= |g.adjacency[node]| && Passing(g, source, node, j, queue, previous, depth)
        invariant previous.Keys == depth.Keys
        invariant target in depth ==> target in queue
        invariant |Unseen(g, previous.Keys)| < |Unseen(g, known)| || (previous.Keys == known && queue == waiting)
        decreases |g.adjacency[node]| - j
      {
        PassingFacts(g, source, node, j, queue, previous, depth);
        var neighbor := g.adjacency[node][j];
        if neighbor !in previous {
          NeighbourIsNew(g, source, node, j, queue, previous, depth);
          Fewer(g, previous.Keys, previous[neighbor := Some(node)].Keys, neighbor);
          previous := previous[neighbor := Some(node)];
          depth := depth[neighbor := depth[node] + 1];
          queue := queue + [neighbor];
        } else {
          NeighbourIsKnown(g, source, node, j, queue, previous, depth);
        }
        j := j + 1;
      }
      NodeIsDone(g, source, node, queue, previous, depth);
    }
    SearchEnds(g, source, target, previous, depth);
    return Err(NoRoute);
  }
}
