/** Weighted directed graphs, walks in them and the weight of a walk (lab 06). */
module Walks {
  import opened Sequences

  /** Vertices stand for arbitrary hashable values; only their equality is used. */
  type Vertex = nat

  datatype Edge = Edge(source: Vertex, target: Vertex, weight: real)

  /** Insertion-ordered adjacency, as the repository's dictionaries keep it. */
  datatype Graph = Graph(nodes: seq<Vertex>, adjacency: map<Vertex, seq<(Vertex, real)>>)

  ghost predicate ValidGraph(g: Graph) {
    && Distinct(g.nodes)
    && (forall v :: v in g.nodes <==> v in g.adjacency)
    && (forall v, i :: v in g.adjacency && 0 <= i < |g.adjacency[v]| ==> g.adjacency[v][i].0 in g.nodes)
    && (forall v, i, j :: v in g.adjacency && 0 <= i < j < |g.adjacency[v]| ==> g.adjacency[v][i].0 != g.adjacency[v][j].0)
  }

  /** The graph has this edge. */
  ghost predicate HasEdge(g: Graph, e: Edge) {
    e.source in g.adjacency && (e.target, e.weight) in g.adjacency[e.source]
  }

  /** A walk from `s` to `v` is a list of edges, each starting where the one before it ended. */
  ghost predicate IsWalk(g: Graph, s: Vertex, walk: seq<Edge>, v: Vertex) {
    if walk == [] then s == v
    else
      var last := walk[|walk| - 1];
      HasEdge(g, last) && last.target == v && IsWalk(g, s, walk[..|walk| - 1], last.source)
  }

  function Weight(walk: seq<Edge>): real {
    if walk == [] then 0.0 else Weight(walk[..|walk| - 1]) + walk[|walk| - 1].weight
  }

  ghost predicate Reachable(g: Graph, s: Vertex, v: Vertex) {
    exists walk :: IsWalk(g, s, walk, v)
  }

  /** A closed walk of negative weight, at a vertex that a walk from `s` leads to. */
  ghost predicate NegativeLoop(g: Graph, s: Vertex, there: seq<Edge>, v: Vertex, loop: seq<Edge>) {
    IsWalk(g, s, there, v) && IsWalk(g, v, loop, v) && Weight(loop) < 0.0
  }

  ghost predicate NegativeCycleReachable(g: Graph, s: Vertex) {
    exists there, v, loop :: NegativeLoop(g, s, there, v, loop)
  }

  lemma WalkSnoc(g: Graph, s: Vertex, walk: seq<Edge>, e: Edge)
    requires IsWalk(g, s, walk, e.source) && HasEdge(g, e)
    ensures IsWalk(g, s, walk + [e], e.target) && Weight(walk + [e]) == Weight(walk) + e.weight
  {
    assert (walk + [e])[..|walk|] == walk;
  }

  lemma {:induction false} WalkConcat(g: Graph, s: Vertex, a: seq<Edge>, x: Vertex, b: seq<Edge>, v: Vertex)
    requires IsWalk(g, s, a, x) && IsWalk(g, x, b, v)
    ensures IsWalk(g, s, a + b, v) && Weight(a + b) == Weight(a) + Weight(b)
  {
    if b == [] {
      assert a + b == a;
    } else {
      var front, last := b[..|b| - 1], b[|b| - 1];
      WalkConcat(g, s, a, x, front, last.source);
      assert (a + b)[..|a + b| - 1] == a + front;
    }
  }

  /** The vertex a walk has reached after its first `k` edges. */
  function VertexAt(s: Vertex, walk: seq<Edge>, k: nat): Vertex
    requires k <= |walk|
  {
    if k == 0 then s else walk[k - 1].target
  }

  /** A walk can be cut at any vertex it visits. */
  lemma {:induction false} WalkSplit(g: Graph, s: Vertex, walk: seq<Edge>, v: Vertex, k: nat)
    requires IsWalk(g, s, walk, v) && k <= |walk|
    ensures IsWalk(g, s, walk[..k], VertexAt(s, walk, k)) && IsWalk(g, VertexAt(s, walk, k), walk[k..], v)
    ensures Weight(walk) == Weight(walk[..k]) + Weight(walk[k..])
    decreases |walk|
  {
    if k == |walk| {
      assert walk[..k] == walk;
    } else {
      var front, last := walk[..|walk| - 1], walk[|walk| - 1];
      WalkSplit(g, s, front, last.source, k);
      assert front[..k] == walk[..k];
      assert walk[k..][..|walk[k..]| - 1] == front[k..];
    }
  }

  lemma {:induction false} WalkStaysInside(g: Graph, s: Vertex, walk: seq<Edge>, v: Vertex)
    requires ValidGraph(g) && s in g.nodes && IsWalk(g, s, walk, v)
    ensures v in g.nodes
  {
    if walk != [] {
      var last := walk[|walk| - 1];
      var i :| 0 <= i < |g.adjacency[last.source]| && g.adjacency[last.source][i] == (last.target, last.weight);
    }
  }

  /** More positions than values force a repetition. */
  lemma {:induction false} Pigeonhole(s: seq<Vertex>, values: set<Vertex>) returns (i: nat, j: nat)
    requires |s| > |values| && forall k :: 0 <= k < |s| ==> s[k] in values
    ensures i < j < |s| && s[i] == s[j]
  {
    var last := s[|s| - 1];
    var front := s[..|s| - 1];
    if last in front {
      i, j :| i < |front| && front[i] == last && j == |s| - 1;
    } else {
      assert |values - {last}| == |values| - 1;
      i, j := Pigeonhole(front, values - {last});
    }
  }

  /** Without a negative cycle, a long walk can be replaced by one that visits no vertex twice too often. */
  lemma {:induction false} ShortWalk(g: Graph, s: Vertex, walk: seq<Edge>, v: Vertex) returns (short: seq<Edge>)
    requires ValidGraph(g) && s in g.nodes && IsWalk(g, s, walk, v)
    requires !NegativeCycleReachable(g, s)
    ensures IsWalk(g, s, short, v) && |short| < |g.nodes| && Weight(short) <= Weight(walk)
    decreases |walk|
  {
    if |walk| < |g.nodes| {
      short := walk;
    } else {
      var visited := seq(|walk| + 1, k requires 0 <= k <= |walk| => VertexAt(s, walk, k));
      forall k | 0 <= k < |visited|
        ensures visited[k] in Elements(g.nodes)
      {
        WalkSplit(g, s, walk, v, k);
        WalkStaysInside(g, s, walk[..k], visited[k]);
      }
      DistinctSize(g.nodes);
      var i, j := Pigeonhole(visited, Elements(g.nodes));
      short := CutLoop(g, s, walk, v, i, j);
      short := ShortWalk(g, s, short, v);
    }
  }

  lemma CutLoop(g: Graph, s: Vertex, walk: seq<Edge>, v: Vertex, i: nat, j: nat) returns (shorter: seq<Edge>)
    requires IsWalk(g, s, walk, v) && !NegativeCycleReachable(g, s)
    requires i < j <= |walk| && VertexAt(s, walk, i) == VertexAt(s, walk, j)
    ensures IsWalk(g, s, shorter, v) && |shorter| < |walk| && Weight(shorter) <= Weight(walk)
  {
    var x := VertexAt(s, walk, i);
    WalkSplit(g, s, walk, v, j);
    WalkSplit(g, s, walk[..j], x, i);
    assert walk[..j][..i] == walk[..i];
    var there, loop := walk[..i], walk[..j][i..];
    assert !NegativeLoop(g, s, there, x, loop);
    WalkConcat(g, s, there, x, walk[j..], v);
    shorter := there + walk[j..];
  }
}
