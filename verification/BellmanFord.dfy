/** `bellman_ford` and `path_to` (lab 06), proved against the set of all walks. */
module BellmanFord {
  import opened Options
  import opened Sequences
  import opened Walks

  datatype Distance = Infinite | Finite(value: real)

  datatype GraphError = NodeNotFound | NegativeCycle | NegativeWeight

  /** Distances of the reachable vertices and the predecessor map, as the repository returns them. */
  datatype ShortestPaths = ShortestPaths(source: Vertex, distances: map<Vertex, real>, predecessors: map<Vertex, Option<Vertex>>)

  predicate Improves(candidate: real, known: Distance) {
    known.Infinite? || candidate < known.value
  }

  /** `edges()`: for each node in order, its out-edges in order. */
  function OutEdges(v: Vertex, targets: seq<(Vertex, real)>): (r: seq<Edge>)
    ensures |r| == |targets| && forall i :: 0 <= i < |r| ==> r[i] == Edge(v, targets[i].0, targets[i].1)
  {
    if targets == [] then [] else [Edge(v, targets[0].0, targets[0].1)] + OutEdges(v, targets[1..])
  }

  function EdgesOf(g: Graph, nodes: seq<Vertex>): (r: seq<Edge>)
    requires forall v :: v in nodes ==> v in g.adjacency
    ensures forall e :: e in r <==> e.source in nodes && HasEdge(g, e)
  {
    if nodes == [] then []
    else
      var front := EdgesOf(g, nodes[..|nodes| - 1]);
      var last := nodes[|nodes| - 1];
      var out := OutEdges(last, g.adjacency[last]);
      assert nodes == nodes[..|nodes| - 1] + [last];
      assert forall e :: e in out <==> e.source == last && HasEdge(g, e) by { OutEdgesAreAll(g, last); }
      front + out
  }

  lemma OutEdgesAreAll(g: Graph, v: Vertex)
    requires v in g.adjacency
    ensures forall e: Edge :: e in OutEdges(v, g.adjacency[v]) <==> e.source == v && HasEdge(g, e)
  {
    var out := OutEdges(v, g.adjacency[v]);
    forall e: Edge | e.source == v && HasEdge(g, e)
      ensures e in out
    {
      var i :| 0 <= i < |g.adjacency[v]| && g.adjacency[v][i] == (e.target, e.weight);
      assert out[i] == e;
    }
  }

  function Edges(g: Graph): (r: seq<Edge>)
    requires ValidGraph(g)
    ensures forall e :: e in r <==> HasEdge(g, e)
  {
    EdgesOf(g, g.nodes)
  }

  // ---------- what holds between relaxations ----------

  type Distances = map<Vertex, Distance>

  type Predecessors = map<Vertex, Option<Vertex>>

  ghost predicate Covers(g: Graph, s: Vertex, d: Distances) {
    d.Keys == Elements(g.nodes) && s in d && d[s].Finite? && d[s].value <= 0.0
  }

  /** Every finite distance is the weight of some walk. */
  ghost predicate Attained(g: Graph, s: Vertex, d: Distances) {
    forall v :: v in d && d[v].Finite? ==> exists walk :: IsWalk(g, s, walk, v) && Weight(walk) == d[v].value
  }

  ghost predicate NoFarther(d: Distances, v: Vertex, weight: real) {
    v in d && d[v].Finite? && d[v].value <= weight
  }

  /** Distances are at most the weight of every walk of at most `k` edges. */
  ghost predicate WithinWalks(g: Graph, s: Vertex, d: Distances, k: nat) {
    forall walk, v :: IsWalk(g, s, walk, v) && |walk| <= k ==> NoFarther(d, v, Weight(walk))
  }

  /** The same for walks of `k + 1` edges whose last edge has been looked at in this round. */
  ghost predicate WithinRound(g: Graph, s: Vertex, d: Distances, k: nat, done: seq<Edge>) {
    forall walk, v :: IsWalk(g, s, walk, v) && |walk| == k + 1 && walk[k] in done ==> NoFarther(d, v, Weight(walk))
  }

  ghost predicate Relaxable(d: Distances, e: Edge) {
    && e.source in d && e.target in d && d[e.source].Finite?
    && Improves(d[e.source].value + e.weight, d[e.target])
  }

  ghost predicate Settled(d: Distances, edges: seq<Edge>) {
    forall e :: e in edges ==> !Relaxable(d, e)
  }

  function Relax(d: Distances, e: Edge): Distances
    requires e.source in d && e.target in d
  {
    if d[e.source].Finite? && Improves(d[e.source].value + e.weight, d[e.target])
    then d[e.target := Finite(d[e.source].value + e.weight)]
    else d
  }

  lemma RelaxAttained(g: Graph, s: Vertex, d: Distances, e: Edge)
    requires HasEdge(g, e) && e.source in d && e.target in d && Attained(g, s, d)
    ensures Attained(g, s, Relax(d, e))
  {
    if d[e.source].Finite? && Improves(d[e.source].value + e.weight, d[e.target]) {
      var walk :| IsWalk(g, s, walk, e.source) && Weight(walk) == d[e.source].value;
      WalkSnoc(g, s, walk, e);
    }
  }

  lemma RelaxWithin(g: Graph, s: Vertex, d: Distances, k: nat, done: seq<Edge>, e: Edge)
    requires HasEdge(g, e) && e.source in d && e.target in d
    requires WithinWalks(g, s, d, k) && WithinRound(g, s, d, k, done)
    ensures WithinWalks(g, s, Relax(d, e), k) && WithinRound(g, s, Relax(d, e), k, done + [e])
  {
    var r := Relax(d, e);
    assert forall v, w :: NoFarther(d, v, w) ==> NoFarther(r, v, w);
    forall walk, v | IsWalk(g, s, walk, v) && |walk| == k + 1 && walk[k] in done + [e]
      ensures NoFarther(r, v, Weight(walk))
    {
      if walk[k] !in done {
        assert walk[k] == e;
        assert IsWalk(g, s, walk[..k], e.source);
        assert NoFarther(d, e.source, Weight(walk[..k]));
      }
    }
  }

  /** After a full round the bound covers walks one edge longer. */
  lemma RoundDone(g: Graph, s: Vertex, d: Distances, k: nat, edges: seq<Edge>)
    requires WithinWalks(g, s, d, k) && WithinRound(g, s, d, k, edges)
    requires forall e :: e in edges <==> HasEdge(g, e)
    ensures WithinWalks(g, s, d, k + 1)
  {
    forall walk, v | IsWalk(g, s, walk, v) && |walk| <= k + 1
      ensures NoFarther(d, v, Weight(walk))
    {
      if |walk| == k + 1 {
        assert HasEdge(g, walk[k]);
      }
    }
  }

  /** Where no edge improves anything, distances are below the weight of every walk. */
  lemma {:induction false} SettledIsMinimal(g: Graph, s: Vertex, d: Distances, edges: seq<Edge>, start: Vertex, walk: seq<Edge>, v: Vertex)
    requires ValidGraph(g) && Covers(g, s, d) && Settled(d, edges) && forall e :: e in edges <==> HasEdge(g, e)
    requires start in d && d[start].Finite? && IsWalk(g, start, walk, v)
    ensures NoFarther(d, v, d[start].value + Weight(walk))
  {
    if walk != [] {
      var front, last := walk[..|walk| - 1], walk[|walk| - 1];
      SettledIsMinimal(g, s, d, edges, start, front, last.source);
      assert last.target in d by { EdgeStaysInside(g, last); }
      assert !Relaxable(d, last);
    }
  }

  lemma EdgeStaysInside(g: Graph, e: Edge)
    requires ValidGraph(g) && HasEdge(g, e)
    ensures e.source in g.nodes && e.target in g.nodes
  {
    var i :| 0 <= i < |g.adjacency[e.source]| && g.adjacency[e.source][i] == (e.target, e.weight);
  }

  lemma SettledMeansNoNegativeCycle(g: Graph, s: Vertex, d: Distances, edges: seq<Edge>)
    requires ValidGraph(g) && Covers(g, s, d) && Settled(d, edges) && forall e :: e in edges <==> HasEdge(g, e)
    ensures !NegativeCycleReachable(g, s)
  {
    forall there, v, loop | NegativeLoop(g, s, there, v, loop)
      ensures false
    {
      SettledIsMinimal(g, s, d, edges, s, there, v);
      SettledIsMinimal(g, s, d, edges, v, loop, v);
    }
  }

  /** After `|nodes| - 1` rounds without a negative cycle nothing can be improved any more. */
  lemma AllRoundsSettle(g: Graph, s: Vertex, d: Distances, edges: seq<Edge>)
    requires ValidGraph(g) && s in g.nodes && Covers(g, s, d) && Attained(g, s, d)
    requires WithinWalks(g, s, d, |g.nodes| - 1)
    requires !NegativeCycleReachable(g, s) && forall e :: e in edges <==> HasEdge(g, e)
    ensures Settled(d, edges)
  {
    forall e | e in edges
      ensures !Relaxable(d, e)
    {
      if e.source in d && d[e.source].Finite? {
        var walk :| IsWalk(g, s, walk, e.source) && Weight(walk) == d[e.source].value;
        WalkSnoc(g, s, walk, e);
        var short := ShortWalk(g, s, walk + [e], e.target);
        assert NoFarther(d, e.target, Weight(short));
      }
    }
  }

  // ---------- the predecessor tree ----------

  /** A chain of predecessors from the source to `v`. */
  ghost predicate Chain(p: Predecessors, s: Vertex, chain: seq<Vertex>, v: Vertex) {
    && chain != [] && chain[0] == s && chain[|chain| - 1] == v
    && s in p && p[s] == None
    && forall i :: 1 <= i < |chain| ==> chain[i] in p && p[chain[i]] == Some(chain[i - 1])
  }

  ghost predicate HasChain(p: Predecessors, s: Vertex, v: Vertex) {
    exists chain :: Chain(p, s, chain, v)
  }

  /** A predecessor link is an edge that is at least tight. */
  ghost predicate Link(g: Graph, d: Distances, u: Vertex, v: Vertex) {
    && u in d && v in d && d[u].Finite? && d[v].Finite?
    && exists e :: HasEdge(g, e) && e.source == u && e.target == v && d[u].value + e.weight <= d[v].value
  }

  ghost predicate Links(g: Graph, s: Vertex, d: Distances, p: Predecessors) {
    && (forall v :: v in p <==> v in d && d[v].Finite?)
    && (forall v :: v in p && p[v].Some? ==> Link(g, d, p[v].value, v))
  }

  ghost predicate Tree(s: Vertex, p: Predecessors) {
    forall v :: v in p ==> HasChain(p, s, v)
  }

  /** The walk along part of a chain, and how far it may raise the distance. */
  lemma {:induction false} ChainWalk(g: Graph, s: Vertex, d: Distances, p: Predecessors, chain: seq<Vertex>, v: Vertex, k: nat) returns (walk: seq<Edge>)
    requires Links(g, s, d, p) && Chain(p, s, chain, v) && k < |chain|
    ensures chain[k] in d && d[chain[k]].Finite? && v in d && d[v].Finite?
    ensures IsWalk(g, chain[k], walk, v) && d[chain[k]].value + Weight(walk) <= d[v].value
    ensures |walk| == |chain| - 1 - k && forall i :: 0 <= i < |walk| ==> walk[i].source == chain[k + i] && walk[i].target == chain[k + i + 1]
    decreases |chain|
  {
    if k == |chain| - 1 {
      walk := [];
      if k > 0 { assert p[chain[k]] == Some(chain[k - 1]); }
    } else {
      var front := chain[..|chain| - 1];
      var u := front[|front| - 1];
      assert p[v] == Some(u) by { assert chain[|chain| - 1] == v; }
      walk := ChainWalk(g, s, d, p, front, u, k);
      var e :| HasEdge(g, e) && e.source == u && e.target == v && d[u].value + e.weight <= d[v].value;
      WalkSnoc(g, chain[k], walk, e);
      walk := walk + [e];
    }
  }

  /** Closing a chain on itself would take a negative cycle. */
  lemma NoClosing(g: Graph, s: Vertex, d: Distances, p: Predecessors, e: Edge, chain: seq<Vertex>)
    requires Links(g, s, d, p) && Attained(g, s, d) && !NegativeCycleReachable(g, s)
    requires HasEdge(g, e) && Relaxable(d, e) && Chain(p, s, chain, e.source)
    ensures e.target !in chain
  {
    if e.target in chain {
      var k :| 0 <= k < |chain| && chain[k] == e.target;
      var walk := ChainWalk(g, s, d, p, chain, e.source, k);
      WalkSnoc(g, e.target, walk, e);
      var there :| IsWalk(g, s, there, e.target) && Weight(there) == d[e.target].value;
      assert NegativeLoop(g, s, there, e.target, walk + [e]);
    }
  }

  lemma {:induction false} LastIndex(chain: seq<Vertex>, v: Vertex) returns (k: nat)
    requires v in chain
    ensures k < |chain| && chain[k] == v && v !in chain[k + 1..]
  {
    k := |chain| - 1;
    while chain[k] != v
      invariant k < |chain| && v !in chain[k + 1..]
      invariant v in chain[..k + 1]
      decreases k
    {
      assert chain[..k + 1] == chain[..k] + [chain[k]];
      k := k - 1;
      assert chain[k + 1..] == [chain[k + 1]] + chain[k + 2..];
    }
  }

  /** Re-hanging `v` below `u` keeps every vertex on a chain from the source. */
  lemma Rehang(s: Vertex, p: Predecessors, u: Vertex, v: Vertex, chain: seq<Vertex>)
    requires Tree(s, p) && Chain(p, s, chain, u) && v !in chain
    ensures Tree(s, p[v := Some(u)])
  {
    var q := p[v := Some(u)];
    assert s != v by { assert chain[0] == s; }
    forall x | x in q
      ensures HasChain(q, s, x)
    {
      if x == v {
        assert Chain(q, s, chain + [v], v);
      } else {
        var c :| Chain(p, s, c, x);
        if v !in c {
          assert Chain(q, s, c, x);
        } else {
          var k := LastIndex(c, v);
          var tail := c[k + 1..];
          var joined := chain + [v] + tail;
          forall i | 1 <= i < |joined|
            ensures joined[i] in q && q[joined[i]] == Some(joined[i - 1])
          {
            if i > |chain| {
              var j := i - |chain| + k;
              assert joined[i] == c[j] && joined[i - 1] == c[j - 1];
              assert c[j] in tail;
            }
          }
          assert Chain(q, s, joined, x);
        }
      }
    }
  }

  lemma RelaxLinks(g: Graph, s: Vertex, d: Distances, p: Predecessors, e: Edge)
    requires HasEdge(g, e) && Relaxable(d, e) && Links(g, s, d, p)
    requires e.source != e.target
    ensures Links(g, s, Relax(d, e), p[e.target := Some(e.source)])
  {
    var r, q := Relax(d, e), p[e.target := Some(e.source)];
    forall v | v in q && q[v].Some?
      ensures Link(g, r, q[v].value, v)
    {
      if v != e.target {
        var u := p[v].value;
        assert Link(g, d, u, v);
      }
    }
  }

  // ---------- the result ----------

  /** Exactly the reachable vertices, each with the least weight of any walk to it. */
  ghost predicate IsShortest(g: Graph, s: Vertex, distances: map<Vertex, real>) {
    && (forall v :: v in distances <==> Reachable(g, s, v))
    && (forall v :: v in distances ==> exists walk :: IsWalk(g, s, walk, v) && Weight(walk) == distances[v])
    && (forall walk, v :: IsWalk(g, s, walk, v) ==> v in distances && distances[v] <= Weight(walk))
  }

  ghost predicate Along(walk: seq<Edge>, path: seq<Vertex>) {
    |path| == |walk| + 1 && forall i :: 0 <= i < |walk| ==> walk[i].source == path[i] && walk[i].target == path[i + 1]
  }

  /** The path is a walk from the source to `v` whose weight is the distance of `v`. */
  ghost predicate ShortestAlong(g: Graph, s: Vertex, distances: map<Vertex, real>, path: seq<Vertex>, v: Vertex) {
    v in distances && exists walk :: IsWalk(g, s, walk, v) && Along(walk, path) && Weight(walk) == distances[v]
  }

  /** Every reported vertex hangs on a chain of predecessors, and every such chain is a shortest path. */
  ghost predicate Traceable(g: Graph, sp: ShortestPaths) {
    && (forall v :: v in sp.distances ==> HasChain(sp.predecessors, sp.source, v))
    && (forall chain, v :: Chain(sp.predecessors, sp.source, chain, v) && v in sp.distances ==>
                             ShortestAlong(g, sp.source, sp.distances, chain, v))
  }

  function Reached(d: Distances): map<Vertex, real> {
    map v | v in d && d[v].Finite? :: d[v].value
  }

  lemma SettledIsShortest(g: Graph, s: Vertex, d: Distances, edges: seq<Edge>)
    requires ValidGraph(g) && Covers(g, s, d) && Settled(d, edges) && Attained(g, s, d)
    requires forall e :: e in edges <==> HasEdge(g, e)
    ensures IsShortest(g, s, Reached(d))
  {
    forall walk, v | IsWalk(g, s, walk, v)
      ensures NoFarther(d, v, Weight(walk))
    {
      SettledIsMinimal(g, s, d, edges, s, walk, v);
    }
  }

  /** Where distances are minimal, every chain of predecessor links is a shortest path. */
  lemma ChainIsShortest(g: Graph, s: Vertex, d: Distances, p: Predecessors, chain: seq<Vertex>, v: Vertex)
    requires Links(g, s, d, p) && Chain(p, s, chain, v) && IsShortest(g, s, Reached(d))
    requires s in d && d[s].Finite? && !NegativeCycleReachable(g, s)
    ensures ShortestAlong(g, s, Reached(d), chain, v)
  {
    var walk := ChainWalk(g, s, d, p, chain, v, 0);
    hide Links, Chain;
    var home :| IsWalk(g, s, home, s) && Weight(home) == Reached(d)[s];
    assert !NegativeLoop(g, s, [], s, home);
    assert IsWalk(g, s, walk, v) && Along(walk, chain) && Weight(walk) == Reached(d)[v];
  }

  lemma TreeIsTraceable(g: Graph, s: Vertex, d: Distances, p: Predecessors)
    requires Links(g, s, d, p) && Tree(s, p) && IsShortest(g, s, Reached(d))
    requires s in d && d[s].Finite? && !NegativeCycleReachable(g, s)
    ensures Traceable(g, ShortestPaths(s, Reached(d), p))
  {
    forall chain, v | Chain(p, s, chain, v)
      ensures ShortestAlong(g, s, Reached(d), chain, v)
    {
      ChainIsShortest(g, s, d, p, chain, v);
    }
  }

  /** The state between two relaxations, as far as every outcome of the algorithm needs it. */
  ghost predicate Invariant(g: Graph, s: Vertex, d: Distances, p: Predecessors) {
    && Covers(g, s, d)
    && Attained(g, s, d)
    && (!NegativeCycleReachable(g, s) ==> Links(g, s, d, p) && Tree(s, p))
  }

  lemma InitiallyInvariant(g: Graph, s: Vertex)
    requires s in g.nodes
    ensures var d := (map v | v in Elements(g.nodes) :: Infinite)[s := Finite(0.0)];
            Invariant(g, s, d, map[s := None]) && WithinWalks(g, s, d, 0)
  {
    var d := (map v | v in Elements(g.nodes) :: Infinite)[s := Finite(0.0)];
    assert IsWalk(g, s, [], s) && Weight([]) == 0.0;
    assert Chain(map[s := None], s, [s], s);
  }

  lemma RelaxKeepsInvariant(g: Graph, s: Vertex, d: Distances, p: Predecessors, e: Edge)
    requires Invariant(g, s, d, p) && HasEdge(g, e) && Relaxable(d, e)
    ensures Invariant(g, s, Relax(d, e), p[e.target := Some(e.source)])
  {
    RelaxAttained(g, s, d, e);
    if !NegativeCycleReachable(g, s) {
      assert HasChain(p, s, e.source);
      var chain :| Chain(p, s, chain, e.source);
      NoClosing(g, s, d, p, e, chain);
      RelaxLinks(g, s, d, p, e);
      Rehang(s, p, e.source, e.target, chain);
    }
  }

  ghost predicate InRound(g: Graph, s: Vertex, d: Distances, p: Predecessors, round: nat, done: seq<Edge>) {
    Invariant(g, s, d, p) && WithinWalks(g, s, d, round) && WithinRound(g, s, d, round, done)
  }

  /** Looking at one more edge, whether or not it improves a distance. */
  lemma EdgeInRound(g: Graph, s: Vertex, d: Distances, p: Predecessors, round: nat, done: seq<Edge>, e: Edge)
    requires ValidGraph(g) && HasEdge(g, e) && InRound(g, s, d, p, round, done)
    ensures e.source in d && e.target in d
    ensures Relaxable(d, e) ==> InRound(g, s, Relax(d, e), p[e.target := Some(e.source)], round, done + [e])
    ensures !Relaxable(d, e) ==> InRound(g, s, d, p, round, done + [e])
    ensures !Relaxable(d, e) && Settled(d, done) ==> Settled(d, done + [e])
  {
    EdgeStaysInside(g, e);
    RelaxWithin(g, s, d, round, done, e);
    hide IsWalk, Links, Tree, Attained, WithinWalks, WithinRound, NegativeCycleReachable, HasEdge, ValidGraph;
    if Relaxable(d, e) {
      RelaxKeepsInvariant(g, s, d, p, e);
    }
  }

  lemma NothingLookedAt(g: Graph, s: Vertex, d: Distances, p: Predecessors, round: nat)
    requires Invariant(g, s, d, p) && WithinWalks(g, s, d, round)
    ensures InRound(g, s, d, p, round, []) && Settled(d, [])
  {
  }

  lemma InRoundParts(g: Graph, s: Vertex, d: Distances, p: Predecessors, round: nat, done: seq<Edge>)
    requires InRound(g, s, d, p, round, done)
    ensures Invariant(g, s, d, p) && WithinWalks(g, s, d, round) && WithinRound(g, s, d, round, done)
  {
  }

  /** One round: every edge once, in order. */
  method RelaxAll(g: Graph, source: Vertex, edges: seq<Edge>, ghost round: nat, before: Distances, links: Predecessors)
    returns (distances: Distances, predecessors: Predecessors, changed: bool)
    requires ValidGraph(g) && forall e :: e in edges <==> HasEdge(g, e)
    requires Invariant(g, source, before, links) && WithinWalks(g, source, before, round)
    ensures Invariant(g, source, distances, predecessors) && WithinWalks(g, source, distances, round + 1)
    ensures !changed ==> Settled(distances, edges)
  {
    distances, predecessors, changed := before, links, false;
    hide ValidGraph, HasEdge, Settled, Invariant, WithinWalks;
    assert edges[..0] == [];
    NothingLookedAt(g, source, distances, predecessors, round);
    hide InRound;
    for i := 0 to |edges|
      invariant InRound(g, source, distances, predecessors, round, edges[..i])
      invariant !changed ==> Settled(distances, edges[..i])
    {
      var e := edges[i];
      EdgeInRound(g, source, distances, predecessors, round, edges[..i], e);
      assert edges[..i + 1] == edges[..i] + [e];
      if distances[e.source] == Infinite {
        continue;
      }
      var candidate := distances[e.source].value + e.weight;
      if Improves(candidate, distances[e.target]) {
        distances := distances[e.target := Finite(candidate)];
        predecessors := predecessors[e.target := Some(e.source)];
        changed := true;
      }
    }
    assert edges[..|edges|] == edges;
    InRoundParts(g, source, distances, predecessors, round, edges);
    RoundDone(g, source, distances, round, edges);
  }

  /** The final pass: is there an edge that would still improve a distance? */
  method StillRelaxable(g: Graph, edges: seq<Edge>, distances: Distances) returns (found: bool)
    requires ValidGraph(g) && distances.Keys == Elements(g.nodes) && forall e :: e in edges ==> HasEdge(g, e)
    ensures found <==> !Settled(distances, edges)
  {
    for i := 0 to |edges|
      invariant Settled(distances, edges[..i])
    {
      var e := edges[i];
      EdgeStaysInside(g, e);
      assert edges[..i + 1] == edges[..i] + [e];
      if distances[e.source] != Infinite && Improves(distances[e.source].value + e.weight, distances[e.target]) {
        assert Relaxable(distances, e);
        return true;
      }
    }
    assert edges[..|edges|] == edges;
    found := false;
  }

  /**
   * Raises the negative-cycle error exactly when a negative closed walk is reachable; otherwise reports
   * the least weight over all walks, however early the rounds stopped, with shortest predecessor chains.
   */
  method BellmanFord(g: Graph, source: Vertex) returns (result: Result<ShortestPaths, GraphError>)
    requires ValidGraph(g)
    ensures source !in g.nodes ==> result == Err(NodeNotFound)
    ensures source in g.nodes ==> (result == Err(NegativeCycle) <==> NegativeCycleReachable(g, source))
    ensures source in g.nodes && result.Err? ==> result.error == NegativeCycle
    ensures result.Ok? ==> result.value.source == source && IsShortest(g, source, result.value.distances)
    ensures result.Ok? ==> Traceable(g, result.value)
  {
    if source !in g.nodes { return Err(NodeNotFound); }
    var distances: Distances := map v | v in Elements(g.nodes) :: Infinite;
    var predecessors: Predecessors := map[source := None];
    distances := distances[source := Finite(0.0)];
    InitiallyInvariant(g, source);
    var edges := Edges(g);
    ghost var settled := false;
    for round := 0 to |g.nodes| - 1
      invariant Invariant(g, source, distances, predecessors)
      invariant WithinWalks(g, source, distances, round)
    {
      var changed;
      distances, predecessors, changed := RelaxAll(g, source, edges, round, distances, predecessors);
      if !changed {
        settled := true;
        break;
      }
    }
    if !settled && !NegativeCycleReachable(g, source) {
      AllRoundsSettle(g, source, distances, edges);
    }
    var found := StillRelaxable(g, edges, distances);
    if found { return Err(NegativeCycle); }
    SettledMeansNoNegativeCycle(g, source, distances, edges);
    SettledIsShortest(g, source, distances, edges);
    TreeIsTraceable(g, source, distances, predecessors);
    result := Ok(ShortestPaths(source, Reached(distances), predecessors));
  }

  /** Follows the predecessors back from the target; ends, and yields a path whose weight is the distance. */
  method PathTo(g: Graph, sp: ShortestPaths, target: Vertex) returns (result: Result<seq<Vertex>, GraphError>)
    requires Traceable(g, sp)
    ensures target !in sp.distances ==> result == Err(NodeNotFound)
    ensures target in sp.distances ==> result.Ok? && ShortestAlong(g, sp.source, sp.distances, result.value, target)
  {
    if target !in sp.distances { return Err(NodeNotFound); }
    assert HasChain(sp.predecessors, sp.source, target);
    ghost var chain :| Chain(sp.predecessors, sp.source, chain, target);
    var path: seq<Vertex> := [];
    var current := Some(target);
    while current != None
      invariant |path| <= |chain|
      invariant forall i :: 0 <= i < |path| ==> path[i] == chain[|chain| - 1 - i]
      invariant current == if |path| < |chain| then Some(chain[|chain| - 1 - |path|]) else None
      decreases |chain| - |path|
    {
      path := path + [current.value];
      current := sp.predecessors[current.value];
    }
    var forward := seq(|path|, i requires 0 <= i < |path| => path[|path| - 1 - i]);
    assert forward == chain;
    result := Ok(forward);
  }
}
