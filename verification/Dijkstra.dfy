/** `dijkstra` with lazily deleted heap entries (lab 06). */
module Dijkstra {
  import opened Options
  import opened Sequences
  import opened Walks
  import opened BellmanFord

  /** A heap entry: distance, insertion number, vertex. */
  datatype Entry = Entry(distance: real, sequence: nat, node: Vertex)

  predicate NotAfter(a: Entry, b: Entry) {
    a.distance < b.distance || (a.distance == b.distance && a.sequence <= b.sequence)
  }

  /** The contract of `heappop`: a smallest entry leaves the heap, the others stay. */
  method PopSmallest(queue: seq<Entry>) returns (least: Entry, rest: seq<Entry>, ghost at: nat)
    requires queue != []
    ensures at < |queue| && least == queue[at] && rest == queue[..at] + queue[at + 1..]
    ensures forall i :: 0 <= i < |queue| ==> NotAfter(least, queue[i])
  {
    var k := 0;
    for i := 1 to |queue|
      invariant k < |queue|
      invariant forall j :: 0 <= j < i ==> NotAfter(queue[k], queue[j])
    {
      if !NotAfter(queue[k], queue[i]) {
        k := i;
      }
    }
    least, rest, at := queue[k], queue[..k] + queue[k + 1..], k;
  }

  function Wrap(d: map<Vertex, real>): Distances {
    map v | v in d :: Finite(d[v])
  }

  /** All out-edges of `u` are non-negative and respected by the distances. */
  ghost predicate Expanded(g: Graph, d: map<Vertex, real>, u: Vertex) {
    u in d && forall e :: HasEdge(g, e) && e.source == u ==> EdgeRespected(d, e)
  }

  ghost predicate EdgeRespected(d: map<Vertex, real>, e: Edge) {
    0.0 <= e.weight && e.source in d && e.target in d && d[e.target] <= d[e.source] + e.weight
  }

  /** Entries are never below the known distance, above it for settled vertices, and no two of a vertex coincide. */
  ghost predicate QueueOk(queue: seq<Entry>, d: map<Vertex, real>, settled: set<Vertex>) {
    && (forall i :: 0 <= i < |queue| ==> queue[i].node in d && d[queue[i].node] <= queue[i].distance)
    && (forall i :: 0 <= i < |queue| && queue[i].node in settled ==> d[queue[i].node] < queue[i].distance)
    && (forall i, j :: 0 <= i < j < |queue| && queue[i].node == queue[j].node ==> queue[i].distance != queue[j].distance)
    && (forall v :: v in d && v !in settled ==> Queued(queue, v, d[v]))
  }

  ghost predicate Queued(queue: seq<Entry>, v: Vertex, distance: real) {
    exists i :: 0 <= i < |queue| && queue[i].node == v && queue[i].distance == distance
  }

  /** No settled vertex is farther than anything still queued. */
  ghost predicate Frontier(queue: seq<Entry>, d: map<Vertex, real>, settled: set<Vertex>) {
    forall u, i :: u in settled && u in d && 0 <= i < |queue| ==> d[u] <= queue[i].distance
  }

  /** Settled vertices are final: predecessors are settled and tight, distances attained. */
  ghost predicate Solid(g: Graph, s: Vertex, d: map<Vertex, real>, p: Predecessors, settled: set<Vertex>) {
    && s in d && d[s] == 0.0
    && d.Keys <= Elements(g.nodes) && settled <= d.Keys
    && Attained(g, s, Wrap(d))
    && Links(g, s, Wrap(d), p) && Tree(s, p)
    && forall v :: v in p && p[v].Some? ==> p[v].value in settled
  }

  /** The state at the head of the main loop. */
  ghost predicate State(g: Graph, s: Vertex, queue: seq<Entry>, d: map<Vertex, real>, p: Predecessors, settled: set<Vertex>) {
    && QueueOk(queue, d, settled) && Frontier(queue, d, settled) && Solid(g, s, d, p, settled)
    && forall u :: u in settled ==> Expanded(g, d, u)
  }

  /** What is known of the settled vertices while the out-edges of the last one, `u`, are being looked at. */
  ghost predicate SettledUpTo(g: Graph, d: map<Vertex, real>, settled: set<Vertex>, u: Vertex, done: seq<Edge>) {
    && u in settled && settled <= d.Keys
    && (forall v :: v in settled ==> d[v] <= d[u])
    && (forall v :: v in settled && v != u ==> Expanded(g, d, v))
    && (forall e :: e in done ==> EdgeRespected(d, e) && e.source == u)
  }

  ghost predicate Expanding(g: Graph, s: Vertex, queue: seq<Entry>, d: map<Vertex, real>, p: Predecessors, settled: set<Vertex>, u: Vertex, done: seq<Edge>) {
    && QueueOk(queue, d, settled) && Frontier(queue, d, settled) && Solid(g, s, d, p, settled)
    && SettledUpTo(g, d, settled, u, done)
  }

  function Without(queue: seq<Entry>, at: nat): seq<Entry>
    requires at < |queue|
  {
    queue[..at] + queue[at + 1..]
  }

  /** What holds of every entry, or of every two, still does when one is taken out. */
  lemma WithoutKeeps(queue: seq<Entry>, at: nat, d: map<Vertex, real>, settled: set<Vertex>)
    requires QueueOk(queue, d, settled) && at < |queue|
    ensures var rest := Without(queue, at);
            && (forall i :: 0 <= i < |rest| ==> rest[i].node in d && d[rest[i].node] <= rest[i].distance)
            && (forall i :: 0 <= i < |rest| && rest[i].node in settled ==> d[rest[i].node] < rest[i].distance)
            && (forall i, j :: 0 <= i < j < |rest| && rest[i].node == rest[j].node ==> rest[i].distance != rest[j].distance)
  {
    var rest := Without(queue, at);
    forall i, j | 0 <= i < j < |rest| && rest[i].node == rest[j].node
      ensures rest[i].distance != rest[j].distance
    {
      var a, b := if i < at then i else i + 1, if j < at then j else j + 1;
      assert rest[i] == queue[a] && rest[j] == queue[b];
    }
  }

  lemma StillQueued(queue: seq<Entry>, at: nat, v: Vertex, distance: real)
    requires at < |queue| && Queued(queue, v, distance) && !(queue[at].node == v && queue[at].distance == distance)
    ensures Queued(Without(queue, at), v, distance)
  {
    var i :| 0 <= i < |queue| && queue[i].node == v && queue[i].distance == distance;
    assert Without(queue, at)[if i < at then i else i - 1] == queue[i];
  }

  /** A stale entry can be dropped. */
  lemma DropStale(queue: seq<Entry>, at: nat, d: map<Vertex, real>, settled: set<Vertex>)
    requires QueueOk(queue, d, settled) && Frontier(queue, d, settled)
    requires at < |queue| && d[queue[at].node] != queue[at].distance
    ensures QueueOk(Without(queue, at), d, settled) && Frontier(Without(queue, at), d, settled)
  {
    WithoutKeeps(queue, at, d, settled);
    forall v | v in d && v !in settled
      ensures Queued(Without(queue, at), v, d[v])
    {
      StillQueued(queue, at, v, d[v]);
    }
  }

  /** Taking out the only entry with its vertex's distance leaves farther ones of that vertex. */
  lemma OthersAreFarther(queue: seq<Entry>, at: nat, d: map<Vertex, real>, settled: set<Vertex>)
    requires QueueOk(queue, d, settled) && at < |queue| && d[queue[at].node] == queue[at].distance
    ensures forall i :: 0 <= i < |Without(queue, at)| && Without(queue, at)[i].node == queue[at].node ==>
                          d[queue[at].node] < Without(queue, at)[i].distance
  {
    var rest := Without(queue, at);
    forall i | 0 <= i < |rest| && rest[i].node == queue[at].node
      ensures d[queue[at].node] < rest[i].distance
    {
      var a := if i < at then i else i + 1;
      assert rest[i] == queue[a];
    }
  }

  /** A fresh smallest entry settles its vertex. */
  lemma SettleQueue(queue: seq<Entry>, at: nat, d: map<Vertex, real>, settled: set<Vertex>)
    requires QueueOk(queue, d, settled) && Frontier(queue, d, settled)
    requires at < |queue| && d[queue[at].node] == queue[at].distance
    requires forall i :: 0 <= i < |queue| ==> NotAfter(queue[at], queue[i])
    ensures queue[at].node !in settled
    ensures QueueOk(Without(queue, at), d, settled + {queue[at].node})
    ensures Frontier(Without(queue, at), d, settled + {queue[at].node})
  {
    WithoutKeeps(queue, at, d, settled);
    OthersAreFarther(queue, at, d, settled);
    forall v | v in d && v !in settled + {queue[at].node}
      ensures Queued(Without(queue, at), v, d[v])
    {
      StillQueued(queue, at, v, d[v]);
    }
  }

  lemma SettleFresh(g: Graph, s: Vertex, queue: seq<Entry>, at: nat, d: map<Vertex, real>, p: Predecessors, settled: set<Vertex>)
    requires State(g, s, queue, d, p, settled) && at < |queue| && d[queue[at].node] == queue[at].distance
    requires forall i :: 0 <= i < |queue| ==> NotAfter(queue[at], queue[i])
    ensures queue[at].node !in settled
    ensures Expanding(g, s, Without(queue, at), d, p, settled + {queue[at].node}, queue[at].node, [])
  {
    assert forall v :: v in settled ==> d[v] <= queue[at].distance;
    SettleQueue(queue, at, d, settled);
    hide QueueOk, Frontier, Attained, Links, Tree, Expanded, Without;
  }

  /** The edge brings nothing new. */
  lemma KeepEdge(g: Graph, s: Vertex, queue: seq<Entry>, d: map<Vertex, real>, p: Predecessors, settled: set<Vertex>, u: Vertex, done: seq<Edge>, e: Edge)
    requires Expanding(g, s, queue, d, p, settled, u, done)
    requires HasEdge(g, e) && e.source == u && 0.0 <= e.weight && e.target in d && d[e.target] <= d[u] + e.weight
    ensures Expanding(g, s, queue, d, p, settled, u, done + [e])
  {
    hide QueueOk, Frontier, Solid, Expanded;
  }

  lemma ImproveQueue(queue: seq<Entry>, d: map<Vertex, real>, settled: set<Vertex>, u: Vertex, v: Vertex, sequence: nat, candidate: real)
    requires QueueOk(queue, d, settled) && Frontier(queue, d, settled)
    requires u in d && (forall x :: x in settled ==> x in d && d[x] <= d[u]) && d[u] <= candidate
    requires v !in settled && (v in d ==> candidate < d[v])
    ensures QueueOk(queue + [Entry(candidate, sequence, v)], d[v := candidate], settled)
    ensures Frontier(queue + [Entry(candidate, sequence, v)], d[v := candidate], settled)
  {
    var e := Entry(candidate, sequence, v);
    LastIsQueued(queue, e);
    hide Queued;
    forall x | x in d && x !in settled && x != v
      ensures Queued(queue + [e], x, d[x])
    {
      OthersStayQueued(queue, e, x, d[x]);
    }
    ImprovedEntries(queue, d, settled, e);
  }

  /** The new entry is the least of its vertex, and no entry comes before a settled vertex. */
  lemma ImprovedEntries(queue: seq<Entry>, d: map<Vertex, real>, settled: set<Vertex>, e: Entry)
    requires QueueOk(queue, d, settled)
    requires e.node !in settled && (e.node in d ==> e.distance < d[e.node])
    ensures var q, f := queue + [e], d[e.node := e.distance];
            && (forall i :: 0 <= i < |q| ==> q[i].node in f && f[q[i].node] <= q[i].distance)
            && (forall i :: 0 <= i < |q| && q[i].node in settled ==> f[q[i].node] < q[i].distance)
            && forall i, j :: 0 <= i < j < |q| && q[i].node == q[j].node ==> q[i].distance != q[j].distance
  {
    hide Queued;
    var q, f := queue + [e], d[e.node := e.distance];
    forall i | 0 <= i < |q| ensures q[i].node in f && f[q[i].node] <= q[i].distance {
      if i < |queue| {
        assert q[i] == queue[i];
      }
    }
  }

  lemma LastIsQueued(queue: seq<Entry>, e: Entry)
    ensures Queued(queue + [e], e.node, e.distance)
  {
    assert (queue + [e])[|queue|] == e;
  }

  lemma OthersStayQueued(queue: seq<Entry>, e: Entry, x: Vertex, distance: real)
    requires Queued(queue, x, distance)
    ensures Queued(queue + [e], x, distance)
  {
    var i :| 0 <= i < |queue| && queue[i].node == x && queue[i].distance == distance;
    assert (queue + [e])[i] == queue[i];
  }

  /** A chain to a settled vertex runs through settled vertices only. */
  lemma ChainIsSettled(g: Graph, s: Vertex, d: map<Vertex, real>, p: Predecessors, settled: set<Vertex>, chain: seq<Vertex>, u: Vertex, k: nat)
    requires Solid(g, s, d, p, settled) && Chain(p, s, chain, u) && u in settled && k < |chain|
    ensures chain[k] in settled
  {
    if k < |chain| - 1 {
      assert p[chain[k + 1]] == Some(chain[k]);
    }
  }

  lemma ImproveSolid(g: Graph, s: Vertex, d: map<Vertex, real>, p: Predecessors, settled: set<Vertex>, e: Edge)
    requires ValidGraph(g) && HasEdge(g, e) && Solid(g, s, d, p, settled)
    requires e.source in settled && e.target !in settled && 0.0 <= e.weight
    requires e.target in d ==> d[e.source] + e.weight < d[e.target]
    requires s in settled
    ensures Solid(g, s, d[e.target := d[e.source] + e.weight], p[e.target := Some(e.source)], settled)
  {
    var u, v := e.source, e.target;
    var f, q := d[v := d[u] + e.weight], p[v := Some(u)];
    EdgeStaysInside(g, e);
    assert HasChain(p, s, u);
    var chain :| Chain(p, s, chain, u);
    forall k | 0 <= k < |chain|
      ensures chain[k] in settled
    {
      ChainIsSettled(g, s, d, p, settled, chain, u, k);
    }
    Rehang(s, p, u, v, chain);
    ImproveAttained(g, s, d, e);
    ImproveLinks(g, s, d, p, settled, e);
  }

  lemma ImproveAttained(g: Graph, s: Vertex, d: map<Vertex, real>, e: Edge)
    requires HasEdge(g, e) && e.source in d && Attained(g, s, Wrap(d))
    ensures Attained(g, s, Wrap(d[e.target := d[e.source] + e.weight]))
  {
    var f := d[e.target := d[e.source] + e.weight];
    assert Wrap(d)[e.source].Finite?;
    var walk :| IsWalk(g, s, walk, e.source) && Weight(walk) == d[e.source];
    WalkSnoc(g, s, walk, e);
    forall v | v in f
      ensures exists w :: IsWalk(g, s, w, v) && Weight(w) == f[v]
    {
      if v != e.target {
        assert Wrap(d)[v].Finite?;
      }
    }
  }

  lemma ImproveLinks(g: Graph, s: Vertex, d: map<Vertex, real>, p: Predecessors, settled: set<Vertex>, e: Edge)
    requires HasEdge(g, e) && Links(g, s, Wrap(d), p) && e.source in settled && e.target !in settled && settled <= d.Keys
    requires forall v :: v in p && p[v].Some? ==> p[v].value in settled
    ensures Links(g, s, Wrap(d[e.target := d[e.source] + e.weight]), p[e.target := Some(e.source)])
  {
    var f, q := d[e.target := d[e.source] + e.weight], p[e.target := Some(e.source)];
    assert Link(g, Wrap(f), e.source, e.target);
    forall v | v in q && q[v].Some?
      ensures Link(g, Wrap(f), q[v].value, v)
    {
      if v != e.target {
        assert Link(g, Wrap(d), p[v].value, v);
        assert p[v].value != e.target;
      }
    }
  }

  lemma StaysExpanded(g: Graph, d: map<Vertex, real>, v: Vertex, candidate: real, x: Vertex)
    requires Expanded(g, d, x) && x != v && (v in d ==> candidate <= d[v])
    ensures Expanded(g, d[v := candidate], x)
  {
    forall e | HasEdge(g, e) && e.source == x
      ensures EdgeRespected(d[v := candidate], e)
    {
      assert EdgeRespected(d, e);
    }
  }

  /** The distances of settled vertices and the edges looked at so far survive an improvement. */
  lemma ImproveDone(g: Graph, d: map<Vertex, real>, settled: set<Vertex>, u: Vertex, done: seq<Edge>, e: Edge)
    requires SettledUpTo(g, d, settled, u, done) && e.source == u && 0.0 <= e.weight
    requires e.target in d ==> d[u] + e.weight < d[e.target]
    ensures e.target !in settled && SettledUpTo(g, d[e.target := d[u] + e.weight], settled, u, done + [e])
  {
    hide Expanded;
    var f := d[e.target := d[u] + e.weight];
    forall v | v in settled && v != u
      ensures Expanded(g, f, v)
    {
      StaysExpanded(g, d, e.target, d[u] + e.weight, v);
    }
  }

  lemma SettledIsKnown(g: Graph, d: map<Vertex, real>, settled: set<Vertex>, u: Vertex, done: seq<Edge>)
    requires SettledUpTo(g, d, settled, u, done)
    ensures u in settled && u in d && forall v :: v in settled ==> v in d && d[v] <= d[u]
  {
  }

  /** The edge improves its target: new distance, new predecessor, new heap entry. */
  lemma ImproveEdge(g: Graph, s: Vertex, queue: seq<Entry>, d: map<Vertex, real>, p: Predecessors, settled: set<Vertex>, u: Vertex, done: seq<Edge>, e: Edge, sequence: nat)
    requires ValidGraph(g) && Expanding(g, s, queue, d, p, settled, u, done) && s in settled && u in d
    requires HasEdge(g, e) && e.source == u && 0.0 <= e.weight
    requires e.target in d ==> d[u] + e.weight < d[e.target]
    ensures var candidate := d[u] + e.weight;
            Expanding(g, s, queue + [Entry(candidate, sequence, e.target)], d[e.target := candidate], p[e.target := Some(u)], settled, u, done + [e])
  {
    hide QueueOk, Frontier, Solid, SettledUpTo, ValidGraph, HasEdge;
    SettledIsKnown(g, d, settled, u, done);
    ImproveDone(g, d, settled, u, done, e);
    ImproveQueue(queue, d, settled, u, e.target, sequence, d[u] + e.weight);
    ImproveSolid(g, s, d, p, settled, e);
  }

  // ---------- the end of the main loop ----------

  /** With nothing left in the heap every edge out of a reported vertex is respected. */
  ghost predicate Closed(g: Graph, s: Vertex, d: map<Vertex, real>) {
    s in d && d[s] == 0.0 && forall u :: u in d ==> Expanded(g, d, u)
  }

  lemma {:induction false} ClosedIsMinimal(g: Graph, s: Vertex, d: map<Vertex, real>, start: Vertex, walk: seq<Edge>, v: Vertex)
    requires Closed(g, s, d) && start in d && IsWalk(g, start, walk, v)
    ensures v in d && d[v] <= d[start] + Weight(walk)
    ensures forall i :: 0 <= i < |walk| ==> 0.0 <= walk[i].weight
  {
    if walk != [] {
      var front, last := walk[..|walk| - 1], walk[|walk| - 1];
      ClosedIsMinimal(g, s, d, start, front, last.source);
      assert EdgeRespected(d, last);
    }
  }

  /** Some reachable vertex has a negative out-edge. */
  ghost predicate NegativeEdgeReachable(g: Graph, s: Vertex) {
    exists e :: HasEdge(g, e) && e.weight < 0.0 && Reachable(g, s, e.source)
  }

  lemma ClosedHasNoNegatives(g: Graph, s: Vertex, d: map<Vertex, real>)
    requires Closed(g, s, d)
    ensures !NegativeCycleReachable(g, s) && !NegativeEdgeReachable(g, s)
  {
    forall there, v, loop | NegativeLoop(g, s, there, v, loop)
      ensures false
    {
      ClosedIsMinimal(g, s, d, s, there, v);
      ClosedIsMinimal(g, s, d, v, loop, v);
    }
    forall e | HasEdge(g, e) && Reachable(g, s, e.source)
      ensures 0.0 <= e.weight
    {
      var walk :| IsWalk(g, s, walk, e.source);
      ClosedIsMinimal(g, s, d, s, walk, e.source);
      assert EdgeRespected(d, e);
    }
  }

  lemma ClosedIsShortest(g: Graph, s: Vertex, d: map<Vertex, real>)
    requires Closed(g, s, d) && Attained(g, s, Wrap(d))
    ensures IsShortest(g, s, d)
  {
    forall walk, v | IsWalk(g, s, walk, v)
      ensures v in d && d[v] <= Weight(walk)
    {
      ClosedIsMinimal(g, s, d, s, walk, v);
    }
    hide Closed;
    forall v | v in d
      ensures exists walk :: IsWalk(g, s, walk, v) && Weight(walk) == d[v]
    {
      assert Wrap(d)[v].Finite?;
    }
  }

  lemma ClosedResult(g: Graph, s: Vertex, d: map<Vertex, real>, p: Predecessors)
    requires Closed(g, s, d) && Attained(g, s, Wrap(d)) && Links(g, s, Wrap(d), p) && Tree(s, p)
    ensures IsShortest(g, s, d) && Traceable(g, ShortestPaths(s, d, p)) && !NegativeEdgeReachable(g, s)
  {
    assert Reached(Wrap(d)) == d;
    ClosedHasNoNegatives(g, s, d);
    ClosedIsShortest(g, s, d);
    hide IsShortest, Traceable, Attained, Links, Tree, NegativeCycleReachable, NegativeEdgeReachable;
    TreeIsTraceable(g, s, Wrap(d), p);
  }

  lemma InitialState(g: Graph, s: Vertex)
    requires s in g.nodes
    ensures State(g, s, [Entry(0.0, 0, s)], map[s := 0.0], map[s := None], {})
  {
    var d := map[s := 0.0];
    assert IsWalk(g, s, [], s) && Weight([]) == 0.0;
    assert Chain(map[s := None], s, [s], s);
    assert [Entry(0.0, 0, s)][0] == Entry(0.0, 0, s);
    assert Queued([Entry(0.0, 0, s)], s, 0.0);
  }

  lemma AllSettled(g: Graph, s: Vertex, d: map<Vertex, real>, p: Predecessors, settled: set<Vertex>)
    requires State(g, s, [], d, p, settled)
    ensures Closed(g, s, d) && Attained(g, s, Wrap(d)) && Links(g, s, Wrap(d), p) && Tree(s, p)
  {
    forall v | v in d
      ensures v in settled
    {
      assert v !in settled ==> Queued([], v, d[v]);
    }
  }

  /** All out-edges of `u` have been looked at. */
  lemma DoneExpanding(g: Graph, s: Vertex, queue: seq<Entry>, d: map<Vertex, real>, p: Predecessors, settled: set<Vertex>, u: Vertex, done: seq<Edge>)
    requires Expanding(g, s, queue, d, p, settled, u, done)
    requires forall e: Edge :: HasEdge(g, e) && e.source == u ==> e in done
    ensures State(g, s, queue, d, p, settled)
  {
    hide QueueOk, Frontier, Solid;
    assert u in d by { ExpandingParts(g, s, queue, d, p, settled, u, done); }
    assert Expanded(g, d, u);
  }

  lemma ExpandingParts(g: Graph, s: Vertex, queue: seq<Entry>, d: map<Vertex, real>, p: Predecessors, settled: set<Vertex>, u: Vertex, done: seq<Edge>)
    requires Expanding(g, s, queue, d, p, settled, u, done)
    ensures u in d && settled <= d.Keys && settled <= Elements(g.nodes)
  {
  }

  /** A queued vertex is a known node of the graph; before anything is settled only the source is queued. */
  lemma QueuedIsKnown(g: Graph, s: Vertex, queue: seq<Entry>, d: map<Vertex, real>, p: Predecessors, settled: set<Vertex>, at: nat)
    requires ValidGraph(g) && State(g, s, queue, d, p, settled) && at < |queue|
    ensures queue[at].node in d && queue[at].node in g.nodes && queue[at].node in g.adjacency && settled <= Elements(g.nodes)
    ensures settled == {} ==> queue[at].node == s
  {
    var v := queue[at].node;
    assert v in d;
    if settled == {} {
      assert Wrap(d)[v].Finite?;
      assert HasChain(p, s, v);
      var chain :| Chain(p, s, chain, v);
      assert |chain| > 1 ==> p[chain[|chain| - 1]] == Some(chain[|chain| - 2]);
    }
  }

  lemma SettledShrinks(g: Graph, settled: set<Vertex>, v: Vertex)
    requires v in g.nodes && v !in settled
    ensures |Elements(g.nodes) - (settled + {v})| < |Elements(g.nodes) - settled|
  {
    assert Elements(g.nodes) - (settled + {v}) == (Elements(g.nodes) - settled) - {v};
  }

  /**
   * Refuses exactly when a reachable vertex has a negative out-edge; otherwise reports exactly the reachable
   * vertices with the least weight of any walk, and predecessor chains that are shortest paths.
   */
  method Dijkstra(g: Graph, source: Vertex) returns (result: Result<ShortestPaths, GraphError>)
    requires ValidGraph(g)
    ensures source !in g.nodes ==> result == Err(NodeNotFound)
    ensures source in g.nodes ==> (result == Err(NegativeWeight) <==> NegativeEdgeReachable(g, source))
    ensures source in g.nodes && result.Err? ==> result.error == NegativeWeight
    ensures result.Ok? ==> result.value.source == source && IsShortest(g, source, result.value.distances)
    ensures result.Ok? ==> Traceable(g, result.value)
  {
    if source !in g.nodes { return Err(NodeNotFound); }
    var distances: map<Vertex, real> := map[source := 0.0];
    var predecessors: Predecessors := map[source := None];
    var sequence := 1;
    var queue := [Entry(0.0, 0, source)];
    ghost var settled: set<Vertex> := {};
    InitialState(g, source);
    hide State, Expanding, IsShortest, Traceable, NegativeEdgeReachable, ValidGraph, NotAfter;
    while queue != []
      invariant State(g, source, queue, distances, predecessors, settled)
      invariant settled != {} ==> source in settled
      decreases |Elements(g.nodes) - settled|, |queue|
    {
      var least, rest, at := PopSmallest(queue);
      var node := least.node;
      QueuedIsKnown(g, source, queue, distances, predecessors, settled, at);
      if least.distance != distances[node] {
        DropStale(queue, at, distances, settled);
        queue := rest;
        continue;
      }
      SettleFresh(g, source, queue, at, distances, predecessors, settled);
      SettledShrinks(g, settled, node);
      settled := settled + {node};
      queue := rest;
      var failed;
      queue, distances, predecessors, sequence, failed :=
        Expand(g, source, node, queue, distances, predecessors, settled, sequence);
      if failed { return Err(NegativeWeight); }
    }
    AllSettled(g, source, distances, predecessors, settled);
    ClosedResult(g, source, distances, predecessors);
    result := Ok(ShortestPaths(source, distances, predecessors));
  }

  /** The inner loop: every neighbour of the vertex just settled; stops at a negative weight. */
  method Expand(g: Graph, source: Vertex, node: Vertex, queue0: seq<Entry>, distances0: map<Vertex, real>,
                predecessors0: Predecessors, ghost settled: set<Vertex>, sequence0: nat)
    returns (queue: seq<Entry>, distances: map<Vertex, real>, predecessors: Predecessors, sequence: nat, failed: bool)
    requires ValidGraph(g) && source in settled && node in g.adjacency
    requires Expanding(g, source, queue0, distances0, predecessors0, settled, node, [])
    ensures failed ==> NegativeEdgeReachable(g, source)
    ensures !failed ==> State(g, source, queue, distances, predecessors, settled)
  {
    hide *;
    queue, distances, predecessors, sequence, failed := queue0, distances0, predecessors0, sequence0, false;
    var edges := OutEdges(node, g.adjacency[node]);
    OutEdgesAreAll(g, node);
    assert edges[..0] == [];
    for i := 0 to |edges|
      invariant Expanding(g, source, queue, distances, predecessors, settled, node, edges[..i])
    {
      var e := edges[i];
      assert edges[..i + 1] == edges[..i] + [e];
      ExpandingParts(g, source, queue, distances, predecessors, settled, node, edges[..i]);
      assert e in edges && HasEdge(g, e) && e.source == node;
      if e.weight < 0.0 {
        NegativeEdgeFound(g, source, queue, distances, predecessors, settled, node, edges[..i], e);
        return queue, distances, predecessors, sequence, true;
      }
      var candidate := distances[node] + e.weight;
      if e.target !in distances || candidate < distances[e.target] {
        ImproveEdge(g, source, queue, distances, predecessors, settled, node, edges[..i], e, sequence);
        distances := distances[e.target := candidate];
        predecessors := predecessors[e.target := Some(node)];
        queue := queue + [Entry(candidate, sequence, e.target)];
        sequence := sequence + 1;
      } else {
        KeepEdge(g, source, queue, distances, predecessors, settled, node, edges[..i], e);
      }
    }
    assert edges[..|edges|] == edges;
    DoneExpanding(g, source, queue, distances, predecessors, settled, node, edges);
  }

  lemma NegativeEdgeFound(g: Graph, s: Vertex, queue: seq<Entry>, d: map<Vertex, real>, p: Predecessors, settled: set<Vertex>, u: Vertex, done: seq<Edge>, e: Edge)
    requires Expanding(g, s, queue, d, p, settled, u, done) && HasEdge(g, e) && e.source == u && e.weight < 0.0
    ensures NegativeEdgeReachable(g, s)
  {
    assert Wrap(d)[u].Finite?;
    assert Reachable(g, s, u);
  }
}
