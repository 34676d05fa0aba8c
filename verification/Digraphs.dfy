/** Directed graphs, paths by hops, and the recursive depth-first preorder (lab 06). */
module Digraphs {
  import opened Sets
  import opened Sequences
  import opened Walks

  /** Insertion-ordered adjacency without weights. */
  datatype Digraph = Digraph(nodes: seq<Vertex>, adjacency: map<Vertex, seq<Vertex>>)

  ghost predicate ValidDigraph(g: Digraph) {
    && Distinct(g.nodes)
    && (forall v :: v in g.nodes <==> v in g.adjacency)
    && (forall v :: v in g.adjacency ==> Distinct(g.adjacency[v]))
    && (forall v, w :: v in g.adjacency && w in g.adjacency[v] ==> w in g.adjacency)
  }

  ghost predicate HasArc(g: Digraph, v: Vertex, w: Vertex) {
    v in g.adjacency && w in g.adjacency[v]
  }

  /** A path lists the nodes it visits. */
  ghost predicate IsRoute(g: Digraph, route: seq<Vertex>) {
    && route != []
    && (forall i :: 0 <= i < |route| ==> route[i] in g.adjacency)
    && forall i :: 0 <= i < |route| - 1 ==> HasArc(g, route[i], route[i + 1])
  }

  ghost predicate RouteBetween(g: Digraph, route: seq<Vertex>, v: Vertex, w: Vertex) {
    IsRoute(g, route) && route[0] == v && route[|route| - 1] == w
  }

  ghost predicate Connected(g: Digraph, v: Vertex, w: Vertex) {
    exists route :: RouteBetween(g, route, v, w)
  }

  ghost predicate HasCycle(g: Digraph) {
    exists route :: IsRoute(g, route) && |route| >= 2 && route[0] == route[|route| - 1]
  }

  lemma RouteSnoc(g: Digraph, route: seq<Vertex>, v: Vertex, w: Vertex, x: Vertex)
    requires RouteBetween(g, route, v, w) && HasArc(g, w, x) && x in g.adjacency
    ensures RouteBetween(g, route + [x], v, x)
  {
  }

  lemma RouteJoin(g: Digraph, a: seq<Vertex>, b: seq<Vertex>, v: Vertex, w: Vertex, x: Vertex, y: Vertex)
    requires RouteBetween(g, a, v, w) && RouteBetween(g, b, x, y) && HasArc(g, w, x)
    ensures RouteBetween(g, a + b, v, y)
  {
  }

  // ---------- depth-first preorder ----------

  function Unseen(g: Digraph, seen: set<Vertex>): set<Vertex> {
    g.adjacency.Keys - seen
  }

  /** The nodes a recursive depth-first visit of each of `todo` in turn lists, leaving out those already seen. */
  function Preorder(g: Digraph, todo: seq<Vertex>, seen: set<Vertex>): seq<Vertex>
    decreases |Unseen(g, seen)|, |todo|
  {
    if todo == [] then []
    else
      var v := todo[0];
      if v in seen || v !in g.adjacency then Preorder(g, todo[1..], seen)
      else
        Fewer(g, seen, seen + {v}, v);
        var visit := [v] + Preorder(g, g.adjacency[v], seen + {v});
        Fewer(g, seen, seen + Elements(visit), v);
        visit + Preorder(g, todo[1..], seen + Elements(visit))
  }

  lemma Fewer(g: Digraph, seen: set<Vertex>, more: set<Vertex>, v: Vertex)
    requires seen <= more && v in more && v in g.adjacency && v !in seen
    ensures |Unseen(g, more)| < |Unseen(g, seen)|
  {
    SubsetSize(Unseen(g, more), Unseen(g, seen) - {v});
  }

  lemma ElementsConcat(a: seq<Vertex>, b: seq<Vertex>)
    ensures Elements(a + b) == Elements(a) + Elements(b)
  {
  }

  /** A list that begins with a new node: first everything under that node, then the rest. */
  lemma PreorderVisits(g: Digraph, todo: seq<Vertex>, seen: set<Vertex>) returns (visit: seq<Vertex>)
    requires todo != [] && todo[0] !in seen && todo[0] in g.adjacency
    ensures visit == [todo[0]] + Preorder(g, g.adjacency[todo[0]], seen + {todo[0]})
    ensures Preorder(g, todo, seen) == visit + Preorder(g, todo[1..], seen + Elements(visit))
    ensures |Unseen(g, seen + Elements(visit))| < |Unseen(g, seen)|
  {
    visit := [todo[0]] + Preorder(g, g.adjacency[todo[0]], seen + {todo[0]});
    Fewer(g, seen, seen + Elements(visit), todo[0]);
  }

  lemma PreorderPasses(g: Digraph, todo: seq<Vertex>, seen: set<Vertex>)
    requires todo != [] && (todo[0] in seen || todo[0] !in g.adjacency)
    ensures Preorder(g, todo, seen) == Preorder(g, todo[1..], seen)
  {
  }

  /** Visiting one list after another. */
  lemma {:induction false} PreorderConcat(g: Digraph, a: seq<Vertex>, b: seq<Vertex>, seen: set<Vertex>)
    ensures Preorder(g, a + b, seen) == Preorder(g, a, seen) + Preorder(g, b, seen + Elements(Preorder(g, a, seen)))
    decreases |Unseen(g, seen)|, |a|
  {
    hide *;
    if a == [] {
      NothingToVisit(g, seen);
      assert a + b == b;
    } else {
      assert (a + b)[1..] == a[1..] + b;
      if a[0] in seen || a[0] !in g.adjacency {
        PreorderPasses(g, a, seen);
        PreorderPasses(g, a + b, seen);
        PreorderConcat(g, a[1..], b, seen);
      } else {
        var visit := PreorderVisits(g, a, seen);
        var both := PreorderVisits(g, a + b, seen);
        var later := seen + Elements(visit);
        PreorderConcat(g, a[1..], b, later);
        var rest := Preorder(g, a[1..], later);
        ElementsConcat(visit, rest);
        assert later + Elements(rest) == seen + Elements(visit + rest);
        var more := Preorder(g, b, later + Elements(rest));
        assert visit + (rest + more) == (visit + rest) + more;
      }
    }
  }

  lemma NothingToVisit(g: Digraph, seen: set<Vertex>)
    ensures Preorder(g, [], seen) == [] && seen + Elements([]) == seen
  {
  }

  /** Every node is listed once, and none that was already seen. */
  lemma {:induction false} PreorderIsDistinct(g: Digraph, todo: seq<Vertex>, seen: set<Vertex>)
    ensures Distinct(Preorder(g, todo, seen))
    ensures forall x :: x in Preorder(g, todo, seen) ==> x in g.adjacency && x !in seen
    decreases |Unseen(g, seen)|, |todo|
  {
    if todo != [] {
      var v := todo[0];
      if v in seen || v !in g.adjacency {
        PreorderIsDistinct(g, todo[1..], seen);
      } else {
        Fewer(g, seen, seen + {v}, v);
        PreorderIsDistinct(g, g.adjacency[v], seen + {v});
        var visit := [v] + Preorder(g, g.adjacency[v], seen + {v});
        Fewer(g, seen, seen + Elements(visit), v);
        PreorderIsDistinct(g, todo[1..], seen + Elements(visit));
        var rest := Preorder(g, todo[1..], seen + Elements(visit));
        DistinctConcat(visit, rest);
      }
    }
  }

  lemma DistinctConcat(a: seq<Vertex>, b: seq<Vertex>)
    requires Distinct(a) && Distinct(b) && forall x :: x in b ==> x !in a
    ensures Distinct(a + b)
  {
    forall i, j | 0 <= i < j < |a + b| ensures (a + b)[i] != (a + b)[j] {
      if i < |a| && j >= |a| {
        assert a[i] in a && b[j - |a|] in b;
      }
    }
  }

  /** What is listed is closed under arcs, up to what was already seen. */
  lemma {:induction false} PreorderIsClosed(g: Digraph, todo: seq<Vertex>, seen: set<Vertex>)
    requires forall v :: v in todo ==> v in g.adjacency
    requires ValidDigraph(g)
    ensures forall v :: v in todo ==> v in seen || v in Preorder(g, todo, seen)
    ensures forall v, w :: v in Preorder(g, todo, seen) && HasArc(g, v, w) ==> w in seen || w in Preorder(g, todo, seen)
    decreases |Unseen(g, seen)|, |todo|
  {
    if todo != [] {
      var v := todo[0];
      if v in seen {
        PreorderIsClosed(g, todo[1..], seen);
      } else {
        Fewer(g, seen, seen + {v}, v);
        PreorderIsClosed(g, g.adjacency[v], seen + {v});
        var visit := [v] + Preorder(g, g.adjacency[v], seen + {v});
        Fewer(g, seen, seen + Elements(visit), v);
        PreorderIsClosed(g, todo[1..], seen + Elements(visit));
      }
    }
  }

  /** What is listed can be reached from the list to visit. */
  lemma {:induction false} PreorderIsReached(g: Digraph, todo: seq<Vertex>, seen: set<Vertex>, source: Vertex)
    requires ValidDigraph(g)
    requires forall v :: v in todo ==> Connected(g, source, v)
    ensures forall v :: v in Preorder(g, todo, seen) ==> Connected(g, source, v)
    decreases |Unseen(g, seen)|, |todo|
  {
    if todo != [] {
      var v := todo[0];
      if v in seen || v !in g.adjacency {
        PreorderIsReached(g, todo[1..], seen, source);
      } else {
        Fewer(g, seen, seen + {v}, v);
        forall w | w in g.adjacency[v] ensures Connected(g, source, w) {
          ArcConnects(g, source, v, w);
        }
        PreorderIsReached(g, g.adjacency[v], seen + {v}, source);
        var visit := [v] + Preorder(g, g.adjacency[v], seen + {v});
        Fewer(g, seen, seen + Elements(visit), v);
        PreorderIsReached(g, todo[1..], seen + Elements(visit), source);
      }
    }
  }

  lemma ArcConnects(g: Digraph, source: Vertex, v: Vertex, w: Vertex)
    requires ValidDigraph(g) && Connected(g, source, v) && HasArc(g, v, w)
    ensures Connected(g, source, w)
  {
    var route :| RouteBetween(g, route, source, v);
    RouteSnoc(g, route, source, v, w);
  }

  /** A set closed under arcs holds whatever can be reached from it. */
  lemma {:induction false} ClosedHolds(g: Digraph, inside: set<Vertex>, route: seq<Vertex>)
    requires IsRoute(g, route) && route[0] in inside
    requires forall v, w :: v in inside && HasArc(g, v, w) ==> w in inside
    ensures route[|route| - 1] in inside
  {
    if |route| > 1 {
      ClosedHolds(g, inside, route[..|route| - 1]);
      assert HasArc(g, route[|route| - 2], route[|route| - 1]);
    }
  }

  /** The preorder from a node lists exactly the nodes that can be reached from it. */
  lemma PreorderIsReachable(g: Digraph, source: Vertex, v: Vertex)
    requires ValidDigraph(g) && source in g.adjacency
    ensures v in Preorder(g, [source], {}) <==> Connected(g, source, v)
  {
    var order := Preorder(g, [source], {});
    PreorderIsClosed(g, [source], {});
    assert RouteBetween(g, [source], source, source);
    PreorderIsReached(g, [source], {}, source);
    if Connected(g, source, v) {
      var route :| RouteBetween(g, route, source, v);
      assert source in [source];
      ClosedHolds(g, Elements(order), route);
    }
  }

  // ---------- the order itself ----------

  /** The first in the list that has not been seen. */
  ghost predicate FirstNew(list: seq<Vertex>, seen: set<Vertex>, w: Vertex) {
    w !in seen && exists k :: 0 <= k < |list| && list[k] == w && forall i :: 0 <= i < k ==> list[i] in seen
  }

  ghost predicate AllSeen(list: seq<Vertex>, seen: set<Vertex>) {
    forall w :: w in list ==> w in seen
  }

  /** The latest listed node that has an arc to a new node. */
  ghost predicate LatestOpen(g: Digraph, order: seq<Vertex>, seen: set<Vertex>, j: int)
    requires forall v :: v in order ==> v in g.adjacency
  {
    0 <= j < |order| && !AllSeen(g.adjacency[order[j]], seen) && forall k :: j < k < |order| ==> AllSeen(g.adjacency[order[k]], seen)
  }

  /**
   * After this much of the order comes `next`: the first new node that the latest node with arcs to new nodes leads to; and if
   * there is no such node, the first new one to visit.
   */
  ghost predicate Continues(g: Digraph, todo: seq<Vertex>, seen: set<Vertex>, order: seq<Vertex>, next: Vertex)
    requires forall v :: v in order ==> v in g.adjacency
  {
    var known := seen + Elements(order);
    || (exists j :: LatestOpen(g, order, known, j) && FirstNew(g.adjacency[order[j]], known, next))
    || ((forall v :: v in order ==> AllSeen(g.adjacency[v], known)) && FirstNew(todo, known, next))
  }

  lemma ContinuesBelow(g: Digraph, v: Vertex, todo: seq<Vertex>, seen: set<Vertex>, order: seq<Vertex>, next: Vertex)
    requires v in g.adjacency && forall x :: x in order ==> x in g.adjacency
    requires Continues(g, g.adjacency[v], seen + {v}, order, next)
    ensures forall x :: x in [v] + order ==> x in g.adjacency
    ensures Continues(g, todo, seen, [v] + order, next)
  {
    var longer := [v] + order;
    var known := seen + {v} + Elements(order);
    assert seen + Elements(longer) == known by { ElementsConcat([v], order); }
    hide FirstNew, AllSeen, Elements;
    if j :| LatestOpen(g, order, known, j) && FirstNew(g.adjacency[order[j]], known, next) {
      assert longer[j + 1] == order[j];
      assert LatestOpen(g, longer, known, j + 1);
    } else {
      FirstIsOpen(g.adjacency[v], known, next);
      assert LatestOpen(g, longer, known, 0);
    }
  }

  lemma FirstIsOpen(list: seq<Vertex>, seen: set<Vertex>, w: Vertex)
    requires FirstNew(list, seen, w)
    ensures !AllSeen(list, seen)
  {
  }

  lemma ContinuesAfter(g: Digraph, todo: seq<Vertex>, seen: set<Vertex>, visit: seq<Vertex>, order: seq<Vertex>, next: Vertex)
    requires todo != [] && (todo[0] in visit || todo[0] in seen) && forall x :: x in visit + order ==> x in g.adjacency
    requires forall x :: x in visit ==> AllSeen(g.adjacency[x], seen + Elements(visit))
    requires forall x :: x in order ==> x in g.adjacency
    requires Continues(g, todo[1..], seen + Elements(visit), order, next)
    ensures Continues(g, todo, seen, visit + order, next)
  {
    var known := seen + Elements(visit) + Elements(order);
    ElementsConcat(visit, order);
    assert seen + Elements(visit + order) == known;
    forall x | x in visit ensures AllSeen(g.adjacency[x], known) {
    }
    assert todo[0] in known;
    if j :| LatestOpen(g, order, known, j) && FirstNew(g.adjacency[order[j]], known, next) {
      hide FirstNew, AllSeen, Elements;
      assert (visit + order)[|visit| + j] == order[j];
      assert LatestOpen(g, visit + order, known, |visit| + j);
    } else {
      FirstNewLater(todo, known, next);
    }
  }

  lemma FirstNewLater(todo: seq<Vertex>, seen: set<Vertex>, w: Vertex)
    requires todo != [] && todo[0] in seen && FirstNew(todo[1..], seen, w)
    ensures FirstNew(todo, seen, w)
  {
    var k :| 0 <= k < |todo[1..]| && todo[1..][k] == w && forall i :: 0 <= i < k ==> todo[1..][i] in seen;
    assert todo[k + 1] == w && forall i :: 1 <= i < k + 1 ==> todo[i] == todo[1..][i - 1];
  }

  lemma OrderIsInside(g: Digraph, todo: seq<Vertex>, seen: set<Vertex>, i: nat)
    requires i <= |Preorder(g, todo, seen)|
    ensures forall v :: v in Preorder(g, todo, seen)[..i] ==> v in g.adjacency
  {
    PreorderIsDistinct(g, todo, seen);
    hide Preorder, Distinct;
  }

  lemma TailIsInside(g: Digraph, todo: seq<Vertex>)
    requires todo != [] && forall v :: v in todo ==> v in g.adjacency
    ensures todo[0] in g.adjacency && forall v :: v in todo[1..] ==> v in g.adjacency
  {
  }

  lemma ArcsAreInside(g: Digraph, v: Vertex)
    requires ValidDigraph(g) && v in g.adjacency
    ensures forall w :: w in g.adjacency[v] ==> w in g.adjacency
  {
  }

  lemma NothingSeenYet(seen: set<Vertex>, order: seq<Vertex>)
    ensures seen + Elements([]) == seen && [] + order == order
  {
  }

  /** The order never goes back further than it must. */
  lemma {:induction false} PreorderGoesDeepest(g: Digraph, todo: seq<Vertex>, seen: set<Vertex>, i: nat)
    requires ValidDigraph(g) && (forall v :: v in todo ==> v in g.adjacency) && i < |Preorder(g, todo, seen)|
    ensures forall v :: v in Preorder(g, todo, seen)[..i] ==> v in g.adjacency
    ensures Continues(g, todo, seen, Preorder(g, todo, seen)[..i], Preorder(g, todo, seen)[i])
    decreases |Unseen(g, seen)|, |todo|
  {
    hide *;
    OrderIsInside(g, todo, seen, i);
    NothingSeenYet(seen, Preorder(g, todo, seen)[..i]);
    NothingToVisit(g, seen);
    TailIsInside(g, todo);
    var order := Preorder(g, todo, seen);
    if todo[0] in seen {
      PreorderPasses(g, todo, seen);
      PreorderGoesDeepest(g, todo[1..], seen, i);
      ContinuesAfter(g, todo, seen, [], order[..i], order[i]);
    } else if i == 0 {
      FirstVisit(g, todo, seen);
    } else {
      var v := todo[0];
      var visit := PreorderVisits(g, todo, seen);
      Fewer(g, seen, seen + {v}, v);
      ArcsAreInside(g, v);
      if i < |visit| {
        PreorderGoesDeepest(g, g.adjacency[v], seen + {v}, i - 1);
        var below := Preorder(g, g.adjacency[v], seen + {v});
        assert order[..i] == [v] + below[..i - 1];
        ContinuesBelow(g, v, todo, seen, below[..i - 1], order[i]);
      } else {
        var rest := Preorder(g, todo[1..], seen + Elements(visit));
        PreorderGoesDeepest(g, todo[1..], seen + Elements(visit), i - |visit|);
        assert order[..i] == visit + rest[..i - |visit|];
        VisitIsClosed(g, v, seen, visit);
        ContinuesAfter(g, todo, seen, visit, rest[..i - |visit|], order[i]);
      }
    }
  }

  lemma FirstVisit(g: Digraph, todo: seq<Vertex>, seen: set<Vertex>)
    requires todo != [] && todo[0] !in seen && todo[0] in g.adjacency
    ensures Preorder(g, todo, seen) != [] && Continues(g, todo, seen, Preorder(g, todo, seen)[..0], Preorder(g, todo, seen)[0])
  {
    assert seen + Elements([]) == seen;
  }

  lemma VisitIsClosed(g: Digraph, v: Vertex, seen: set<Vertex>, visit: seq<Vertex>)
    requires ValidDigraph(g) && v in g.adjacency && v !in seen && visit == [v] + Preorder(g, g.adjacency[v], seen + {v})
    ensures forall x :: x in visit ==> x in g.adjacency && AllSeen(g.adjacency[x], seen + Elements(visit))
  {
    PreorderIsClosed(g, g.adjacency[v], seen + {v});
    PreorderIsDistinct(g, g.adjacency[v], seen + {v});
  }

  /**
   * A depth-first order begins with its source, and each further node is the first new one that the latest listed node with
   * an arc to a new node leads to.
   */
  lemma DepthFirstGoesDeepest(g: Digraph, source: Vertex, i: nat)
    requires ValidDigraph(g) && source in g.adjacency && i < |Preorder(g, [source], {})|
    ensures var order := Preorder(g, [source], {});
            && (forall v :: v in order ==> v in g.adjacency)
            && if i == 0 then order[0] == source
               else exists j :: LatestOpen(g, order[..i], Elements(order[..i]), j)
                                && FirstNew(g.adjacency[order[j]], Elements(order[..i]), order[i])
  {
    var order := Preorder(g, [source], {});
    PreorderIsDistinct(g, [source], {});
    PreorderGoesDeepest(g, [source], {}, i);
    assert {} + Elements(order[..i]) == Elements(order[..i]);
    if i > 0 {
      PreorderGoesDeepest(g, [source], {}, 0);
      assert order[0] == source;
      assert order[..i][0] == source;
    }
  }
}
