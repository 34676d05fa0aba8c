/** The cycle check before a run of lab 30: the sorter's documented behaviour, which `validate` relies on. */
module DagCycles {
  import opened Options
  import opened Sets
  import opened Sequences
  import opened DagModel

  /** A closed path: it ends where it begins, and its other tasks are all different. */
  ghost predicate IsCycle(d: Dag, cycle: seq<Task>) {
    && IsPath(d, cycle) && |cycle| >= 2
    && cycle[0] == cycle[|cycle| - 1]
    && Distinct(cycle[1..])
  }

  lemma {:induction false} RankRises(d: Dag, rank: map<Task, nat>, path: seq<Task>)
    requires Ranked(d, rank) && IsPath(d, path)
    ensures path[|path| - 1] in rank && path[0] in rank && rank[path[0]] + |path| - 1 <= rank[path[|path| - 1]]
    decreases |path|
  {
    if |path| > 1 {
      RankRises(d, rank, path[..|path| - 1]);
      assert path[|path| - 1] in Children(d, path[|path| - 2]);
    }
  }

  lemma CycleIsNotAcyclic(d: Dag, cycle: seq<Task>)
    requires IsCycle(d, cycle)
    ensures !Acyclic(d)
  {
    if Acyclic(d) {
      var rank :| Ranked(d, rank);
      RankRises(d, rank, cycle);
    }
  }

  // ---------- the tasks without a predecessor, again and again ----------

  function Free(d: Dag, left: set<Task>): set<Task>
    requires left <= d.specs.Keys
  {
    set t | t in left && Deps(d, t) * left == {}
  }

  /** Whoever has left the graph is ranked above its dependencies, and below `level`. */
  ghost predicate Layered(d: Dag, rank: map<Task, nat>, left: set<Task>, level: nat) {
    && left <= d.specs.Keys && rank.Keys == d.specs.Keys - left
    && (forall t :: t in rank ==> rank[t] < level)
    && forall t, u :: t in rank && u in d.specs[t].dependsOn && u in d.specs ==> u in rank && rank[u] < rank[t]
  }

  function Deepen(rank: map<Task, nat>, free: set<Task>, level: nat): map<Task, nat> {
    map t | t in rank.Keys + free :: if t in rank then rank[t] else level
  }

  lemma NextLayer(d: Dag, rank: map<Task, nat>, left: set<Task>, level: nat)
    requires Layered(d, rank, left, level)
    ensures Layered(d, Deepen(rank, Free(d, left), level), left - Free(d, left), level + 1)
  {
    var free := Free(d, left);
    var next := Deepen(rank, free, level);
    assert free <= left;
    assert next.Keys == d.specs.Keys - (left - free);
    hide Free, Deepen;
    forall t, u | t in next && u in d.specs[t].dependsOn && u in d.specs
      ensures u in next && next[u] < next[t]
    {
      NextLayerAt(d, rank, left, level, t, u);
    }
    forall t | t in next ensures next[t] < level + 1 {
      DeepenAt(rank, free, level, t);
    }
  }

  lemma DeepenAt(rank: map<Task, nat>, free: set<Task>, level: nat, t: Task)
    requires t in rank || t in free
    ensures t in Deepen(rank, free, level) && Deepen(rank, free, level)[t] == if t in rank then rank[t] else level
  {
  }

  lemma NextLayerAt(d: Dag, rank: map<Task, nat>, left: set<Task>, level: nat, t: Task, u: Task)
    requires Layered(d, rank, left, level) && t in d.specs && u in d.specs[t].dependsOn && u in d.specs
    requires t in rank || t in Free(d, left)
    ensures var next := Deepen(rank, Free(d, left), level); t in next && u in next && next[u] < next[t]
  {
    hide Free, Deepen;
    DeepenAt(rank, Free(d, left), level, t);
    if t !in rank {
      FreeDependsOnGone(d, left, t, u);
    }
    DeepenAt(rank, Free(d, left), level, u);
  }

  lemma Shared(a: set<Task>, b: set<Task>, u: Task)
    requires u in a && u in b
    ensures a * b != {}
  {
    assert u in a * b;
  }

  lemma FreeDependsOnGone(d: Dag, left: set<Task>, t: Task, u: Task)
    requires left <= d.specs.Keys && t in Free(d, left) && u in d.specs[t].dependsOn
    ensures u !in left
  {
    assert u in Deps(d, t);
    assert Deps(d, t) * left == {};
    if u in left {
      Shared(Deps(d, t), left, u);
    }
  }

  lemma AllLayered(d: Dag, rank: map<Task, nat>, level: nat)
    requires Layered(d, rank, {}, level)
    ensures Acyclic(d)
  {
    assert Ranked(d, rank);
  }

  /** Nobody left is free: everyone depends on somebody left. */
  ghost predicate Knotted(d: Dag, left: set<Task>) {
    left <= d.specs.Keys && left != {} && forall t :: t in left ==> Deps(d, t) * left != {}
  }

  lemma NobodyFree(d: Dag, left: set<Task>)
    requires left <= d.specs.Keys && left != {} && Free(d, left) == {}
    ensures Knotted(d, left)
  {
    forall t | t in left ensures Deps(d, t) * left != {} {
      assert t !in Free(d, left);
    }
  }

  // ---------- walking back ----------

  /** A path inside `left` that visits no task twice. */
  ghost predicate Trail(d: Dag, left: set<Task>, trail: seq<Task>) {
    && IsPath(d, trail)
    && (forall i :: 0 <= i < |trail| ==> trail[i] in left)
    && Distinct(trail)
  }

  lemma TrailGrows(d: Dag, left: set<Task>, trail: seq<Task>, u: Task)
    requires left <= d.specs.Keys && Trail(d, left, trail) && u in left && u in d.specs[trail[0]].dependsOn
    ensures IsPath(d, [u] + trail)
    ensures u !in trail ==> Trail(d, left, [u] + trail)
  {
    assert trail[0] in Children(d, u);
  }

  lemma TrailFits(d: Dag, left: set<Task>, trail: seq<Task>)
    requires Trail(d, left, trail)
    ensures |trail| <= |left|
  {
    DistinctSize(trail);
    assert Elements(trail) <= left;
    SubsetSize(Elements(trail), left);
  }

  /** The trail up to the task it would visit again. */
  lemma CloseTrail(d: Dag, left: set<Task>, trail: seq<Task>, u: Task, i: nat)
    requires left <= d.specs.Keys && Trail(d, left, trail) && u in d.specs[trail[0]].dependsOn && i < |trail| && trail[i] == u
    ensures IsCycle(d, [u] + trail[..i + 1])
  {
    assert trail[0] in Children(d, u);
    assert ([u] + trail[..i + 1])[1..] == trail[..i + 1];
  }

  method Position(trail: seq<Task>, u: Task) returns (i: nat)
    requires u in trail
    ensures i < |trail| && trail[i] == u
  {
    i := 0;
    while trail[i] != u
      invariant i < |trail| && u in trail[i..]
      decreases |trail| - i
    {
      assert trail[i..] == [trail[i]] + trail[i + 1..];
      i := i + 1;
    }
  }

  method WalkBack(d: Dag, left: set<Task>) returns (cycle: seq<Task>)
    requires Knotted(d, left)
    ensures IsCycle(d, cycle)
  {
    hide Trail, IsCycle, IsPath;
    var t :| t in left;
    var trail := [t];
    assert Trail(d, left, trail) by { OneTask(d, left, t); }
    while true
      invariant Trail(d, left, trail) && trail != [] && trail[0] in left
      decreases |left| - |trail|
    {
      var u :| u in Deps(d, trail[0]) * left;
      TrailGrows(d, left, trail, u);
      if u in trail {
        var i := Position(trail, u);
        CloseTrail(d, left, trail, u, i);
        return [u] + trail[..i + 1];
      }
      TrailFits(d, left, [u] + trail);
      trail := [u] + trail;
    }
  }

  lemma OneTask(d: Dag, left: set<Task>, t: Task)
    requires t in left && left <= d.specs.Keys
    ensures Trail(d, left, [t])
  {
  }

  /** The check: no answer exactly for an acyclic graph, otherwise a cycle of it. */
  method Validate(d: Dag) returns (found: Option<seq<Task>>)
    ensures found == None <==> Acyclic(d)
    ensures found.Some? ==> IsCycle(d, found.value)
  {
    hide Layered, Knotted, IsCycle, Acyclic;
    var left := d.specs.Keys;
    ghost var rank: map<Task, nat>, level: nat := map[], 0;
    assert Layered(d, rank, left, level) by { NothingLayered(d); }
    while Free(d, left) != {}
      invariant left <= d.specs.Keys && Layered(d, rank, left, level)
      decreases |left|
    {
      var free := Free(d, left);
      NextLayer(d, rank, left, level);
      FewerLeft(left, free);
      rank, level := Deepen(rank, free, level), level + 1;
      left := left - free;
    }
    if left == {} {
      AllLayered(d, rank, level);
      return None;
    }
    NobodyFree(d, left);
    var cycle := WalkBack(d, left);
    CycleIsNotAcyclic(d, cycle);
    return Some(cycle);
  }

  lemma NothingLayered(d: Dag)
    ensures Layered(d, map[], d.specs.Keys, 0)
  {
  }

  lemma FewerLeft(left: set<Task>, free: set<Task>)
    requires free <= left && free != {}
    ensures |left - free| < |left|
  {
    var t := Member(free);
    SubsetSize(left - free, left - {t});
  }
}
