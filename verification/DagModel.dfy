/** Task graphs, attempt plans and critical paths of the DAG engine (lab 30). */
module DagModel {
  import opened Options
  import opened Sets

  /** Task ids in their usual order. */
  type Task = nat

  datatype Disposition = Success | Retry | Failure

  datatype Outcome = Outcome(disposition: Disposition, duration: nat, detail: string)

  datatype NodeSpec = NodeSpec(id: Task, dependsOn: seq<Task>, maxAttempts: int)

  datatype Dag = Dag(specs: map<Task, NodeSpec>, maxParallel: nat)

  type Plans = map<Task, seq<Outcome>>

  datatype DagError = InvalidParallelism | DuplicateNode | MissingDependency | CycleDetected(cycle: seq<Task>) | AttemptPlanExhausted(task: Task)

  ghost predicate ValidDag(d: Dag) {
    && 1 <= d.maxParallel
    && forall t, u :: t in d.specs && u in d.specs[t].dependsOn ==> u in d.specs
  }

  function Indexed(nodes: seq<NodeSpec>): map<Task, NodeSpec> {
    if nodes == [] then map[] else Indexed(nodes[..|nodes| - 1])[nodes[|nodes| - 1].id := nodes[|nodes| - 1]]
  }

  /** The constructor's checks, in its order. */
  function Create(nodes: seq<NodeSpec>, maxParallel: int): Result<Dag, DagError> {
    if maxParallel < 1 then Err(InvalidParallelism)
    else
      var indexed := Indexed(nodes);
      if |indexed| != |nodes| then Err(DuplicateNode)
      else if exists i :: 0 <= i < |nodes| && exists u :: u in nodes[i].dependsOn && u !in indexed then Err(MissingDependency)
      else Ok(Dag(indexed, maxParallel))
  }

  function Deps(d: Dag, t: Task): set<Task>
    requires t in d.specs
  {
    set u | u in d.specs[t].dependsOn
  }

  function Children(d: Dag, t: Task): set<Task> {
    set c | c in d.specs && t in d.specs[c].dependsOn
  }

  /** The graph is acyclic: every task can be ranked above its dependencies. */
  ghost predicate Ranked(d: Dag, rank: map<Task, nat>) {
    && rank.Keys == d.specs.Keys
    && forall t, u :: t in d.specs && u in d.specs[t].dependsOn && u in d.specs ==> rank[u] < rank[t]
  }

  ghost predicate Acyclic(d: Dag) {
    exists rank :: Ranked(d, rank)
  }

  // ---------- attempt plans ----------

  /** The planned outcome of an attempt (counted from one): without a plan an attempt succeeds in one tick. */
  function Planned(plans: Plans, t: Task, attempt: nat): Option<Outcome>
    requires 1 <= attempt
  {
    if t !in plans then Some(Outcome(Success, 1, ""))
    else if attempt - 1 >= |plans[t]| then None
    else Some(plans[t][attempt - 1])
  }

  /** Whether an attempt with this outcome is followed by another one. */
  predicate Repeats(d: Dag, t: Task, attempt: nat, o: Outcome)
    requires t in d.specs
  {
    o.disposition == Retry && attempt < d.specs[t].maxAttempts
  }

  function PlanLength(plans: Plans, t: Task): nat {
    if t in plans then |plans[t]| else 1
  }

  /** The planned time of all attempts after the first `k`. */
  function Remaining(d: Dag, plans: Plans, t: Task, k: nat): nat
    requires t in d.specs
    decreases PlanLength(plans, t) - k
  {
    match Planned(plans, t, k + 1)
    case None => 0
    case Some(o) => o.duration + if Repeats(d, t, k + 1, o) then Remaining(d, plans, t, k + 1) else 0
  }

  // ---------- critical paths ----------

  ghost function MaxOf(s: set<nat>): (m: nat)
    ensures forall x :: x in s ==> x <= m
    ensures s != {} ==> m in s
    ensures s == {} ==> m == 0
  {
    if s == {} then 0
    else
      var x :| x in s;
      var m := MaxOf(s - {x});
      assert s == (s - {x}) + {x};
      if s - {x} == {} || m < x then x else m
  }

  ghost function Above(rank: map<Task, nat>, t: Task): set<Task>
    requires t in rank
  {
    set x | x in rank && rank[t] < rank[x]
  }

  lemma AboveShrinks(d: Dag, rank: map<Task, nat>, t: Task, c: Task)
    requires Ranked(d, rank) && t in d.specs && c in Children(d, t)
    ensures |Above(rank, c)| < |Above(rank, t)|
  {
    assert Above(rank, c) <= Above(rank, t) - {c};
    SubsetSize(Above(rank, c), Above(rank, t) - {c});
  }

  /** The longest planned time of any path of dependents that starts at `t`, `t` included. */
  ghost function Height(d: Dag, plans: Plans, rank: map<Task, nat>, t: Task): nat
    requires Ranked(d, rank) && t in d.specs
    decreases |Above(rank, t)|, 1
  {
    Remaining(d, plans, t, 0) + Below(d, plans, rank, t)
  }

  /** The same, `t` not included. */
  ghost function Below(d: Dag, plans: Plans, rank: map<Task, nat>, t: Task): nat
    requires Ranked(d, rank) && t in d.specs
    decreases |Above(rank, t)|, 0
  {
    if Children(d, t) == {} then 0
    else MaxOf(set c | c in Children(d, t) :: (AboveShrinks(d, rank, t, c); Height(d, plans, rank, c)))
  }

  lemma ChildIsBelow(d: Dag, plans: Plans, rank: map<Task, nat>, t: Task, c: Task)
    requires Ranked(d, rank) && t in d.specs && c in Children(d, t)
    ensures Height(d, plans, rank, c) <= Below(d, plans, rank, t)
  {
    AboveShrinks(d, rank, t, c);
    var heights := set x | x in Children(d, t) :: (AboveShrinks(d, rank, t, x); Height(d, plans, rank, x));
    assert Height(d, plans, rank, c) in heights;
  }

  /** A path of tasks, each depending on the one before it. */
  ghost predicate IsPath(d: Dag, path: seq<Task>) {
    && path != []
    && (forall i :: 0 <= i < |path| ==> path[i] in d.specs)
    && forall i :: 0 <= i < |path| - 1 ==> path[i + 1] in Children(d, path[i])
  }

  ghost function PathTime(d: Dag, plans: Plans, path: seq<Task>): nat
    requires forall i :: 0 <= i < |path| ==> path[i] in d.specs
  {
    if path == [] then 0 else Remaining(d, plans, path[0], 0) + PathTime(d, plans, path[1..])
  }

  /** No path from `t` takes longer than the height of `t`. */
  lemma {:induction false} PathsAreBelowHeight(d: Dag, plans: Plans, rank: map<Task, nat>, path: seq<Task>)
    requires Ranked(d, rank) && IsPath(d, path)
    ensures PathTime(d, plans, path) <= Height(d, plans, rank, path[0])
  {
    if |path| > 1 {
      PathsAreBelowHeight(d, plans, rank, path[1..]);
      ChildIsBelow(d, plans, rank, path[0], path[1]);
    }
  }

  lemma TallestChild(d: Dag, plans: Plans, rank: map<Task, nat>, t: Task) returns (c: Task)
    requires Ranked(d, rank) && t in d.specs && Children(d, t) != {}
    ensures c in Children(d, t) && Height(d, plans, rank, c) == Below(d, plans, rank, t)
  {
    hide Remaining, Height, Ranked;
    var heights := set x | x in Children(d, t) :: (AboveShrinks(d, rank, t, x); Height(d, plans, rank, x));
    var x :| x in Children(d, t);
    assert Height(d, plans, rank, x) in heights;
    assert Below(d, plans, rank, t) == MaxOf(heights);
    c :| c in Children(d, t) && Height(d, plans, rank, c) == Below(d, plans, rank, t);
  }

  /** Some path from `t` takes exactly the height of `t`. */
  lemma {:induction false} HeightIsAPath(d: Dag, plans: Plans, rank: map<Task, nat>, t: Task) returns (path: seq<Task>)
    requires Ranked(d, rank) && t in d.specs
    ensures IsPath(d, path) && path[0] == t && PathTime(d, plans, path) == Height(d, plans, rank, t)
    decreases |Above(rank, t)|
  {
    hide Remaining, MaxOf, Ranked;
    if Children(d, t) == {} {
      path := [t];
      assert PathTime(d, plans, path[1..]) == 0;
    } else {
      var c := TallestChild(d, plans, rank, t);
      AboveShrinks(d, rank, t, c);
      var tail := HeightIsAPath(d, plans, rank, c);
      path := [t] + tail;
      assert path[1..] == tail;
    }
  }

  // ---------- where a graph settles ----------

  datatype NodeState = Pending | Running | Succeeded | Failed | Skipped

  datatype NodeResult = NodeResult(state: NodeState, attempts: nat, lastError: Option<string>)

  function Complaint(o: Outcome): string {
    if o.detail == "" then "task failed" else o.detail
  }

  /** How a task ends once it is started, from its plan alone, after its first `k` attempts; none if the plan runs out. */
  function Fate(d: Dag, plans: Plans, t: Task, k: nat): Option<NodeResult>
    requires t in d.specs
    decreases PlanLength(plans, t) - k
  {
    match Planned(plans, t, k + 1)
    case None => None
    case Some(o) =>
      if o.disposition == Success then Some(NodeResult(Succeeded, k + 1, None))
      else if Repeats(d, t, k + 1, o) then Fate(d, plans, t, k + 1)
      else Some(NodeResult(Failed, k + 1, Some(Complaint(o))))
  }

  type Results = map<Task, NodeResult>

  ghost predicate Blocked(d: Dag, results: Results, t: Task)
    requires t in d.specs
  {
    exists u :: u in d.specs[t].dependsOn && u in results && results[u].state != Succeeded
  }

  /** Results that agree with the plans everywhere: a task with an unsuccessful dependency is skipped, any other meets its fate. */
  ghost predicate Settled(d: Dag, plans: Plans, results: Results) {
    && results.Keys == d.specs.Keys
    && forall t :: t in d.specs ==>
         if Blocked(d, results, t) then results[t] == NodeResult(Skipped, 0, None)
         else Fate(d, plans, t, 0) == Some(results[t])
  }

  ghost predicate NeverSettles(d: Dag, plans: Plans) {
    forall results: Results :: !Settled(d, plans, results)
  }

  lemma {:induction false} FateIsFinal(d: Dag, plans: Plans, t: Task, k: nat)
    requires t in d.specs
    ensures var f := Fate(d, plans, t, k);
            f.Some? ==> (f.value.state == Succeeded || f.value.state == Failed) && f.value.attempts > k
    decreases PlanLength(plans, t) - k
  {
    var p := Planned(plans, t, k + 1);
    if p.Some? && Repeats(d, t, k + 1, p.value) {
      FateIsFinal(d, plans, t, k + 1);
    }
  }

  /** The number of workers does not matter to where a graph settles. */
  lemma {:induction false} SettlesOneWay(d: Dag, e: Dag, plans: Plans, r: Results, q: Results)
    requires ValidDag(d) && Acyclic(d) && d.specs == e.specs && Settled(d, plans, r) && Settled(e, plans, q)
    ensures r == q
  {
    var rank :| Ranked(d, rank);
    forall t | t in d.specs ensures r[t] == q[t] {
      SettlesOneWayAt(d, e, plans, r, q, rank, t);
    }
  }

  lemma {:induction false} FateIgnoresWorkers(d: Dag, e: Dag, plans: Plans, t: Task, k: nat)
    requires t in d.specs && d.specs == e.specs
    ensures Fate(d, plans, t, k) == Fate(e, plans, t, k)
    decreases PlanLength(plans, t) - k
  {
    var p := Planned(plans, t, k + 1);
    if p.Some? && Repeats(d, t, k + 1, p.value) {
      FateIgnoresWorkers(d, e, plans, t, k + 1);
    }
  }

  lemma {:induction false} SettlesOneWayAt(d: Dag, e: Dag, plans: Plans, r: Results, q: Results, rank: map<Task, nat>, t: Task)
    requires ValidDag(d) && Ranked(d, rank) && d.specs == e.specs && Settled(d, plans, r) && Settled(e, plans, q)
    requires t in d.specs
    ensures r[t] == q[t]
    decreases rank[t]
  {
    hide Fate;
    forall u | u in d.specs[t].dependsOn ensures r[u] == q[u] {
      SettlesOneWayAt(d, e, plans, r, q, rank, u);
    }
    FateIgnoresWorkers(d, e, plans, t, 0);
    assert Blocked(d, r, t) == Blocked(e, q, t);
  }

  /** `t` lies strictly below `u` in the graph. */
  ghost predicate Reaches(d: Dag, u: Task, t: Task) {
    exists path :: IsPath(d, path) && |path| >= 2 && path[0] == u && path[|path| - 1] == t
  }

  /** A task is skipped exactly when a task above it failed. */
  lemma SkippedBelowFailures(d: Dag, plans: Plans, results: Results, t: Task)
    requires ValidDag(d) && Acyclic(d) && Settled(d, plans, results) && t in d.specs
    ensures results[t].state == Skipped <==> exists u :: u in d.specs && results[u].state == Failed && Reaches(d, u, t)
  {
    hide Fate, IsPath, Ranked, Blocked;
    var rank :| Ranked(d, rank);
    if results[t].state == Skipped {
      var u, path := FailureAbove(d, plans, results, rank, t);
      assert Reaches(d, u, t);
    }
    forall u | u in d.specs && results[u].state == Failed && Reaches(d, u, t) ensures results[t].state == Skipped {
      var path :| IsPath(d, path) && |path| >= 2 && path[0] == u && path[|path| - 1] == t;
      SkippedAlong(d, plans, results, path);
    }
  }

  lemma PathOfTwo(d: Dag, u: Task, t: Task)
    requires u in d.specs && t in d.specs && t in Children(d, u)
    ensures IsPath(d, [u, t])
  {
  }

  lemma PathSnoc(d: Dag, path: seq<Task>, t: Task)
    requires IsPath(d, path) && t in d.specs && t in Children(d, path[|path| - 1])
    ensures IsPath(d, path + [t])
  {
  }

  lemma {:induction false} FailureAbove(d: Dag, plans: Plans, results: Results, rank: map<Task, nat>, t: Task)
    returns (u: Task, path: seq<Task>)
    requires ValidDag(d) && Ranked(d, rank) && Settled(d, plans, results) && t in d.specs && results[t].state == Skipped
    ensures u in d.specs && results[u].state == Failed
    ensures IsPath(d, path) && |path| >= 2 && path[0] == u && path[|path| - 1] == t
    decreases rank[t]
  {
    hide Fate, Acyclic;
    assert Blocked(d, results, t) by {
      FateIsFinal(d, plans, t, 0);
    }
    var v :| v in d.specs[t].dependsOn && v in results && results[v].state != Succeeded;
    FateIsFinal(d, plans, v, 0);
    assert t in Children(d, v) && v in d.specs;
    hide Ranked, Settled, IsPath, Children;
    if results[v].state == Failed {
      u, path := v, [v, t];
      PathOfTwo(d, v, t);
    } else {
      var above: seq<Task>;
      u, above := FailureAbove(d, plans, results, rank, v);
      path := above + [t];
      PathSnoc(d, above, t);
    }
  }

  lemma {:induction false} SkippedAlong(d: Dag, plans: Plans, results: Results, path: seq<Task>)
    requires ValidDag(d) && Settled(d, plans, results)
    requires IsPath(d, path) && |path| >= 2 && results[path[0]].state == Failed
    ensures results[path[|path| - 1]].state == Skipped
  {
    hide Fate;
    var t, v := path[|path| - 1], path[|path| - 2];
    assert t in Children(d, v);
    if |path| > 2 {
      SkippedAlong(d, plans, results, path[..|path| - 1]);
    }
    assert results[v].state != Succeeded;
    assert Blocked(d, results, t);
  }
}
