/** Relay replicas (lab 22): what vector clocks and Lamport stamps say about causality, over every run of replicas. */
module Causality {
  import opened Clocks

  type TaskId = nat

  datatype Update = Update(task: TaskId, actor: Node, detail: string, lamport: Stamp, vector: VectorClock)

  /** One replica's clock counter and its vector clock of each task. */
  datatype Replica = Replica(counter: nat, vectors: map<TaskId, VectorClock>, history: map<TaskId, seq<Update>>)

  const NEW_REPLICA := Replica(0, map[], map[])

  function VectorOf(r: Replica, task: TaskId): VectorClock {
    if task in r.vectors then r.vectors[task] else map[]
  }

  function HistoryOf(r: Replica, task: TaskId): seq<Update> {
    if task in r.history then r.history[task] else []
  }

  /** The update a replica would record now. */
  function NextUpdate(r: Replica, n: Node, task: TaskId, detail: string): Update {
    Update(task, n, detail, Stamp(r.counter + 1, n), Increment(VectorOf(r, task), n))
  }

  function Record(r: Replica, n: Node, task: TaskId, detail: string): Replica {
    var u := NextUpdate(r, n, task, detail);
    Replica(r.counter + 1, r.vectors[task := u.vector], r.history[task := HistoryOf(r, task) + [u]])
  }

  /** A record whose update breaks the contract: the Lamport clock has already ticked. */
  function Refuse(r: Replica): Replica {
    r.(counter := r.counter + 1)
  }

  function Observe(r: Replica, u: Update): Replica {
    Replica(Larger(r.counter, u.lamport.counter) + 1,
            r.vectors[u.task := Merge(VectorOf(r, u.task), u.vector)],
            r.history[u.task := HistoryOf(r, u.task) + [u]])
  }

  // ---------- runs ----------

  /** One call on one replica; an observed update is named by the position of the call that recorded it. */
  datatype Event =
    | Recorded(node: Node, task: TaskId, detail: string)
    | Refused(node: Node)
    | Observed(node: Node, update: nat)

  ghost predicate ValidRun(run: seq<Event>) {
    forall i :: 0 <= i < |run| && run[i].Observed? ==> run[i].update < i && run[run[i].update].Recorded?
  }

  /** The replica `n` after the first `t` calls. */
  function At(run: seq<Event>, n: Node, t: nat): Replica
    requires ValidRun(run) && t <= |run|
    decreases t, 1
  {
    if t == 0 then NEW_REPLICA
    else
      var before := At(run, n, t - 1);
      if run[t - 1].node != n then before
      else match run[t - 1]
           case Recorded(_, task, detail) => Record(before, n, task, detail)
           case Refused(_) => Refuse(before)
           case Observed(_, u) => Observe(before, UpdateAt(run, u))
  }

  /** The update recorded by call `u`. */
  function UpdateAt(run: seq<Event>, u: nat): Update
    requires ValidRun(run) && u < |run| && run[u].Recorded?
    decreases u, 2
  {
    NextUpdate(At(run, run[u].node, u), run[u].node, run[u].task, run[u].detail)
  }

  ghost predicate RecordOf(run: seq<Event>, u: nat, task: TaskId) {
    u < |run| && run[u].Recorded? && run[u].task == task
  }

  // ---------- causality, without clocks ----------

  /** Before call `t`, replica `n` itself recorded or observed the update `u`. */
  ghost predicate Seen(run: seq<Event>, n: Node, t: nat, u: nat) {
    exists i :: 0 <= i < t && i < |run| && run[i].node == n && (run[i] == Observed(n, u) || (i == u && run[i].Recorded?))
  }

  /**
   * `u` happened before `v`: when its replica recorded `v`, it had seen `u` or an update, of whatever task, that `u`
   * happened before.
   */
  ghost predicate HappenedBefore(run: seq<Event>, u: nat, v: nat)
    requires v < |run| && run[v].Recorded?
    decreases v
  {
    exists m :: 0 <= m < v && run[m].Recorded? && Seen(run, run[v].node, v, m) && (m == u || HappenedBefore(run, u, m))
  }

  /** The part of it that runs through updates of one task only: a chain of them, each seen when the next was recorded. */
  ghost predicate TaskCauses(run: seq<Event>, task: TaskId, u: nat, v: nat)
    requires RecordOf(run, v, task)
    decreases v
  {
    exists m :: 0 <= m < v && RecordOf(run, m, task) && Seen(run, run[v].node, v, m) && (m == u || TaskCauses(run, task, u, m))
  }

  /** What replica `n` knows of `task` before call `t`, through updates of that task. */
  ghost predicate Knows(run: seq<Event>, n: Node, task: TaskId, t: nat, u: nat) {
    exists m :: 0 <= m < t && RecordOf(run, m, task) && Seen(run, n, t, m) && (m == u || TaskCauses(run, task, u, m))
  }

  // ---------- counting a replica's own updates ----------

  /** How many updates of `task` replica `n` recorded before call `t`. */
  ghost function Count(run: seq<Event>, n: Node, task: TaskId, t: nat): nat
    requires t <= |run|
  {
    if t == 0 then 0
    else Count(run, n, task, t - 1) + (if RecordOf(run, t - 1, task) && run[t - 1].node == n then 1 else 0)
  }

  /** The number of an update among its replica's updates of its task, from one. */
  ghost function Number(run: seq<Event>, u: nat, task: TaskId): nat
    requires RecordOf(run, u, task)
  {
    Count(run, run[u].node, task, u) + 1
  }

  lemma {:induction false} CountGrows(run: seq<Event>, n: Node, task: TaskId, t: nat, later: nat)
    requires t <= later <= |run|
    ensures Count(run, n, task, t) <= Count(run, n, task, later)
    decreases later
  {
    if t < later {
      CountGrows(run, n, task, t, later - 1);
    }
  }

  /** Every number up to the count belongs to one of the replica's updates. */
  lemma {:induction false} NumberIsTaken(run: seq<Event>, n: Node, task: TaskId, t: nat, k: nat) returns (u: nat)
    requires t <= |run| && 1 <= k <= Count(run, n, task, t)
    ensures u < t && RecordOf(run, u, task) && run[u].node == n && Number(run, u, task) == k
    decreases t
  {
    if k <= Count(run, n, task, t - 1) {
      u := NumberIsTaken(run, n, task, t - 1, k);
    } else {
      u := t - 1;
    }
  }

  // ---------- causality looks backwards, and is transitive ----------

  lemma {:induction false} CauseIsEarlier(run: seq<Event>, task: TaskId, u: nat, v: nat)
    requires RecordOf(run, v, task) && TaskCauses(run, task, u, v)
    ensures u < v && RecordOf(run, u, task)
    decreases v
  {
    var m :| 0 <= m < v && RecordOf(run, m, task) && Seen(run, run[v].node, v, m) && (m == u || TaskCauses(run, task, u, m));
    if m != u {
      CauseIsEarlier(run, task, u, m);
    }
  }

  lemma {:induction false} CausesIsTransitive(run: seq<Event>, task: TaskId, u: nat, v: nat, w: nat)
    requires RecordOf(run, v, task) && RecordOf(run, w, task) && TaskCauses(run, task, u, v) && TaskCauses(run, task, v, w)
    ensures TaskCauses(run, task, u, w)
    decreases w
  {
    var m :| 0 <= m < w && RecordOf(run, m, task) && Seen(run, run[w].node, w, m) && (m == v || TaskCauses(run, task, v, m));
    if m != v {
      CausesIsTransitive(run, task, u, v, m);
    }
    assert TaskCauses(run, task, u, m);
  }

  /** The update that call `t` makes its replica see, if any. */
  ghost predicate Shows(run: seq<Event>, t: nat, n: Node, m: nat) {
    t < |run| && run[t].node == n && (run[t] == Observed(n, m) || (m == t && run[t].Recorded?))
  }

  lemma SeenStep(run: seq<Event>, n: Node, t: nat, m: nat)
    requires t < |run|
    ensures Seen(run, n, t + 1, m) <==> Seen(run, n, t, m) || Shows(run, t, n, m)
  {
    if Shows(run, t, n, m) {
      assert 0 <= t < t + 1 && t < |run| && run[t].node == n;
    }
    if Seen(run, n, t, m) {
      var i :| 0 <= i < t && i < |run| && run[i].node == n && (run[i] == Observed(n, m) || (i == m && run[i].Recorded?));
      assert 0 <= i < t + 1;
    }
  }

  /** One call adds to a replica's knowledge the update it shows, with everything that leads to it within the task. */
  lemma KnowsStep(run: seq<Event>, n: Node, task: TaskId, t: nat, w: nat)
    requires ValidRun(run) && t < |run|
    ensures Knows(run, n, task, t + 1, w) <==>
            Knows(run, n, task, t, w)
            || exists m :: 0 <= m <= t && RecordOf(run, m, task) && Shows(run, t, n, m) && (m == w || TaskCauses(run, task, w, m))
  {
    forall m
      ensures m >= 0 ==> (Seen(run, n, t + 1, m) <==> Seen(run, n, t, m) || Shows(run, t, n, m))
      ensures m >= 0 && Seen(run, n, t, m) ==> m < t
    {
      if m >= 0 {
        SeenStep(run, n, t, m);
      }
    }
  }

  // ---------- what a vector clock covers ----------

  ghost predicate Covers(run: seq<Event>, task: TaskId, vector: VectorClock, u: nat)
    requires RecordOf(run, u, task)
  {
    Number(run, u, task) <= Get(vector, run[u].node)
  }

  /** A replica's clock counts its own updates, never overcounts, and covers exactly what the replica knows. */
  ghost predicate ClockIsKnowledge(run: seq<Event>, n: Node, task: TaskId, t: nat)
    requires ValidRun(run) && t <= |run|
  {
    var vector := VectorOf(At(run, n, t), task);
    && Get(vector, n) == Count(run, n, task, t)
    && (forall m :: Get(vector, m) <= Count(run, m, task, t))
    && (forall u :: 0 <= u < t && RecordOf(run, u, task) ==> (Covers(run, task, vector, u) <==> Knows(run, n, task, t, u)))
  }

  /** An update's clock covers exactly itself and what leads to it within its task. */
  ghost predicate ClockIsHistory(run: seq<Event>, task: TaskId, v: nat)
    requires ValidRun(run) && RecordOf(run, v, task)
  {
    var vector := UpdateAt(run, v).vector;
    && (forall m :: Get(vector, m) <= Count(run, m, task, v + 1))
    && Get(vector, run[v].node) == Number(run, v, task)
    && (forall u :: 0 <= u < |run| && RecordOf(run, u, task) ==>
                      (Covers(run, task, vector, u) <==> u == v || TaskCauses(run, task, u, v)))
  }

  lemma RecordVector(run: seq<Event>, task: TaskId, v: nat)
    requires ValidRun(run) && RecordOf(run, v, task)
    ensures forall m :: Get(UpdateAt(run, v).vector, m) ==
                        Get(VectorOf(At(run, run[v].node, v), task), m) + (if m == run[v].node then 1 else 0)
  {
    hide At;
  }

  lemma RecordCovers(run: seq<Event>, task: TaskId, v: nat, before: VectorClock, vector: VectorClock, u: nat)
    requires ValidRun(run) && RecordOf(run, v, task) && RecordOf(run, u, task)
    requires forall m :: Get(vector, m) == Get(before, m) + (if m == run[v].node then 1 else 0)
    requires Get(before, run[v].node) == Count(run, run[v].node, task, v)
    requires forall m :: Get(before, m) <= Count(run, m, task, v)
    requires u < v ==> (Covers(run, task, before, u) <==> Knows(run, run[v].node, task, v, u))
    ensures Covers(run, task, vector, u) <==> u == v || TaskCauses(run, task, u, v)
  {
    var n := run[v].node;
    if u < v {
      if run[u].node == n {
        CountGrows(run, n, task, u + 1, v);
      }
      assert TaskCauses(run, task, u, v) <==> Knows(run, n, task, v, u);
    } else if v < u {
      CountGrows(run, run[u].node, task, v + 1, u);
      if TaskCauses(run, task, u, v) { CauseIsEarlier(run, task, u, v); }
    }
  }

  lemma RecordExtends(run: seq<Event>, task: TaskId, v: nat)
    requires ValidRun(run) && RecordOf(run, v, task) && ClockIsKnowledge(run, run[v].node, task, v)
    ensures ClockIsHistory(run, task, v)
  {
    hide At, UpdateAt, Covers, TaskCauses, Knows;
    var before, vector := VectorOf(At(run, run[v].node, v), task), UpdateAt(run, v).vector;
    RecordVector(run, task, v);
    forall u | 0 <= u < |run| && RecordOf(run, u, task)
      ensures Covers(run, task, vector, u) <==> u == v || TaskCauses(run, task, u, v)
    {
      RecordCovers(run, task, v, before, vector, u);
    }
  }

  /** A call of another replica teaches `n` nothing, and its own new update is beyond what `n` covers. */
  lemma OtherReplicaStep(run: seq<Event>, n: Node, task: TaskId, t: nat)
    requires ValidRun(run) && t < |run| && run[t].node != n && ClockIsKnowledge(run, n, task, t)
    ensures ClockIsKnowledge(run, n, task, t + 1)
  {
    var vector := VectorOf(At(run, n, t), task);
    assert At(run, n, t + 1) == At(run, n, t);
    forall u | 0 <= u < t + 1 && RecordOf(run, u, task)
      ensures Covers(run, task, vector, u) <==> Knows(run, n, task, t + 1, u)
    {
      KnowsStep(run, n, task, t, u);
      if u == t && Knows(run, n, task, t, u) {
        KnownIsEarlier(run, n, task, t, u);
      }
    }
  }

  lemma KnownIsEarlier(run: seq<Event>, n: Node, task: TaskId, t: nat, u: nat)
    requires ValidRun(run) && Knows(run, n, task, t, u)
    ensures u < t
  {
    var m :| 0 <= m < t && RecordOf(run, m, task) && Seen(run, n, t, m) && (m == u || TaskCauses(run, task, u, m));
    if m != u {
      CauseIsEarlier(run, task, u, m);
    }
  }

  ghost predicate ShowsOtherTask(run: seq<Event>, n: Node, task: TaskId, t: nat) {
    t < |run| && run[t].node == n && !RecordOf(run, t, task) && (run[t].Observed? ==> !RecordOf(run, run[t].update, task))
  }

  lemma OtherTaskVector(run: seq<Event>, n: Node, task: TaskId, t: nat)
    requires ValidRun(run) && ShowsOtherTask(run, n, task, t)
    ensures VectorOf(At(run, n, t + 1), task) == VectorOf(At(run, n, t), task)
  {
  }

  lemma OtherTaskKnows(run: seq<Event>, n: Node, task: TaskId, t: nat, u: nat)
    requires ValidRun(run) && ShowsOtherTask(run, n, task, t)
    ensures Knows(run, n, task, t, u) <==> Knows(run, n, task, t + 1, u)
  {
    hide Knows;
    KnowsStep(run, n, task, t, u);
  }

  /** A call that shows no update of this task leaves clock and knowledge of it alone. */
  lemma OtherTaskStep(run: seq<Event>, n: Node, task: TaskId, t: nat)
    requires ValidRun(run) && ShowsOtherTask(run, n, task, t) && ClockIsKnowledge(run, n, task, t)
    ensures ClockIsKnowledge(run, n, task, t + 1)
  {
    hide At, Knows, Covers, UpdateAt, ValidRun;
    OtherTaskVector(run, n, task, t);
    forall u | 0 <= u < t + 1 && RecordOf(run, u, task)
      ensures Knows(run, n, task, t, u) <==> Knows(run, n, task, t + 1, u)
    {
      OtherTaskKnows(run, n, task, t, u);
    }
    assert forall m :: Count(run, m, task, t + 1) == Count(run, m, task, t);
    hide Count;
  }

  lemma OwnRecordStep(run: seq<Event>, n: Node, task: TaskId, t: nat)
    requires ValidRun(run) && t < |run| && run[t].node == n && RecordOf(run, t, task)
    requires ClockIsKnowledge(run, n, task, t) && ClockIsHistory(run, task, t)
    ensures ClockIsKnowledge(run, n, task, t + 1)
  {
    assert VectorOf(At(run, n, t + 1), task) == UpdateAt(run, t).vector;
    forall u | 0 <= u < t + 1 && RecordOf(run, u, task)
      ensures (u == t || TaskCauses(run, task, u, t)) <==> Knows(run, n, task, t + 1, u)
    {
      KnowsStep(run, n, task, t, u);
      assert TaskCauses(run, task, u, t) <==> Knows(run, n, task, t, u);
      assert Shows(run, t, n, t);
    }
  }

  /** A clock that counts at most so much goes on counting at most that, merged with another such clock. */
  lemma MergeCounts(run: seq<Event>, a: VectorClock, b: VectorClock, task: TaskId, s: nat, t: nat, later: nat)
    requires s <= later && t <= later <= |run|
    requires (forall m :: Get(a, m) <= Count(run, m, task, s)) && (forall m :: Get(b, m) <= Count(run, m, task, t))
    ensures forall m :: Get(Merge(a, b), m) <= Count(run, m, task, later)
  {
    forall m
      ensures Get(Merge(a, b), m) <= Count(run, m, task, later)
    {
      CountGrows(run, m, task, s, later);
      CountGrows(run, m, task, t, later);
    }
  }

  lemma MergeCovers(run: seq<Event>, task: TaskId, a: VectorClock, b: VectorClock, u: nat)
    requires RecordOf(run, u, task)
    ensures Covers(run, task, Merge(a, b), u) <==> Covers(run, task, a, u) || Covers(run, task, b, u)
  {
    hide Count;
  }

  lemma ObserveCovers(run: seq<Event>, n: Node, task: TaskId, t: nat, u: nat)
    requires ValidRun(run) && t < |run| && run[t].node == n && run[t].Observed? && RecordOf(run, run[t].update, task)
    requires ClockIsKnowledge(run, n, task, t) && ClockIsHistory(run, task, run[t].update)
    requires u < t && RecordOf(run, u, task)
    ensures Covers(run, task, Merge(VectorOf(At(run, n, t), task), UpdateAt(run, run[t].update).vector), u)
            <==> Knows(run, n, task, t + 1, u)
  {
    var v := run[t].update;
    KnowsStep(run, n, task, t, u);
    assert Shows(run, t, n, v);
    MergeCovers(run, task, VectorOf(At(run, n, t), task), UpdateAt(run, v).vector, u);
    hide Covers, Knows, At, UpdateAt, Merge;
  }

  lemma ObserveVector(run: seq<Event>, n: Node, t: nat)
    requires ValidRun(run) && t < |run| && run[t].node == n && run[t].Observed?
    ensures var u := UpdateAt(run, run[t].update);
            VectorOf(At(run, n, t + 1), run[run[t].update].task) == Merge(VectorOf(At(run, n, t), u.task), u.vector)
    ensures UpdateAt(run, run[t].update).task == run[run[t].update].task
  {
    hide Merge;
  }

  lemma ObserveStep(run: seq<Event>, n: Node, task: TaskId, t: nat)
    requires ValidRun(run) && t < |run| && run[t].node == n && run[t].Observed? && RecordOf(run, run[t].update, task)
    requires ClockIsKnowledge(run, n, task, t) && ClockIsHistory(run, task, run[t].update)
    ensures ClockIsKnowledge(run, n, task, t + 1)
  {
    hide At, UpdateAt, Covers, Knows;
    var v := run[t].update;
    var before, vector := VectorOf(At(run, n, t), task), UpdateAt(run, v).vector;
    var after := VectorOf(At(run, n, t + 1), task);
    ObserveVector(run, n, t);
    assert Get(after, n) == Larger(Get(before, n), Get(vector, n));
    MergeCounts(run, before, vector, task, t, v + 1, t + 1);
    MergeCounts(run, before, vector, task, t, v + 1, t);
    forall u | 0 <= u < t + 1 && RecordOf(run, u, task)
      ensures Covers(run, task, after, u) <==> Knows(run, n, task, t + 1, u)
    {
      ObserveCovers(run, n, task, t, u);
    }
  }

  /** Clocks are knowledge at every moment of every run, on every replica, for every task. */
  lemma {:induction false} ClocksAreKnowledge(run: seq<Event>, n: Node, task: TaskId, t: nat)
    requires ValidRun(run) && t <= |run|
    ensures ClockIsKnowledge(run, n, task, t)
    decreases t, 0
  {
    if t > 0 {
      ClocksAreKnowledge(run, n, task, t - 1);
      hide ClockIsKnowledge, ClockIsHistory;
      if run[t - 1].node != n {
        OtherReplicaStep(run, n, task, t - 1);
      } else if RecordOf(run, t - 1, task) {
        RecordExtends(run, task, t - 1);
        OwnRecordStep(run, n, task, t - 1);
      } else if run[t - 1].Observed? && RecordOf(run, run[t - 1].update, task) {
        var v := run[t - 1].update;
        ClocksAreKnowledge(run, run[v].node, task, v);
        RecordExtends(run, task, v);
        ObserveStep(run, n, task, t - 1);
      } else {
        OtherTaskStep(run, n, task, t - 1);
      }
    }
  }

  // ---------- main results ----------

  lemma ClocksAreHistory(run: seq<Event>, task: TaskId, v: nat)
    requires ValidRun(run) && RecordOf(run, v, task)
    ensures ClockIsHistory(run, task, v)
  {
    ClocksAreKnowledge(run, run[v].node, task, v);
    RecordExtends(run, task, v);
  }

  lemma CoveredIsCause(run: seq<Event>, task: TaskId, u: nat, v: nat)
    requires ValidRun(run) && RecordOf(run, u, task) && RecordOf(run, v, task)
    ensures Number(run, u, task) <= Get(UpdateAt(run, v).vector, run[u].node) <==> u == v || TaskCauses(run, task, u, v)
    ensures Get(UpdateAt(run, u).vector, run[u].node) == Number(run, u, task)
    ensures Get(UpdateAt(run, u).vector, run[v].node) <= Count(run, run[v].node, task, u + 1)
  {
    ClocksAreHistory(run, task, u);
    ClocksAreHistory(run, task, v);
    hide UpdateAt, Number, Count, TaskCauses;
    assert Covers(run, task, UpdateAt(run, v).vector, u) <==> u == v || TaskCauses(run, task, u, v);
  }

  /** Everything an update's clock counts is a number of an update it covers. */
  lemma EntryIsCovered(run: seq<Event>, task: TaskId, u: nat, m: Node) returns (w: nat)
    requires ValidRun(run) && RecordOf(run, u, task) && Get(UpdateAt(run, u).vector, m) > 0
    ensures RecordOf(run, w, task) && run[w].node == m && Number(run, w, task) == Get(UpdateAt(run, u).vector, m)
    ensures w == u || TaskCauses(run, task, w, u)
  {
    ClocksAreHistory(run, task, u);
    hide UpdateAt, TaskCauses, Number, Count;
    w := NumberIsTaken(run, m, task, u + 1, Get(UpdateAt(run, u).vector, m));
    assert Covers(run, task, UpdateAt(run, u).vector, w);
  }

  /** Pointwise order of two updates' clocks is causality. */
  lemma DominationIsCausality(run: seq<Event>, task: TaskId, u: nat, v: nat)
    requires ValidRun(run) && RecordOf(run, u, task) && RecordOf(run, v, task)
    ensures Dominated(UpdateAt(run, u).vector, UpdateAt(run, v).vector) <==> u == v || TaskCauses(run, task, u, v)
  {
    hide UpdateAt, TaskCauses, Number, Count, Get, ValidRun;
    var a, b := UpdateAt(run, u).vector, UpdateAt(run, v).vector;
    CoveredIsCause(run, task, u, v);
    if u == v || TaskCauses(run, task, u, v) {
      forall m
        ensures Get(a, m) <= Get(b, m)
      {
        if Get(a, m) > 0 {
          var w := EntryIsCovered(run, task, u, m);
          if w != u && u != v {
            CausesIsTransitive(run, task, w, u, v);
          }
          CoveredIsCause(run, task, w, v);
        }
      }
    }
  }

  /** Vector clocks decide the chains within a task: BEFORE, AFTER and CONCURRENT say exactly which way one runs, if any. */
  lemma VectorOrderIsTaskCausality(run: seq<Event>, task: TaskId, u: nat, v: nat)
    requires ValidRun(run) && RecordOf(run, u, task) && RecordOf(run, v, task) && u != v
    ensures var relation := Relation(UpdateAt(run, u).vector, UpdateAt(run, v).vector);
            && (relation == Before <==> TaskCauses(run, task, u, v))
            && (relation == After <==> TaskCauses(run, task, v, u))
            && (relation == Concurrent <==> !TaskCauses(run, task, u, v) && !TaskCauses(run, task, v, u))
  {
    DominationIsCausality(run, task, u, v);
    DominationIsCausality(run, task, v, u);
    if TaskCauses(run, task, u, v) { CauseIsEarlier(run, task, u, v); }
    if TaskCauses(run, task, v, u) { CauseIsEarlier(run, task, v, u); }
  }

  // ---------- causes through other tasks ----------

  /** A chain within a task is a way of having happened before. */
  lemma {:induction false} TaskCauseHappenedBefore(run: seq<Event>, task: TaskId, u: nat, v: nat)
    requires RecordOf(run, v, task) && TaskCauses(run, task, u, v)
    ensures HappenedBefore(run, u, v)
    decreases v
  {
    var m :| 0 <= m < v && RecordOf(run, m, task) && Seen(run, run[v].node, v, m) && (m == u || TaskCauses(run, task, u, m));
    if m != u {
      TaskCauseHappenedBefore(run, task, u, m);
    }
  }

  /** BEFORE is never wrong: the earlier update did happen before the later one. */
  lemma BeforeHappenedBefore(run: seq<Event>, task: TaskId, u: nat, v: nat)
    requires ValidRun(run) && RecordOf(run, u, task) && RecordOf(run, v, task) && u != v
    requires Relation(UpdateAt(run, u).vector, UpdateAt(run, v).vector) == Before
    ensures HappenedBefore(run, u, v)
  {
    VectorOrderIsTaskCausality(run, task, u, v);
    TaskCauseHappenedBefore(run, task, u, v);
  }

  /**
   * No news of a task comes in through other tasks alone: a replica that records an update of a task knows, through that
   * task, every update of it that happened before anything of another task that it has seen.
   */
  ghost predicate NoSideChannel(run: seq<Event>) {
    forall task: TaskId, v: nat, m: nat, u: nat ::
      RecordOf(run, v, task) && m < v && run[m].Recorded? && run[m].task != task && Seen(run, run[v].node, v, m)
      && RecordOf(run, u, task) && HappenedBefore(run, u, m)
      ==> Knows(run, run[v].node, task, v, u)
  }

  /** BEFORE says exactly what happened before what, for all updates of a common task. */
  ghost predicate VectorsDecide(run: seq<Event>)
    requires ValidRun(run)
  {
    forall task: TaskId, u: nat, v: nat :: RecordOf(run, u, task) && RecordOf(run, v, task) && u != v ==>
      (Relation(UpdateAt(run, u).vector, UpdateAt(run, v).vector) == Before <==> HappenedBefore(run, u, v))
  }

  lemma {:induction false} AllWithinTask(run: seq<Event>, task: TaskId, u: nat, v: nat)
    requires NoSideChannel(run) && RecordOf(run, u, task) && RecordOf(run, v, task) && HappenedBefore(run, u, v)
    ensures TaskCauses(run, task, u, v)
    decreases v
  {
    var m :| 0 <= m < v && run[m].Recorded? && Seen(run, run[v].node, v, m) && (m == u || HappenedBefore(run, u, m));
    if run[m].task == task {
      if m != u {
        AllWithinTask(run, task, u, m);
      }
    } else {
      assert Knows(run, run[v].node, task, v, u);
    }
  }

  /** Vector clocks decide happened-before in a run exactly when no news of a task comes in through other tasks alone. */
  lemma VectorsDecideExactly(run: seq<Event>)
    requires ValidRun(run)
    ensures VectorsDecide(run) <==> NoSideChannel(run)
  {
    hide UpdateAt, ValidRun, TaskCauses, Knows, Seen;
    if NoSideChannel(run) {
      forall task: TaskId, u: nat, v: nat | RecordOf(run, u, task) && RecordOf(run, v, task) && u != v
        ensures Relation(UpdateAt(run, u).vector, UpdateAt(run, v).vector) == Before <==> HappenedBefore(run, u, v)
      {
        VectorOrderIsTaskCausality(run, task, u, v);
        if HappenedBefore(run, u, v) {
          AllWithinTask(run, task, u, v);
        } else if TaskCauses(run, task, u, v) {
          TaskCauseHappenedBefore(run, task, u, v);
        }
      }
    }
    if VectorsDecide(run) {
      forall task: TaskId, v: nat, m: nat, u: nat | RecordOf(run, v, task) && m < v && run[m].Recorded? && run[m].task != task
                             && Seen(run, run[v].node, v, m) && RecordOf(run, u, task) && HappenedBefore(run, u, m)
        ensures Knows(run, run[v].node, task, v, u)
      {
        HappenedEarlier(run, u, m);
        assert HappenedBefore(run, u, v);
        VectorOrderIsTaskCausality(run, task, u, v);
        CauseIsKnown(run, task, u, v);
      }
    }
  }

  lemma {:induction false} HappenedEarlier(run: seq<Event>, u: nat, v: nat)
    requires v < |run| && run[v].Recorded? && HappenedBefore(run, u, v)
    ensures u < v && run[u].Recorded?
    decreases v
  {
    var m :| 0 <= m < v && run[m].Recorded? && Seen(run, run[v].node, v, m) && (m == u || HappenedBefore(run, u, m));
    if m != u {
      HappenedEarlier(run, u, m);
    }
  }

  lemma CauseIsKnown(run: seq<Event>, task: TaskId, u: nat, v: nat)
    requires RecordOf(run, v, task) && TaskCauses(run, task, u, v)
    ensures Knows(run, run[v].node, task, v, u)
  {
  }

  /** News through another task: replica 2 has seen what followed update 0, but not update 0, and its own update compares as concurrent. */
  lemma CrossTaskCauseIsConcurrent() returns (run: seq<Event>)
    ensures ValidRun(run) && RecordOf(run, 0, 10) && RecordOf(run, 3, 10) && HappenedBefore(run, 0, 3)
    ensures Relation(UpdateAt(run, 0).vector, UpdateAt(run, 3).vector) == Concurrent
  {
    run := [Recorded(1, 10, "x"), Recorded(1, 20, "y"), Observed(2, 1), Recorded(2, 10, "z")];
    assert run[0].node == 1 && Seen(run, 1, 1, 0);
    assert HappenedBefore(run, 0, 1);
    assert run[2] == Observed(2, 1) && Seen(run, 2, 3, 1);
    assert !Seen(run, 2, 3, 0) && !RecordOf(run, 1, 10) && !RecordOf(run, 2, 10);
    assert !TaskCauses(run, 10, 0, 3);
    if TaskCauses(run, 10, 3, 0) {
      CauseIsEarlier(run, 10, 3, 0);
    }
    hide UpdateAt, TaskCauses, Seen, HappenedBefore;
    VectorOrderIsTaskCausality(run, 10, 0, 3);
  }

  // ---------- Lamport stamps ----------

  /** A replica's counter never falls, and is at least that of everything it has seen. */
  lemma {:induction false} CounterGrows(run: seq<Event>, n: Node, t: nat, later: nat)
    requires ValidRun(run) && t <= later <= |run|
    ensures At(run, n, t).counter <= At(run, n, later).counter
    decreases later
  {
    if t < later {
      CounterGrows(run, n, t, later - 1);
    }
  }

  lemma SeenIsCounted(run: seq<Event>, n: Node, t: nat, u: nat)
    requires ValidRun(run) && t <= |run| && u < |run| && run[u].Recorded? && Seen(run, n, t, u)
    ensures UpdateAt(run, u).lamport.counter <= At(run, n, t).counter
  {
    var i :| 0 <= i < t && i < |run| && run[i].node == n && (run[i] == Observed(n, u) || (i == u && run[i].Recorded?));
    assert UpdateAt(run, u).lamport.counter <= At(run, n, i + 1).counter;
    CounterGrows(run, n, i + 1, t);
  }

  /** Lamport stamps respect whatever happened before, through any tasks. */
  lemma {:induction false} LamportRespectsCausality(run: seq<Event>, u: nat, v: nat)
    requires ValidRun(run) && v < |run| && run[v].Recorded? && HappenedBefore(run, u, v)
    ensures u < v && run[u].Recorded?
    ensures UpdateAt(run, u).lamport.counter < UpdateAt(run, v).lamport.counter
    decreases v
  {
    var m :| 0 <= m < v && run[m].Recorded? && Seen(run, run[v].node, v, m) && (m == u || HappenedBefore(run, u, m));
    SeenIsCounted(run, run[v].node, v, m);
    if m != u {
      LamportRespectsCausality(run, u, m);
    }
  }

  /** No two updates of a run, of whatever tasks, carry the same stamp. */
  lemma StampsAreUnique(run: seq<Event>, u: nat, v: nat)
    requires ValidRun(run) && u < v < |run| && run[u].Recorded? && run[v].Recorded?
    ensures UpdateAt(run, u).lamport != UpdateAt(run, v).lamport
  {
    if run[u].node == run[v].node {
      assert At(run, run[u].node, u + 1).counter == UpdateAt(run, u).lamport.counter;
      CounterGrows(run, run[u].node, u + 1, v);
    }
  }

  // ---------- logical order ----------

  predicate KeyBefore(a: Stamp, b: Stamp) {
    a.counter < b.counter || (a.counter == b.counter && a.node < b.node)
  }

  ghost predicate SortedByStamp(s: seq<Update>) {
    forall i, j :: 0 <= i < j < |s| ==> !KeyBefore(s[j].lamport, s[i].lamport)
  }

  ghost predicate DistinctStamps(s: seq<Update>) {
    forall i, j :: 0 <= i < j < |s| ==> s[i].lamport != s[j].lamport
  }

  /** The contract of `sorted` with the stamp as key, which is all `logical_order` adds. */
  ghost predicate LogicalOrder(updates: seq<Update>, ordered: seq<Update>) {
    multiset(ordered) == multiset(updates) && SortedByStamp(ordered)
  }

  lemma TailMultiset(a: seq<Update>)
    requires a != []
    ensures multiset(a[1..]) == multiset(a) - multiset{a[0]} && a == [a[0]] + a[1..]
  {
    assert a == [a[0]] + a[1..];
  }

  lemma LeastIsFirst(a: seq<Update>, b: seq<Update>)
    requires a != [] && multiset(a) == multiset(b) && SortedByStamp(a) && SortedByStamp(b) && DistinctStamps(a)
    ensures b != [] && a[0] == b[0]
  {
    assert a[0] in multiset(b);
    var i :| 0 <= i < |b| && b[i] == a[0];
    assert b[0] in multiset(a);
    var j :| 0 <= j < |a| && a[j] == b[0];
  }

  /** Two sorted arrangements of the same distinctly stamped updates are the same: the order ignores arrival order. */
  lemma {:induction false} OrderIgnoresArrival(a: seq<Update>, b: seq<Update>)
    requires multiset(a) == multiset(b) && SortedByStamp(a) && SortedByStamp(b) && DistinctStamps(a)
    ensures a == b
    decreases |a|
  {
    if a == [] {
      assert |multiset(b)| == 0;
    } else {
      LeastIsFirst(a, b);
      assert SortedByStamp(a[1..]) && SortedByStamp(b[1..]) && DistinctStamps(a[1..]);
      hide SortedByStamp, DistinctStamps;
      TailMultiset(a);
      TailMultiset(b);
      OrderIgnoresArrival(a[1..], b[1..]);
    }
  }

  /** In the logical order of updates of a run, of whatever tasks, nothing comes before what happened before it. */
  lemma OrderExtendsCausality(run: seq<Event>, updates: seq<Update>, ordered: seq<Update>, u: nat, v: nat, i: nat, j: nat)
    requires ValidRun(run) && u < |run| && run[u].Recorded? && v < |run| && run[v].Recorded? && HappenedBefore(run, u, v)
    requires LogicalOrder(updates, ordered) && i < |ordered| && j < |ordered|
    requires ordered[i] == UpdateAt(run, u) && ordered[j] == UpdateAt(run, v)
    ensures i < j
  {
    LamportRespectsCausality(run, u, v);
  }

  /** The logical order of recorded updates does not depend on the order they are given in. */
  lemma LogicalOrderIsDeterministic(run: seq<Event>, records: seq<nat>, given: seq<Update>, again: seq<Update>, a: seq<Update>, b: seq<Update>)
    requires ValidRun(run) && forall k :: 0 <= k < |records| ==> records[k] < |run| && run[records[k]].Recorded?
    requires forall k, l :: 0 <= k < l < |records| ==> records[k] != records[l]
    requires |given| == |records| && forall k :: 0 <= k < |records| ==> given[k] == UpdateAt(run, records[k])
    requires multiset(given) == multiset(again) && LogicalOrder(given, a) && LogicalOrder(again, b)
    ensures a == b
  {
    forall k, l | 0 <= k < l < |given|
      ensures given[k].lamport != given[l].lamport
    {
      StampsAreUnique(run, if records[k] < records[l] then records[k] else records[l],
                           if records[k] < records[l] then records[l] else records[k]);
    }
    DistinctStampsTravel(given, a);
    OrderIgnoresArrival(a, b);
  }

  lemma DistinctStampsTravel(a: seq<Update>, b: seq<Update>)
    requires DistinctStamps(a) && multiset(a) == multiset(b)
    ensures DistinctStamps(b)
  {
    forall i, j | 0 <= i < j < |b|
      ensures b[i].lamport != b[j].lamport
    {
      assert b == b[..i] + [b[i]] + b[i + 1..j] + [b[j]] + b[j + 1..];
      if b[i] == b[j] {
        assert multiset(b)[b[i]] >= 2;
        OnceEach(a, b[i]);
      } else {
        assert b[i] in multiset(a) && b[j] in multiset(a);
        var k :| 0 <= k < |a| && a[k] == b[i];
        var l :| 0 <= l < |a| && a[l] == b[j];
        assert k != l;
      }
    }
  }

  lemma {:induction false} OnceEach(a: seq<Update>, u: Update)
    requires DistinctStamps(a)
    ensures multiset(a)[u] <= 1
  {
    if a != [] {
      var front, last := a[..|a| - 1], a[|a| - 1];
      OnceEach(front, u);
      assert a == front + [last];
      forall k | 0 <= k < |front|
        ensures front[k] != last
      {
        assert a[k] == front[k];
      }
    }
  }
}
