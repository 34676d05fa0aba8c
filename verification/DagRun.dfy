/** The scheduler state of the DAG engine (lab 30), its steps, and what every step keeps. */
module DagRun {
  import opened Options
  import opened Sets
  import opened DagModel

  datatype Record = Record(task: Task, attempt: nat, disposition: Disposition, started: nat, finished: nat)

  /** An attempt in progress. */
  datatype Attempt = Attempt(number: nat, outcome: Outcome, started: nat) {
    function Finish(): nat { started + outcome.duration }
  }

  /**
   * The local variables of `run`: the ready list and the heap (as a set and a map, always drained in order),
   * the results, the records, and the sorter's handed-out and finished tasks.
   */
  datatype Sim = Sim(
    ready: set<Task>,
    running: map<Task, Attempt>,
    counts: map<Task, nat>,
    results: map<Task, NodeResult>,
    records: seq<Record>,
    handed: set<Task>,
    finished: set<Task>,
    now: nat,
    peak: nat)

  ghost predicate IsLeast(s: set<Task>, t: Task) {
    t in s && forall x :: x in s ==> t <= x
  }

  /** The task a sorted list of these would begin with. */
  function Least(s: set<Task>): (t: Task)
    requires s != {}
    ensures IsLeast(s, t)
  {
    LeastOf(s)
  }

  // ---------- steps ----------

  /** `get_ready`: tasks not handed out before whose dependencies are all done. */
  function Fresh(d: Dag, s: Sim): set<Task> {
    set t | t in d.specs && t !in s.handed && Deps(d, t) <= s.finished
  }

  function Release(d: Dag, s: Sim): Sim {
    s.(ready := s.ready + Fresh(d, s), handed := s.handed + Fresh(d, s))
  }

  function Begin(d: Dag): Sim {
    Release(d, Sim({}, map[], map t | t in d.specs :: 0, map t | t in d.specs :: NodeResult(Pending, 0, None), [], {}, {}, 0, 0))
  }

  function StartOne(s: Sim, t: Task, o: Outcome): Sim
    requires t in s.counts
  {
    var n := s.counts[t] + 1;
    var running := s.running[t := Attempt(n, o, s.now)];
    s.(ready := s.ready - {t}, running := running, counts := s.counts[t := n],
       results := s.results[t := NodeResult(Running, n, None)],
       peak := if s.peak < |running| then |running| else s.peak)
  }

  function Logged(s: Sim, t: Task): Sim
    requires t in s.running
  {
    var a := s.running[t];
    s.(running := s.running - {t},
       records := s.records + [Record(t, a.number, a.outcome.disposition, a.started, a.Finish())])
  }

  function SucceedOne(d: Dag, s: Sim, t: Task): Sim
    requires t in s.running
  {
    var l := Logged(s, t);
    Release(d, l.(results := l.results[t := NodeResult(Succeeded, s.running[t].number, None)], finished := l.finished + {t}))
  }

  function RetryOne(s: Sim, t: Task): Sim
    requires t in s.running
  {
    var a := s.running[t];
    var l := Logged(s, t);
    l.(results := l.results[t := NodeResult(Pending, a.number, Some(a.outcome.detail))], ready := l.ready + {t})
  }

  function FailOne(s: Sim, t: Task): Sim
    requires t in s.running
  {
    var a := s.running[t];
    var l := Logged(s, t);
    l.(results := l.results[t := NodeResult(Failed, a.number, Some(Complaint(a.outcome)))])
  }

  function FinishOne(d: Dag, s: Sim, t: Task): Sim
    requires t in s.running && t in d.specs
  {
    var a := s.running[t];
    if a.outcome.disposition == Success then SucceedOne(d, s, t)
    else if Repeats(d, t, a.number, a.outcome) then RetryOne(s, t)
    else FailOne(s, t)
  }

  // ---------- where every task is ----------

  ghost predicate Keyed(d: Dag, s: Sim) {
    && s.counts.Keys == s.results.Keys == d.specs.Keys
    && s.ready <= d.specs.Keys && s.running.Keys <= d.specs.Keys
    && s.finished <= d.specs.Keys && s.handed <= d.specs.Keys
  }

  /** A task's recorded state says which of the scheduler's collections it is in. */
  ghost predicate PlacedAt(s: Sim, t: Task)
    requires t in s.results && t in s.counts
  {
    && s.results[t].attempts == s.counts[t]
    && s.results[t].state != Skipped
    && (t in s.running <==> s.results[t].state == Running)
    && (t in s.finished <==> s.results[t].state == Succeeded)
    && (t in s.ready <==> s.results[t].state == Pending && t in s.handed)
    && (t !in s.handed ==> s.results[t].state == Pending && s.counts[t] == 0)
  }

  ghost predicate Placed(d: Dag, s: Sim) {
    && Keyed(d, s)
    && forall t :: t in d.specs ==> PlacedAt(s, t)
  }

  /** A task has been handed out exactly when its dependencies are done. */
  ghost predicate InOrder(d: Dag, s: Sim) {
    forall t :: t in d.specs ==> (t in s.handed <==> Deps(d, t) <= s.finished)
  }

  /** A task's progress agrees with its fate. */
  ghost predicate OnTrackAt(d: Dag, plans: Plans, s: Sim, t: Task)
    requires t in s.results && t in s.counts && t in d.specs
  {
    && (s.results[t].state == Pending ==> Fate(d, plans, t, s.counts[t]) == Fate(d, plans, t, 0))
    && (t in s.running ==>
          && s.running[t].number == s.counts[t] >= 1
          && Planned(plans, t, s.counts[t]) == Some(s.running[t].outcome)
          && Fate(d, plans, t, s.counts[t] - 1) == Fate(d, plans, t, 0))
    && (s.results[t].state == Succeeded || s.results[t].state == Failed ==> Fate(d, plans, t, 0) == Some(s.results[t]))
  }

  ghost predicate OnTrack(d: Dag, plans: Plans, s: Sim) {
    && Keyed(d, s)
    && forall t :: t in d.specs ==> OnTrackAt(d, plans, s, t)
  }

  /** Attempts stay within the allowance, and a ready task may still be attempted. */
  ghost predicate Allowed(d: Dag, s: Sim) {
    && Keyed(d, s)
    && (forall t :: t in s.ready ==> s.counts[t] == 0 || s.counts[t] < d.specs[t].maxAttempts)
    && (forall t :: t in d.specs ==> s.counts[t] <= 1 || s.counts[t] <= d.specs[t].maxAttempts)
  }

  ghost predicate Steady(d: Dag, plans: Plans, s: Sim) {
    Placed(d, s) && InOrder(d, s) && OnTrack(d, plans, s) && Allowed(d, s)
  }

  lemma BeginIsSteady(d: Dag, plans: Plans)
    ensures Steady(d, plans, Begin(d))
  {
  }

  lemma StartIsPlaced(d: Dag, s: Sim, t: Task, o: Outcome)
    requires Placed(d, s) && InOrder(d, s) && t in s.ready
    ensures Placed(d, StartOne(s, t, o)) && InOrder(d, StartOne(s, t, o))
  {
    assert PlacedAt(s, t);
    var r := StartOne(s, t, o);
    forall x | x in d.specs ensures PlacedAt(r, x) {
      assert PlacedAt(s, x);
    }
  }

  lemma StartedOnTrack(d: Dag, plans: Plans, s: Sim, t: Task, o: Outcome)
    requires t in d.specs && t in s.counts && t in s.results && s.results[t].state == Pending
    requires OnTrackAt(d, plans, s, t) && Planned(plans, t, s.counts[t] + 1) == Some(o)
    ensures OnTrackAt(d, plans, StartOne(s, t, o), t)
  {
    hide Fate, Planned;
    var n := s.counts[t];
    var r := StartOne(s, t, o);
    assert r.counts[t] == n + 1 && r.counts[t] - 1 == n;
  }

  lemma StartTouchesOne(d: Dag, s: Sim, t: Task, o: Outcome)
    requires Keyed(d, s) && t in s.ready
    ensures var r := StartOne(s, t, o);
            && Keyed(d, r)
            && (forall x :: x in d.specs && x != t ==> r.results[x] == s.results[x] && r.counts[x] == s.counts[x])
            && forall x :: x in r.running && x != t ==> x in s.running && r.running[x] == s.running[x]
  {
  }

  lemma StartIsOnTrack(d: Dag, plans: Plans, s: Sim, t: Task, o: Outcome)
    requires OnTrack(d, plans, s) && Placed(d, s) && t in s.ready && Planned(plans, t, s.counts[t] + 1) == Some(o)
    ensures OnTrack(d, plans, StartOne(s, t, o))
  {
    assert s.results[t].state == Pending by {
      assert PlacedAt(s, t);
    }
    assert OnTrackAt(d, plans, s, t);
    hide Fate, Planned, OnTrack, OnTrackAt, Placed, PlacedAt, Keyed, StartOne;
    var r := StartOne(s, t, o);
    StartTouchesOne(d, s, t, o);
    StartedOnTrack(d, plans, s, t, o);
    OthersOnTrack(d, plans, s, r, t);
  }

  lemma StartIsAllowed(d: Dag, s: Sim, t: Task, o: Outcome)
    requires Allowed(d, s) && t in s.ready
    ensures Allowed(d, StartOne(s, t, o))
  {
  }

  lemma StartIsSteady(d: Dag, plans: Plans, s: Sim, t: Task, o: Outcome)
    requires Steady(d, plans, s) && t in s.ready && Planned(plans, t, s.counts[t] + 1) == Some(o)
    ensures Steady(d, plans, StartOne(s, t, o))
  {
    hide Placed, InOrder, OnTrack, StartOne, Planned;
    StartIsPlaced(d, s, t, o);
    StartIsOnTrack(d, plans, s, t, o);
    StartIsAllowed(d, s, t, o);
  }

  lemma SucceedIsPlaced(d: Dag, s: Sim, t: Task)
    requires Placed(d, s) && InOrder(d, s) && t in s.running && s.running[t].number == s.counts[t]
    ensures Placed(d, SucceedOne(d, s, t)) && InOrder(d, SucceedOne(d, s, t))
  {
    var r := SucceedOne(d, s, t);
    assert PlacedAt(s, t);
    forall x | x in d.specs ensures PlacedAt(r, x) {
      assert PlacedAt(s, x);
    }
  }

  lemma RetryIsPlaced(d: Dag, s: Sim, t: Task)
    requires Placed(d, s) && InOrder(d, s) && t in s.running && s.running[t].number == s.counts[t]
    ensures Placed(d, RetryOne(s, t)) && InOrder(d, RetryOne(s, t))
  {
    var r := RetryOne(s, t);
    assert PlacedAt(s, t);
    forall x | x in d.specs ensures PlacedAt(r, x) {
      assert PlacedAt(s, x);
    }
  }

  lemma FailIsPlaced(d: Dag, s: Sim, t: Task)
    requires Placed(d, s) && InOrder(d, s) && t in s.running && s.running[t].number == s.counts[t]
    ensures Placed(d, FailOne(s, t)) && InOrder(d, FailOne(s, t))
  {
    var r := FailOne(s, t);
    assert PlacedAt(s, t);
    forall x | x in d.specs ensures PlacedAt(r, x) {
      assert PlacedAt(s, x);
    }
  }

  lemma SucceedIsOnTrack(d: Dag, plans: Plans, s: Sim, t: Task)
    requires OnTrack(d, plans, s) && t in s.running && s.running[t].outcome.disposition == Success
    ensures OnTrack(d, plans, SucceedOne(d, s, t)) && s.running[t].number == s.counts[t]
  {
    var r := SucceedOne(d, s, t);
    assert OnTrackAt(d, plans, s, t);
    assert OnTrackAt(d, plans, r, t);
    OthersOnTrack(d, plans, s, r, t);
  }

  lemma RetryIsOnTrack(d: Dag, plans: Plans, s: Sim, t: Task)
    requires OnTrack(d, plans, s) && t in s.running && Repeats(d, t, s.running[t].number, s.running[t].outcome)
    ensures OnTrack(d, plans, RetryOne(s, t)) && s.running[t].number == s.counts[t]
  {
    var r := RetryOne(s, t);
    assert OnTrackAt(d, plans, s, t);
    assert OnTrackAt(d, plans, r, t);
    OthersOnTrack(d, plans, s, r, t);
  }

  lemma FailIsOnTrack(d: Dag, plans: Plans, s: Sim, t: Task)
    requires OnTrack(d, plans, s) && t in s.running && s.running[t].outcome.disposition != Success
    requires !Repeats(d, t, s.running[t].number, s.running[t].outcome)
    ensures OnTrack(d, plans, FailOne(s, t)) && s.running[t].number == s.counts[t]
  {
    var r := FailOne(s, t);
    assert OnTrackAt(d, plans, s, t);
    assert OnTrackAt(d, plans, r, t);
    OthersOnTrack(d, plans, s, r, t);
  }

  lemma OthersOnTrack(d: Dag, plans: Plans, s: Sim, r: Sim, t: Task)
    requires OnTrack(d, plans, s) && Keyed(d, r) && t in d.specs && OnTrackAt(d, plans, r, t)
    requires forall x :: x in d.specs && x != t ==> r.results[x] == s.results[x] && r.counts[x] == s.counts[x]
    requires forall x :: x in r.running && x != t ==> x in s.running && r.running[x] == s.running[x]
    ensures OnTrack(d, plans, r)
  {
    hide Fate, Planned;
    forall x | x in d.specs ensures OnTrackAt(d, plans, r, x) {
      assert OnTrackAt(d, plans, s, x);
    }
  }

  lemma FinishIsAllowed(d: Dag, s: Sim, t: Task)
    requires Allowed(d, s) && Placed(d, s) && t in s.running && s.running[t].number == s.counts[t]
    ensures Allowed(d, FinishOne(d, s, t))
  {
    forall x | x in Fresh(d, Logged(s, t).(finished := s.finished + {t})) ensures s.counts[x] == 0 {
      assert PlacedAt(s, x);
    }
  }

  lemma FinishIsSteady(d: Dag, plans: Plans, s: Sim, t: Task)
    requires Steady(d, plans, s) && t in s.running
    ensures t in d.specs && Steady(d, plans, FinishOne(d, s, t))
  {
    hide Placed, InOrder, OnTrack, RetryOne, SucceedOne, FailOne;
    var a := s.running[t];
    if a.outcome.disposition == Success {
      SucceedIsOnTrack(d, plans, s, t);
      SucceedIsPlaced(d, s, t);
    } else if Repeats(d, t, a.number, a.outcome) {
      RetryIsOnTrack(d, plans, s, t);
      RetryIsPlaced(d, s, t);
    } else {
      FailIsOnTrack(d, plans, s, t);
      FailIsPlaced(d, s, t);
    }
    FinishIsAllowed(d, s, t);
  }
}
