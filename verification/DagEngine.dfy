/** The DAG engine of lab 30: construction, the event loop, and the skip pass at its end. */
module DagEngine {
  import opened Options
  import opened Sums
  import opened DagModel
  import opened DagCycles
  import opened DagRun
  import opened DagTimes
  import opened DagBound
  import opened DagOrder

  datatype RunResult = RunResult(results: Results, attempts: seq<Record>, maxParallelSeen: nat, totalDuration: nat)

  // ---------- what the loop keeps ----------

  ghost predicate Going(d: Dag, plans: Plans, rank: map<Task, nat>, s: Sim, ahead: nat, tallest: nat)
    requires Ranked(d, rank)
  {
    && Steady(d, plans, s)
    && Orderly(d, plans, s)
    && Narrow(d, s)
    && Ahead(d, plans, rank, s, ahead)
    && Paced(d, s, ahead, tallest)
    && Exact(d, s)
  }

  lemma BeginIsGoing(d: Dag, plans: Plans, rank: map<Task, nat>, tallest: nat)
    requires Ranked(d, rank) && forall t :: t in d.specs ==> Height(d, plans, rank, t) <= tallest
    ensures Going(d, plans, rank, Begin(d), tallest, tallest)
  {
    hide Placed, InOrder, OnTrack, Allowed, Orderly, Narrow, Ahead, Paced, Ranked, Height, Begin, Exact;
    BeginIsExact(d);
    BeginIsSteady(d, plans);
    BeginIsOrderly(d, plans);
    BeginIsAhead(d, plans, rank, tallest);
    BeginIsPaced(d, tallest);
  }

  lemma StartKeepsGoing(d: Dag, plans: Plans, rank: map<Task, nat>, s: Sim, t: Task, o: Outcome, ahead: nat, tallest: nat)
    requires Ranked(d, rank) && Going(d, plans, rank, s, ahead, tallest)
    requires IsLeast(s.ready, t) && Undue(s) && |s.running| < d.maxParallel && Planned(plans, t, s.counts[t] + 1) == Some(o)
    ensures var r := StartOne(s, t, o);
            && Going(d, plans, rank, r, ahead, tallest)
            && Left(d, r) == Left(d, s) && r.now == s.now && r.ready == s.ready - {t} && Undue(r)
  {
    assert Keyed(d, s) && d.specs.Keys == s.counts.Keys;
    assert Timed(plans, s);
    hide Placed, InOrder, OnTrack, Allowed, Orderly, Narrow, Ahead, Paced, Ranked, Planned, Keyed, StartOne, Left, Exact, Undue, Timed;
    LeastIsMember(s.ready, t);
    ReadyIsIdle(d, s, t);
    StartIsExact(d, plans, s, t, o);
    StartIsSteady(d, plans, s, t, o);
    StartIsOrderly(d, plans, s, t, o);
    StartIsNarrow(d, s, t, o);
    StartIsAhead(d, plans, rank, s, t, o, ahead);
    StartIsPaced(d, s, t, o, ahead, tallest);
    StartFrame(d, s, t, o);
  }

  lemma StartFrame(d: Dag, s: Sim, t: Task, o: Outcome)
    requires t in s.counts
    ensures var r := StartOne(s, t, o);
            Left(d, r) == Left(d, s) && r.now == s.now && r.ready == s.ready - {t}
  {
    hide RecordsOf, Budget;
  }

  lemma ReadyIsIdle(d: Dag, s: Sim, t: Task)
    requires Placed(d, s) && t in s.ready
    ensures t !in s.running && t in s.counts
  {
    assert PlacedAt(s, t);
  }

  lemma AdvanceKeepsGoing(d: Dag, plans: Plans, rank: map<Task, nat>, s: Sim, now: nat, ahead: nat, tallest: nat) returns (left: nat)
    requires Ranked(d, rank) && Going(d, plans, rank, s, ahead, tallest)
    requires s.running != map[] && s.now <= now && forall t :: t in s.running ==> now <= s.running[t].Finish()
    requires s.ready == {} || |s.running| == d.maxParallel
    ensures Going(d, plans, rank, s.(now := now), left, tallest)
    ensures Left(d, s.(now := now)) == Left(d, s)
  {
    assert Keyed(d, s);
    assert forall t :: t in s.running ==> s.running[t].started <= s.now;
    hide Placed, InOrder, OnTrack, Allowed, Orderly, Narrow, Ahead, Paced, Ranked, Keyed, Left, Exact;
    AdvanceIsExact(d, s, now);
    AdvanceFrame(d, s, now);
    AdvanceIsSteady(d, plans, s, now);
    AdvanceIsOrderly(d, plans, s, now);
    NarrowAdvance(d, plans, s, now);
    AdvanceIsAhead(d, plans, rank, s, now, ahead);
    AdvanceIsPaced(d, s, now, ahead, tallest);
    left := if s.ready == {} then ahead - (now - s.now) else ahead;
  }

  lemma AdvanceFrame(d: Dag, s: Sim, now: nat)
    requires Keyed(d, s)
    ensures Keyed(d, s.(now := now)) && Left(d, s.(now := now)) == Left(d, s)
  {
    hide RecordsOf, Budget;
  }

  lemma NarrowAdvance(d: Dag, plans: Plans, s: Sim, now: nat)
    requires Orderly(d, plans, s) && Narrow(d, s) && s.now <= now
    ensures Narrow(d, s.(now := now))
  {
    hide Narrow, Counted, Waited, Timed;
    AdvanceIsNarrow(d, plans, s, now);
  }

  lemma AdvanceIsSteady(d: Dag, plans: Plans, s: Sim, now: nat)
    requires Steady(d, plans, s)
    ensures Steady(d, plans, s.(now := now))
  {
    hide Fate, Planned, Fresh, Deps;
    var r := s.(now := now);
    forall t | t in d.specs ensures PlacedAt(r, t) {
      assert PlacedAt(s, t);
    }
    forall t | t in d.specs ensures OnTrackAt(d, plans, r, t) {
      assert OnTrackAt(d, plans, s, t);
    }
  }

  lemma FinishKeepsGoing(d: Dag, plans: Plans, rank: map<Task, nat>, s: Sim, t: Task, ahead: nat, tallest: nat)
    requires Ranked(d, rank) && Going(d, plans, rank, s, ahead, tallest)
    requires t in s.running && s.running[t].Finish() == s.now && ComesNext(s, t)
    ensures t in d.specs
    ensures var r := FinishOne(d, s, t);
            && Going(d, plans, rank, r, ahead, tallest)
            && Total(Left(d, r)) < Total(Left(d, s)) && r.now == s.now && r.running == s.running - {t}
  {
    hide Placed, InOrder, OnTrackAt, Allowed, Narrow, Ahead, Paced, Ranked, Counted, Timed, Waited, FinishOne, RecordOf, Total, Left, Exact, ComesNext;
    var r := FinishOne(d, s, t);
    RunningShowsInPeak(d, s, t);
    FinishIsExact(d, plans, s, t);
    FinishIsSteady(d, plans, s, t);
    FinishIsOrderly(d, plans, s, t);
    FinishLogs(d, s, t);
    LogIsNarrow(d, s, r, t);
    RunningFacts(d, plans, s, t);
    FinishIsAhead(d, plans, rank, s, t, ahead);
    FinishIsPaced(d, s, r, t, ahead, tallest);
    RunningHasBudget(d, s, t);
    FinishTakesOne(d, s, r, t);
  }

  lemma RunningFacts(d: Dag, plans: Plans, s: Sim, t: Task)
    requires OnTrack(d, plans, s) && Timed(plans, s) && t in s.running
    ensures s.running[t].number == s.counts[t] && s.running[t].started <= s.now
  {
    assert OnTrackAt(d, plans, s, t);
  }

  // ---------- how the loop ends ----------

  lemma {:induction false} FinishedEverywhere(d: Dag, plans: Plans, rank: map<Task, nat>, s: Sim, results: Results, t: Task)
    requires ValidDag(d) && Ranked(d, rank) && Steady(d, plans, s) && Settled(d, plans, results) && t in s.finished
    ensures results[t].state == Succeeded
    decreases rank[t]
  {
    hide Fate, Allowed;
    assert PlacedAt(s, t) && OnTrackAt(d, plans, s, t);
    assert Deps(d, t) <= s.finished;
    forall u | u in d.specs[t].dependsOn ensures results[u].state == Succeeded {
      assert u in Deps(d, t);
      FinishedEverywhere(d, plans, rank, s, results, u);
    }
    assert !Blocked(d, results, t);
  }

  lemma HandedMeetsFate(d: Dag, plans: Plans, s: Sim, results: Results, t: Task)
    requires ValidDag(d) && Acyclic(d) && Steady(d, plans, s) && Settled(d, plans, results) && t in s.handed
    ensures Fate(d, plans, t, 0) == Some(results[t])
  {
    hide Fate, Allowed;
    var rank :| Ranked(d, rank);
    assert Deps(d, t) <= s.finished;
    forall u | u in d.specs[t].dependsOn ensures results[u].state == Succeeded {
      assert u in Deps(d, t);
      FinishedEverywhere(d, plans, rank, s, results, u);
    }
    assert !Blocked(d, results, t);
  }

  lemma SettledMeetsFate(d: Dag, plans: Plans, s: Sim, t: Task)
    requires ValidDag(d) && Acyclic(d) && Steady(d, plans, s) && t in s.handed
    requires !NeverSettles(d, plans)
    ensures t in d.specs && Fate(d, plans, t, 0) != None
  {
    var results: Results :| Settled(d, plans, results);
    hide *;
    HandedMeetsFate(d, plans, s, results, t);
  }

  /** A plan that runs out while its task is due leaves no way to settle the graph. */
  lemma ExhaustedNeverSettles(d: Dag, plans: Plans, s: Sim, t: Task)
    requires ValidDag(d) && Acyclic(d) && Steady(d, plans, s) && t in s.ready && Planned(plans, t, s.counts[t] + 1) == None
    ensures t in d.specs && Fate(d, plans, t, 0) == None
    ensures NeverSettles(d, plans)
  {
    hide Allowed, Planned, ValidDag, Acyclic, Deps, Settled;
    assert PlacedAt(s, t) && OnTrackAt(d, plans, s, t);
    assert Fate(d, plans, t, s.counts[t]) == None;
    hide Fate, OnTrackAt, PlacedAt, Placed, OnTrack, InOrder;
    if !NeverSettles(d, plans) {
      SettledMeetsFate(d, plans, s, t);
    }
  }

  ghost predicate Still(d: Dag, plans: Plans, s: Sim) {
    Steady(d, plans, s) && s.ready == {} && s.running == map[]
  }

  lemma {:induction false} WaitingIsBelowFailure(d: Dag, plans: Plans, rank: map<Task, nat>, s: Sim, t: Task)
    returns (u: Task, path: seq<Task>)
    requires ValidDag(d) && Ranked(d, rank) && Still(d, plans, s) && t in d.specs && s.results[t].state == Pending
    ensures u in d.specs && s.results[u].state == Failed
    ensures IsPath(d, path) && |path| >= 2 && path[0] == u && path[|path| - 1] == t
    decreases rank[t]
  {
    hide Allowed, OnTrack;
    assert PlacedAt(s, t);
    var v :| v in Deps(d, t) && v !in s.finished;
    assert PlacedAt(s, v);
    assert t in Children(d, v) && v in d.specs && rank[v] < rank[t];
    assert s.results[v].state == Failed || s.results[v].state == Pending;
    hide Ranked, Still, IsPath, Children;
    if s.results[v].state == Failed {
      u, path := v, [v, t];
      PathOfTwo(d, v, t);
    } else {
      var above: seq<Task>;
      u, above := WaitingIsBelowFailure(d, plans, rank, s, v);
      path := above + [t];
      PathSnoc(d, above, t);
    }
  }

  function Skip(results: Results, skipped: set<Task>): Results {
    map t | t in results ::
      if t in skipped && results[t].state == Pending then NodeResult(Skipped, 0, None) else results[t]
  }

  ghost predicate BelowFailures(d: Dag, results: Results, skipped: set<Task>) {
    forall t :: t in skipped <==> exists u :: u in results && results[u].state == Failed && Reaches(d, u, t)
  }

  lemma WaitingIsSkipped(d: Dag, plans: Plans, s: Sim, skipped: set<Task>, t: Task)
    requires ValidDag(d) && Acyclic(d) && Still(d, plans, s) && BelowFailures(d, s.results, skipped)
    requires t in d.specs && s.results[t].state == Pending
    ensures Skip(s.results, skipped)[t] == NodeResult(Skipped, 0, None) && s.counts[t] == 0
    ensures Blocked(d, Skip(s.results, skipped), t)
  {
    hide Fate, Allowed, OnTrack;
    var rank :| Ranked(d, rank);
    assert PlacedAt(s, t);
    var u, path := WaitingIsBelowFailure(d, plans, rank, s, t);
    hide IsPath;
    assert Reaches(d, u, t);
    var v :| v in Deps(d, t) && v !in s.finished;
    hide Deps, Ranked, InOrder, BelowFailures;
    assert PlacedAt(s, v);
  }

  lemma StartedIsKept(d: Dag, plans: Plans, s: Sim, skipped: set<Task>, t: Task)
    requires ValidDag(d) && Still(d, plans, s) && t in d.specs && s.results[t].state != Pending
    ensures !Blocked(d, Skip(s.results, skipped), t)
    ensures Fate(d, plans, t, 0) == Some(Skip(s.results, skipped)[t])
    ensures Skip(s.results, skipped)[t].attempts == s.counts[t]
  {
    hide Fate, Allowed;
    assert PlacedAt(s, t) && OnTrackAt(d, plans, s, t);
    assert Deps(d, t) <= s.finished;
    hide OnTrack;
    forall v | v in d.specs[t].dependsOn ensures Skip(s.results, skipped)[v].state == Succeeded {
      assert v in Deps(d, t) && PlacedAt(s, v);
    }
  }

  /** Skipping whatever still waits below a failure settles the graph. */
  lemma SkipSettles(d: Dag, plans: Plans, s: Sim, skipped: set<Task>)
    requires ValidDag(d) && Acyclic(d) && Still(d, plans, s) && BelowFailures(d, s.results, skipped)
    ensures Settled(d, plans, Skip(s.results, skipped))
    ensures Skip(s.results, skipped).Keys == d.specs.Keys
    ensures forall t :: t in d.specs ==> Skip(s.results, skipped)[t].attempts == s.counts[t]
  {
    var final := Skip(s.results, skipped);
    assert Keyed(d, s) && final.Keys == s.results.Keys;
    hide *;
    forall t | t in d.specs
      ensures final[t].attempts == s.counts[t]
      ensures if Blocked(d, final, t) then final[t] == NodeResult(Skipped, 0, None)
              else Fate(d, plans, t, 0) == Some(final[t])
    {
      if s.results[t].state == Pending {
        WaitingIsSkipped(d, plans, s, skipped, t);
      } else {
        StartedIsKept(d, plans, s, skipped, t);
      }
    }
    SettledIntro(d, plans, final);
  }

  lemma SettledIntro(d: Dag, plans: Plans, results: Results)
    requires results.Keys == d.specs.Keys
    requires forall t :: t in d.specs ==>
               if Blocked(d, results, t) then results[t] == NodeResult(Skipped, 0, None)
               else Fate(d, plans, t, 0) == Some(results[t])
    ensures Settled(d, plans, results)
  {
    hide Fate, Blocked;
  }

  // ---------- descendants ----------

  method Listed(s: set<Task>) returns (list: seq<Task>)
    ensures forall t :: t in list <==> t in s
  {
    list := [];
    var rest := s;
    while rest != {}
      invariant rest <= s && forall t :: t in list <==> t in s - rest
    {
      var t :| t in rest;
      list, rest := list + [t], rest - {t};
    }
  }

  lemma ChildIsReached(d: Dag, u: Task, t: Task, c: Task)
    requires u in d.specs && t in d.specs && c in Children(d, t) && (t == u || Reaches(d, u, t))
    ensures Reaches(d, u, c)
  {
    if t == u {
      PathOfTwo(d, u, c);
    } else {
      var path :| IsPath(d, path) && |path| >= 2 && path[0] == u && path[|path| - 1] == t;
      PathSnoc(d, path, c);
    }
  }

  /** A set that holds the children of `u` and is closed under children holds the end of every path from `u`. */
  lemma {:induction false} ClosedHoldsPath(d: Dag, u: Task, seen: set<Task>, path: seq<Task>)
    requires u in d.specs && Children(d, u) <= seen && forall x :: x in seen ==> Children(d, x) <= seen
    requires IsPath(d, path) && |path| >= 2 && path[0] == u
    ensures path[|path| - 1] in seen
  {
    var n := |path| - 1;
    assert path[n] in Children(d, path[n - 1]);
    if n >= 2 {
      ClosedHoldsPath(d, u, seen, path[..n]);
    }
  }

  /** What the stack loop keeps: it only meets tasks below `u`, and the children of what it has seen are seen or stacked. */
  ghost predicate Explored(d: Dag, u: Task, stack: seq<Task>, seen: set<Task>) {
    && seen <= d.specs.Keys
    && (forall t :: t in stack ==> t in d.specs && Reaches(d, u, t))
    && (forall t :: t in seen ==> Reaches(d, u, t))
    && (forall t :: t in Children(d, u) ==> t in seen || t in stack)
    && forall x, t :: x in seen && t in Children(d, x) ==> t in seen || t in stack
  }

  lemma ExploredBegins(d: Dag, u: Task, stack: seq<Task>)
    requires u in d.specs && forall t :: t in stack <==> t in Children(d, u)
    ensures Explored(d, u, stack, {})
  {
    hide *;
    forall t | t in stack ensures t in d.specs && Reaches(d, u, t) {
      ChildIsReached(d, u, u, t);
      ChildIsTask(d, u, t);
    }
    ExploredIntro(d, u, stack, {});
  }

  lemma ExploredIntro(d: Dag, u: Task, stack: seq<Task>, seen: set<Task>)
    requires seen <= d.specs.Keys
    requires forall t :: t in stack ==> t in d.specs && Reaches(d, u, t)
    requires forall t :: t in seen ==> Reaches(d, u, t)
    requires forall t :: t in Children(d, u) ==> t in seen || t in stack
    requires forall x, t :: x in seen && t in Children(d, x) ==> t in seen || t in stack
    ensures Explored(d, u, stack, seen)
  {
    hide Reaches, Children;
  }

  lemma ExploredPops(d: Dag, u: Task, stack: seq<Task>, current: Task, seen: set<Task>)
    requires Explored(d, u, stack + [current], seen)
    ensures current in d.specs && (current in seen ==> Explored(d, u, stack, seen))
  {
    hide Reaches, Children;
    assert current in stack + [current];
    assert forall t :: t in stack ==> t in stack + [current];
    assert forall t :: t in stack + [current] ==> t in stack || t == current;
  }

  lemma ExploredGrows(d: Dag, u: Task, stack: seq<Task>, current: Task, seen: set<Task>, below: seq<Task>)
    requires u in d.specs && Explored(d, u, stack + [current], seen) && current in d.specs
    requires forall t :: t in below <==> t in Children(d, current)
    ensures Explored(d, u, stack + below, seen + {current})
  {
    assert current in stack + [current];
    assert forall t :: t in stack ==> t in stack + [current];
    assert forall t :: t in stack + [current] ==> t in stack || t == current;
    assert forall t :: t in stack + below <==> t in stack || t in below;
    hide Reaches, Children;
    forall t | t in below ensures t in d.specs && Reaches(d, u, t) {
      ChildIsReached(d, u, current, t);
      ChildIsTask(d, current, t);
    }
    ExploredIntro(d, u, stack + below, seen + {current});
  }

  lemma ExploredEnds(d: Dag, u: Task, seen: set<Task>, t: Task)
    requires u in d.specs && Explored(d, u, [], seen)
    ensures t in seen <==> Reaches(d, u, t)
  {
    hide Reaches, Children;
    if Reaches(d, u, t) {
      ReachedIsHeld(d, u, seen, t);
    }
  }

  /** The tasks strictly below `u`, by the stack loop. */
  method Descendants(d: Dag, u: Task) returns (seen: set<Task>)
    requires u in d.specs
    ensures forall t :: t in seen <==> Reaches(d, u, t)
  {
    hide *;
    var stack := Listed(Children(d, u));
    ExploredBegins(d, u, stack);
    seen := {};
    while stack != []
      invariant Explored(d, u, stack, seen)
      decreases |d.specs.Keys - seen|, |stack|
    {
      var current := stack[|stack| - 1];
      assert stack == stack[..|stack| - 1] + [current];
      stack := stack[..|stack| - 1];
      ExploredPops(d, u, stack, current, seen);
      if current !in seen {
        OneFewer(d.specs.Keys, seen, current);
        var below := Listed(Children(d, current));
        ExploredGrows(d, u, stack, current, seen, below);
        seen := seen + {current};
        stack := stack + below;
      }
    }
    forall t ensures t in seen <==> Reaches(d, u, t) {
      ExploredEnds(d, u, seen, t);
    }
  }

  lemma ChildIsTask(d: Dag, t: Task, c: Task)
    requires c in Children(d, t)
    ensures c in d.specs
  {
  }

  lemma OneFewer<T>(all: set<T>, seen: set<T>, x: T)
    requires x in all && x !in seen
    ensures |all - (seen + {x})| < |all - seen|
  {
    assert all - (seen + {x}) == all - seen - {x};
  }

  lemma ReachedIsHeld(d: Dag, u: Task, seen: set<Task>, t: Task)
    requires u in d.specs && (forall t :: t in Children(d, u) ==> t in seen)
    requires forall x, t :: x in seen && t in Children(d, x) ==> t in seen
    requires Reaches(d, u, t)
    ensures t in seen
  {
    var path :| IsPath(d, path) && |path| >= 2 && path[0] == u && path[|path| - 1] == t;
    hide Children, IsPath;
    ClosedHoldsPath(d, u, seen, path);
  }

  method BelowAll(d: Dag, results: Results) returns (skipped: set<Task>)
    requires results.Keys == d.specs.Keys
    ensures BelowFailures(d, results, skipped)
  {
    hide Reaches;
    var failed := set t | t in results && results[t].state == Failed;
    var left := failed;
    skipped := {};
    while left != {}
      invariant left <= failed
      invariant forall t :: t in skipped <==> exists u :: u in failed && u !in left && Reaches(d, u, t)
    {
      var u :| u in left;
      var below := Descendants(d, u);
      skipped, left := skipped + below, left - {u};
    }
  }

  // ---------- the run ----------

  function Earliest(running: map<Task, Attempt>): (time: nat)
    requires running != map[]
    ensures forall t :: t in running ==> time <= running[t].Finish()
    ensures exists t :: t in running && running[t].Finish() == time
  {
    var ends := set t | t in running :: running[t].Finish();
    var t :| t in running;
    assert running[t].Finish() in ends;
    assert forall t :: t in running ==> running[t].Finish() in ends;
    Least(ends)
  }

  function Due(running: map<Task, Attempt>, now: nat): set<Task> {
    set t | t in running && running[t].Finish() == now
  }

  lemma SomethingIsDue(running: map<Task, Attempt>, now: nat)
    requires exists t :: t in running && running[t].Finish() == now
    ensures Due(running, now) != {}
  {
    var t :| t in running && running[t].Finish() == now;
    assert t in Due(running, now);
  }

  lemma LeastIsMember(s: set<Task>, t: Task)
    requires IsLeast(s, t)
    ensures t in s
  {
  }

  lemma DueFacts(running: map<Task, Attempt>, now: nat, t: Task)
    requires IsLeast(Due(running, now), t)
    ensures t in Due(running, now) && t in running && running[t].Finish() == now
    ensures Due(running - {t}, now) == Due(running, now) - {t}
  {
    LeastIsMember(Due(running, now), t);
  }

  lemma ReadyFacts(d: Dag, plans: Plans, rank: map<Task, nat>, s: Sim, t: Task, ahead: nat, tallest: nat)
    requires Ranked(d, rank) && Going(d, plans, rank, s, ahead, tallest) && IsLeast(s.ready, t)
    ensures Steady(d, plans, s) && t in s.ready && t in s.counts && t in d.specs
  {
    hide OnTrack, InOrder, Allowed, Orderly, Narrow, Ahead, Paced, Ranked, Exact;
  }

  /** Starts ready tasks, least first, while a worker is free. */
  method StartReady(d: Dag, plans: Plans, s0: Sim, ghost rank: map<Task, nat>, ghost ahead: nat, ghost tallest: nat)
    returns (r: Result<Sim, DagError>)
    requires ValidDag(d) && Acyclic(d) && Ranked(d, rank) && Going(d, plans, rank, s0, ahead, tallest) && Undue(s0)
    ensures r.Ok? ==> Undue(r.value)
    ensures r.Ok? ==> r.value.records == s0.records
    ensures r.Ok? ==> Going(d, plans, rank, r.value, ahead, tallest) && Left(d, r.value) == Left(d, s0) && r.value.now == s0.now
    ensures r.Ok? ==> r.value.ready == {} || |r.value.running| >= d.maxParallel
    ensures r.Err? ==> r.error.AttemptPlanExhausted? && r.error.task in d.specs && Fate(d, plans, r.error.task, 0) == None
    ensures r.Err? ==> NeverSettles(d, plans)
  {
    hide *;
    var s := s0;
    while s.ready != {} && |s.running| < d.maxParallel
      invariant Going(d, plans, rank, s, ahead, tallest) && Left(d, s) == Left(d, s0) && s.now == s0.now && Undue(s)
      invariant s.records == s0.records
      decreases |s.ready|
    {
      var t := Least(s.ready);
      ReadyFacts(d, plans, rank, s, t, ahead, tallest);
      var planned := Planned(plans, t, s.counts[t] + 1);
      if planned == None {
        ExhaustedNeverSettles(d, plans, s, t);
        return Err(AttemptPlanExhausted(t));
      }
      StartKeepsGoing(d, plans, rank, s, t, planned.value, ahead, tallest);
      StartRecords(s, t, planned.value);
      s := StartOne(s, t, planned.value);
    }
    return Ok(s);
  }

  /** Records every attempt that ends now, in task order. */
  method FinishDue(d: Dag, plans: Plans, s0: Sim, ghost rank: map<Task, nat>, ghost ahead: nat, ghost tallest: nat) returns (s: Sim)
    requires Ranked(d, rank) && Going(d, plans, rank, s0, ahead, tallest) && Due(s0.running, s0.now) != {}
    requires forall t :: t in Due(s0.running, s0.now) ==> t in s0.running && ComesNext(s0, t)
    ensures Undue(s) && Stamped(s)
    ensures Going(d, plans, rank, s, ahead, tallest) && Total(Left(d, s)) < Total(Left(d, s0))
  {
    hide *;
    s := s0;
    var due := Due(s.running, s.now);
    while due != {}
      invariant Going(d, plans, rank, s, ahead, tallest) && Total(Left(d, s)) <= Total(Left(d, s0))
      invariant due == Due(s.running, s.now)
      invariant due == {} ==> Total(Left(d, s)) < Total(Left(d, s0)) && Stamped(s)
      invariant forall t :: t in due ==> t in s.running && ComesNext(s, t)
      decreases |due|
    {
      var t := Least(due);
      DueFacts(s.running, s.now, t);
      FinishKeepsGoing(d, plans, rank, s, t, ahead, tallest);
      DueGoesOn(d, s, t);
      s := FinishOne(d, s, t);
      due := due - {t};
    }
    NothingDue(d, plans, rank, s, ahead, tallest);
  }

  lemma StartRecords(s: Sim, t: Task, o: Outcome)
    requires t in s.counts
    ensures StartOne(s, t, o).records == s.records
  {
  }

  lemma DueGoesOn(d: Dag, s: Sim, t: Task)
    requires IsLeast(Due(s.running, s.now), t) && t in d.specs && t in s.running && s.running[t].Finish() == s.now
    requires forall u :: u in Due(s.running, s.now) ==> u in s.running && ComesNext(s, u)
    ensures Stamped(FinishOne(d, s, t))
    ensures forall u :: u in Due(s.running, s.now) - {t} ==> u in FinishOne(d, s, t).running && ComesNext(FinishOne(d, s, t), u)
  {
    FinishStamps(d, s, t);
    hide FinishOne, ComesNext, Stamped;
    forall u | u in Due(s.running, s.now) - {t} ensures u in FinishOne(d, s, t).running && ComesNext(FinishOne(d, s, t), u) {
      RoundGoesOn(d, s, t, u);
    }
  }

  lemma NothingDue(d: Dag, plans: Plans, rank: map<Task, nat>, s: Sim, ahead: nat, tallest: nat)
    requires Ranked(d, rank) && Going(d, plans, rank, s, ahead, tallest) && Due(s.running, s.now) == {}
    ensures Undue(s)
  {
    forall t | t in s.running ensures s.running[t].Finish() != s.now {
      assert t !in Due(s.running, s.now);
    }
    hide Steady, Counted, Waited, Narrow, Ahead, Paced, Exact, Ranked;
    RoundEnds(plans, s);
  }

  lemma DueBegins(d: Dag, plans: Plans, rank: map<Task, nat>, s: Sim, now: nat, ahead: nat, tallest: nat)
    requires Ranked(d, rank) && Going(d, plans, rank, s, ahead, tallest) && Undue(s) && s.now <= now
    ensures forall t :: t in Due(s.running, now) ==> t in s.running && ComesNext(s.(now := now), t)
  {
    hide Steady, Counted, Waited, Narrow, Ahead, Paced, Exact, Ranked, ComesNext, Undue, Timed;
    forall t | t in Due(s.running, now) ensures t in s.running && ComesNext(s.(now := now), t) {
      RoundBegins(plans, s, now, t);
    }
  }

  /** What a finished run promises about its attempts. */
  ghost predicate SoundAttempts(d: Dag, plans: Plans, run: RunResult) {
    && Numbered(run.attempts)
    && DependenciesFirst(d, run.attempts)
    && (forall i :: 0 <= i < |run.attempts| ==>
          AsPlanned(plans, run.attempts[i]) && run.attempts[i].finished <= run.totalDuration)
    && (forall time: nat :: Overlap(run.attempts, time) <= run.maxParallelSeen)
    && run.maxParallelSeen <= d.maxParallel
    && (run.attempts != [] ==> run.maxParallelSeen >= 1)
    && (run.maxParallelSeen == 0 || exists time: nat :: run.maxParallelSeen <= Open(run.attempts, time))
    && (run.totalDuration == 0 || exists i :: 0 <= i < |run.attempts| && run.attempts[i].finished == run.totalDuration)
    && InEndOrder(run.attempts)
    && Fair(d, run.attempts, map[])
    && forall t :: t in d.specs && t in run.results ==>
         RecordsOf(run.attempts, t) == run.results[t].attempts <= Budget(d, t)
  }

  lemma BeginIsStamped(d: Dag)
    ensures Stamped(Begin(d))
  {
  }

  lemma StillStamped(s: Sim, r: Sim)
    requires Stamped(s) && r.records == s.records && r.now == s.now
    ensures Stamped(r)
  {
  }

  /** The event loop. */
  method Loop(d: Dag, plans: Plans, ghost rank: map<Task, nat>, ghost tallest: nat)
    returns (r: Result<Sim, DagError>, ghost ahead: nat)
    requires ValidDag(d) && Acyclic(d) && Ranked(d, rank) && Going(d, plans, rank, Begin(d), tallest, tallest)
    ensures r.Err? ==> r.error.AttemptPlanExhausted? && r.error.task in d.specs && Fate(d, plans, r.error.task, 0) == None
    ensures r.Err? ==> NeverSettles(d, plans)
    ensures r.Ok? ==> Going(d, plans, rank, r.value, ahead, tallest) && r.value.ready == {} && r.value.running == map[]
    ensures r.Ok? ==> Stamped(r.value)
  {
    hide *;
    ahead := tallest;
    var s := Begin(d);
    BeginIsExact(d);
    BeginIsStamped(d);
    while s.ready != {} || s.running != map[]
      invariant Going(d, plans, rank, s, ahead, tallest) && Undue(s) && Stamped(s)
      decreases Total(Left(d, s))
    {
      r := StartReady(d, plans, s, rank, ahead, tallest);
      if r.Err? {
        return;
      }
      StillStamped(s, r.value);
      s := r.value;
      if s.running == map[] {
        WidthIsPositive(d);
        break;
      }
      RunningIsNarrow(d, plans, rank, s, ahead, tallest);
      var now := Earliest(s.running);
      SomethingIsDue(s.running, now);
      DueBegins(d, plans, rank, s, now, ahead, tallest);
      ahead := AdvanceKeepsGoing(d, plans, rank, s, now, ahead, tallest);
      s := s.(now := now);
      s := FinishDue(d, plans, s, rank, ahead, tallest);
    }
    r := Ok(s);
  }

  /**
   * Runs the graph: a cycle is refused before anything starts; otherwise an error means that no results agree with the
   * plans, and success means that these do.
   */
  method Run(d: Dag, plans: Plans) returns (r: Result<RunResult, DagError>)
    requires ValidDag(d)
    ensures r.Err? && r.error.CycleDetected? <==> !Acyclic(d)
    ensures r.Err? && r.error.CycleDetected? ==> IsCycle(d, r.error.cycle)
    ensures r.Err? && Acyclic(d) ==>
              r.error.AttemptPlanExhausted? && r.error.task in d.specs && Fate(d, plans, r.error.task, 0) == None
    ensures r.Err? && Acyclic(d) ==> NeverSettles(d, plans)
    ensures r.Ok? ==> Settled(d, plans, r.value.results)
    ensures r.Ok? ==> SoundAttempts(d, plans, r.value)
    ensures r.Ok? ==> WithinGraham(d, plans, r.value.attempts, r.value.totalDuration)
  {
    hide *;
    var found := Validate(d);
    if found.Some? {
      return Err(CycleDetected(found.value));
    }
    r := RunAcyclic(d, plans);
  }

  /** The run past the cycle check. */
  method RunAcyclic(d: Dag, plans: Plans) returns (r: Result<RunResult, DagError>)
    requires ValidDag(d) && Acyclic(d)
    ensures r.Err? ==> r.error.AttemptPlanExhausted? && r.error.task in d.specs && Fate(d, plans, r.error.task, 0) == None
    ensures r.Err? ==> NeverSettles(d, plans)
    ensures r.Ok? ==> Settled(d, plans, r.value.results)
    ensures r.Ok? ==> SoundAttempts(d, plans, r.value)
    ensures r.Ok? ==> WithinGraham(d, plans, r.value.attempts, r.value.totalDuration)
  {
    hide *;
    ghost var rank, tallest := SomeRank(d, plans);
    BeginIsGoing(d, plans, rank, tallest);
    var looped, left := Loop(d, plans, rank, tallest);
    if looped.Err? {
      return Err(looped.error);
    }
    var s := looped.value;
    GoingIsStill(d, plans, rank, s, left, tallest);
    var skipped := BelowAll(d, s.results);
    SkipSettles(d, plans, s, skipped);
    EndIsWithinGraham(d, plans, rank, s, left, tallest);
    r := Ok(RunResult(Skip(s.results, skipped), s.records, s.peak, s.now));
    EndIsSound(d, plans, s, r.value);
  }

  lemma SomeRank(d: Dag, plans: Plans) returns (rank: map<Task, nat>, tallest: nat)
    requires Acyclic(d)
    ensures Ranked(d, rank) && forall t :: t in d.specs ==> Height(d, plans, rank, t) <= tallest
    ensures tallest == 0 || exists t :: t in d.specs && Height(d, plans, rank, t) == tallest
  {
    rank :| Ranked(d, rank);
    hide Ranked, Height;
    tallest := Tallest(d, plans, rank);
  }

  lemma WidthIsPositive(d: Dag)
    requires ValidDag(d)
    ensures 1 <= d.maxParallel
  {
  }

  lemma RunningIsNarrow(d: Dag, plans: Plans, rank: map<Task, nat>, s: Sim, ahead: nat, tallest: nat)
    requires Ranked(d, rank) && Going(d, plans, rank, s, ahead, tallest)
    ensures |s.running| <= d.maxParallel
    ensures forall t :: t in s.running ==> s.now <= s.running[t].Finish()
  {
    hide Placed, InOrder, OnTrack, Allowed, Ahead, Paced, Ranked, Counted, Waited, Exact;
  }

  lemma GoingIsStill(d: Dag, plans: Plans, rank: map<Task, nat>, s: Sim, ahead: nat, tallest: nat)
    requires Ranked(d, rank) && Going(d, plans, rank, s, ahead, tallest) && s.ready == {} && s.running == map[]
    ensures Still(d, plans, s) && Orderly(d, plans, s) && Narrow(d, s) && Paced(d, s, ahead, tallest) && Exact(d, s)
    ensures s.results.Keys == d.specs.Keys
  {
    hide InOrder, OnTrack, Allowed, Orderly, Narrow, Ahead, Paced, Ranked, Exact;
  }

  lemma EndIsSound(d: Dag, plans: Plans, s: Sim, run: RunResult)
    requires Still(d, plans, s) && Orderly(d, plans, s) && Narrow(d, s) && Exact(d, s) && Stamped(s)
    requires run.attempts == s.records && run.totalDuration == s.now && run.maxParallelSeen == s.peak
    requires run.results.Keys == d.specs.Keys && forall t :: t in d.specs ==> run.results[t].attempts == s.counts[t]
    ensures SoundAttempts(d, plans, run)
  {
    hide Placed, InOrder, OnTrack, AsPlanned, RecordsOf, DoneBy, Overlap, ReadyAt, StartedBy, InEndOrder, Fair, Exact, Stamped, Open;
    EndIsExact(d, s);
    forall time: nat ensures Overlap(run.attempts, time) <= run.maxParallelSeen {
      NarrowThroughout(d, plans, s, time);
    }
  }

  // ---------- construction ----------

  lemma {:induction false} IndexedHolds(nodes: seq<NodeSpec>, t: Task)
    ensures t in Indexed(nodes) <==> exists i :: 0 <= i < |nodes| && nodes[i].id == t
    ensures t in Indexed(nodes) ==> Indexed(nodes)[t] in nodes && Indexed(nodes)[t].id == t
  {
    if nodes != [] {
      var n := |nodes| - 1;
      IndexedHolds(nodes[..n], t);
      if t in Indexed(nodes[..n]) {
        var i :| 0 <= i < n && nodes[..n][i].id == t;
        assert nodes[i].id == t;
      }
      if i :| 0 <= i < |nodes| && nodes[i].id == t {
        assert i < n ==> nodes[..n][i].id == t;
      }
    }
  }

  ghost predicate DistinctIds(nodes: seq<NodeSpec>) {
    forall i, j :: 0 <= i < j < |nodes| ==> nodes[i].id != nodes[j].id
  }

  /** The index is as long as the list exactly when no id repeats. */
  lemma {:induction false} IndexedLength(nodes: seq<NodeSpec>)
    ensures |Indexed(nodes)| <= |nodes|
    ensures |Indexed(nodes)| == |nodes| <==> DistinctIds(nodes)
  {
    if nodes != [] {
      var n := |nodes| - 1;
      var first, last := nodes[..n], nodes[n];
      IndexedLength(first);
      IndexedHolds(first, last.id);
      assert Indexed(nodes).Keys == Indexed(first).Keys + {last.id};
      if last.id in Indexed(first) {
        var i :| 0 <= i < n && first[i].id == last.id;
        assert nodes[i].id == nodes[n].id;
      } else {
        forall i, j | 0 <= i < j < |nodes| && DistinctIds(first)
          ensures nodes[i].id != nodes[j].id
        {
          assert nodes[i] == first[i];
          if j < n {
            assert nodes[j] == first[j];
          }
        }
        if DistinctIds(nodes) {
          forall x, y | 0 <= x < y < n ensures first[x].id != first[y].id {
            assert nodes[x].id != nodes[y].id;
          }
        }
      }
    }
  }

  ghost predicate KnownDependencies(nodes: seq<NodeSpec>) {
    forall i, u :: 0 <= i < |nodes| && u in nodes[i].dependsOn ==> exists j :: 0 <= j < |nodes| && nodes[j].id == u
  }

  /**
   * The constructor accepts exactly a positive width and distinct nodes whose dependencies are all among them, and then the
   * graph is made of just these nodes; otherwise its error names the first of these conditions that fails.
   */
  lemma CreateAccepts(nodes: seq<NodeSpec>, maxParallel: int)
    ensures var r := Create(nodes, maxParallel);
            && (r == Err(InvalidParallelism) <==> maxParallel < 1)
            && (r == Err(DuplicateNode) <==> 1 <= maxParallel && !DistinctIds(nodes))
            && (r == Err(MissingDependency) <==> 1 <= maxParallel && DistinctIds(nodes) && !KnownDependencies(nodes))
            && (r.Ok? <==> 1 <= maxParallel && DistinctIds(nodes) && KnownDependencies(nodes))
            && (r.Ok? ==> ValidDag(r.value) && r.value.maxParallel == maxParallel
                          && forall t, n :: t in r.value.specs && r.value.specs[t] == n <==> n in nodes && n.id == t)
  {
    IndexedLength(nodes);
    forall t ensures t in Indexed(nodes) <==> exists i :: 0 <= i < |nodes| && nodes[i].id == t {
      IndexedHolds(nodes, t);
    }
    var r := Create(nodes, maxParallel);
    if r.Ok? {
      forall t, u | t in Indexed(nodes) && u in Indexed(nodes)[t].dependsOn ensures u in Indexed(nodes) {
        IndexedHolds(nodes, t);
      }
      forall t, n ensures t in r.value.specs && r.value.specs[t] == n <==> n in nodes && n.id == t {
        IndexedHolds(nodes, t);
        if n in nodes && n.id == t {
          var i :| 0 <= i < |nodes| && nodes[i] == n;
          var j :| 0 <= j < |nodes| && nodes[j] == Indexed(nodes)[t];
          assert i == j;
        }
      }
    }
  }
}
