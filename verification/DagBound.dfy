/** Work, progress and Graham's bound on the length of a run of the DAG engine (lab 30). */
module DagBound {
  import opened Options
  import opened Sums
  import opened DagModel
  import opened DagRun
  import opened DagTimes

  // ---------- progress ----------

  function Budget(d: Dag, t: Task): nat
    requires t in d.specs
  {
    if d.specs[t].maxAttempts < 1 then 1 else d.specs[t].maxAttempts
  }

  /** How many attempts of each task could still be recorded. */
  ghost function Left(d: Dag, s: Sim): map<Task, nat> {
    map t | t in d.specs ::
      if RecordsOf(s.records, t) <= Budget(d, t) then Budget(d, t) - RecordsOf(s.records, t) else 0
  }

  lemma FinishTakesOne(d: Dag, s: Sim, r: Sim, t: Task)
    requires Keyed(d, s) && Keyed(d, r) && t in s.running && r.records == s.records + [RecordOf(s, t)]
    requires RecordsOf(s.records, t) < Budget(d, t)
    ensures Total(Left(d, r)) < Total(Left(d, s))
  {
    hide Total, Budget;
    assert r.records[..|s.records|] == s.records;
    TotalSplit(Left(d, s), t);
    TotalSplit(Left(d, r), t);
    assert Left(d, s) - {t} == Left(d, r) - {t};
  }

  lemma RunningHasBudget(d: Dag, s: Sim, t: Task)
    requires Allowed(d, s) && Counted(s) && t in s.running
    ensures RecordsOf(s.records, t) < Budget(d, t)
  {
    hide RecordsOf;
  }

  // ---------- work ----------

  function Busy(records: seq<Record>): nat {
    if records == [] then 0
    else
      var last := records[|records| - 1];
      Busy(records[..|records| - 1]) + if last.started <= last.finished then last.finished - last.started else 0
  }

  ghost function ElapsedOf(running: map<Task, Attempt>, now: nat): map<Task, nat> {
    map t | t in running :: if running[t].started <= now then now - running[t].started else 0
  }

  /** The time spent so far on the attempts in progress. */
  ghost function Elapsed(running: map<Task, Attempt>, now: nat): nat {
    Total(ElapsedOf(running, now))
  }

  lemma ElapsedSplit(running: map<Task, Attempt>, now: nat, t: Task)
    requires t in running && running[t].started <= now
    ensures Elapsed(running, now) == now - running[t].started + Elapsed(running - {t}, now)
  {
    TotalSplit(ElapsedOf(running, now), t);
    assert ElapsedOf(running, now) - {t} == ElapsedOf(running - {t}, now);
  }

  lemma ElapsedStart(running: map<Task, Attempt>, now: nat, t: Task, a: Attempt)
    requires t !in running && a.started == now
    ensures Elapsed(running[t := a], now) == Elapsed(running, now)
  {
    ElapsedSplit(running[t := a], now, t);
    assert running[t := a] - {t} == running;
  }

  lemma {:induction false} ElapsedAdvance(running: map<Task, Attempt>, now: nat, later: nat)
    requires now <= later && forall t :: t in running ==> running[t].started <= now
    ensures Elapsed(running, later) == Elapsed(running, now) + |running| * (later - now)
    decreases |running|
  {
    hide Elapsed;
    if running == map[] {
      NothingElapsed(now);
      NothingElapsed(later);
    } else {
      var t :| t in running;
      var rest := running - {t};
      assert rest.Keys == running.Keys - {t};
      ElapsedAdvance(rest, now, later);
      ElapsedSplit(running, now, t);
      ElapsedSplit(running, later, t);
      OneMore(|rest|, later - now);
    }
  }

  lemma NothingElapsed(now: nat)
    ensures Elapsed(map[], now) == 0
  {
  }

  lemma OneMore(n: nat, k: nat)
    ensures (n + 1) * k == n * k + k
  {
  }

  // ---------- what is still ahead ----------

  /** The planned time of the attempts that will follow this one. */
  function Rest(d: Dag, plans: Plans, t: Task, a: Attempt): nat
    requires t in d.specs
  {
    if Repeats(d, t, a.number, a.outcome) then Remaining(d, plans, t, a.number) else 0
  }

  /** From every ready or running task, what lies ahead on any path takes at most `ahead`. */
  ghost predicate Ahead(d: Dag, plans: Plans, rank: map<Task, nat>, s: Sim, ahead: nat)
    requires Ranked(d, rank) && Keyed(d, s)
  {
    && (forall t :: t in s.ready ==> Remaining(d, plans, t, s.counts[t]) + Below(d, plans, rank, t) <= ahead)
    && (forall t :: t in s.running ==>
          s.running[t].Finish() + Rest(d, plans, t, s.running[t]) + Below(d, plans, rank, t) <= s.now + ahead)
  }

  lemma BeginIsAhead(d: Dag, plans: Plans, rank: map<Task, nat>, longest: nat)
    requires Ranked(d, rank) && forall t :: t in d.specs ==> Height(d, plans, rank, t) <= longest
    ensures Ahead(d, plans, rank, Begin(d), longest)
  {
    hide Remaining, Below, Ranked;
    forall t | t in Begin(d).ready ensures Remaining(d, plans, t, 0) + Below(d, plans, rank, t) <= longest {
      assert Height(d, plans, rank, t) <= longest;
    }
  }

  lemma StartIsAhead(d: Dag, plans: Plans, rank: map<Task, nat>, s: Sim, t: Task, o: Outcome, ahead: nat)
    requires Ranked(d, rank) && Keyed(d, s) && Ahead(d, plans, rank, s, ahead)
    requires t in s.ready && Planned(plans, t, s.counts[t] + 1) == Some(o)
    ensures Keyed(d, StartOne(s, t, o)) && Ahead(d, plans, rank, StartOne(s, t, o), ahead)
  {
    hide Below, Ranked, Planned;
    assert Remaining(d, plans, t, s.counts[t]) == o.duration + Rest(d, plans, t, Attempt(s.counts[t] + 1, o, s.now));
    hide Remaining, Rest;
  }

  /** The time ahead shrinks with the clock, unless every worker is busy. */
  lemma AdvanceIsAhead(d: Dag, plans: Plans, rank: map<Task, nat>, s: Sim, now: nat, ahead: nat)
    requires Ranked(d, rank) && Keyed(d, s) && Ahead(d, plans, rank, s, ahead) && s.now <= now
    requires s.running != map[] && forall t :: t in s.running ==> now <= s.running[t].Finish()
    ensures Ahead(d, plans, rank, s.(now := now), ahead)
    ensures s.ready == {} ==> now - s.now <= ahead && Ahead(d, plans, rank, s.(now := now), ahead - (now - s.now))
  {
    hide Remaining, Rest, Below, Ranked;
    var t :| t in s.running;
  }

  lemma FreshIsBelow(d: Dag, s: Sim, t: Task, c: Task)
    requires Placed(d, s) && InOrder(d, s) && t in d.specs && c in Fresh(d, s.(finished := s.finished + {t}))
    ensures c in Children(d, t) && s.counts[c] == 0
  {
    assert PlacedAt(s, c);
    assert !(Deps(d, c) <= s.finished);
    assert t in Deps(d, c);
  }

  lemma FreshIsAhead(d: Dag, plans: Plans, rank: map<Task, nat>, s: Sim, t: Task, c: Task, ahead: nat)
    requires Ranked(d, rank) && Placed(d, s) && InOrder(d, s) && t in d.specs && Below(d, plans, rank, t) <= ahead
    requires c in Fresh(d, s.(finished := s.finished + {t}))
    ensures s.counts[c] == 0 && Remaining(d, plans, c, 0) + Below(d, plans, rank, c) <= ahead
  {
    hide Remaining, Below, Ranked, Placed, InOrder, Fresh;
    FreshIsBelow(d, s, t, c);
    ChildIsBelow(d, plans, rank, t, c);
  }

  lemma ReadyAfterFinish(d: Dag, s: Sim, t: Task, c: Task)
    requires t in s.running && t in d.specs && c in FinishOne(d, s, t).ready
    ensures || c in s.ready
            || (c == t && Repeats(d, t, s.running[t].number, s.running[t].outcome))
            || c in Fresh(d, s.(finished := s.finished + {t}))
  {
    hide Repeats;
  }

  lemma FinishIsAhead(d: Dag, plans: Plans, rank: map<Task, nat>, s: Sim, t: Task, ahead: nat)
    requires Ranked(d, rank) && Placed(d, s) && InOrder(d, s) && Ahead(d, plans, rank, s, ahead)
    requires t in s.running && s.running[t].Finish() == s.now && s.running[t].number == s.counts[t]
    requires Keyed(d, FinishOne(d, s, t))
    ensures Ahead(d, plans, rank, FinishOne(d, s, t), ahead)
  {
    var r := FinishOne(d, s, t);
    FinishLogs(d, s, t);
    assert Below(d, plans, rank, t) <= ahead;
    hide Remaining, Below, Ranked, Placed, InOrder, Fresh, Repeats, FinishOne;
    forall c | c in r.ready ensures Remaining(d, plans, c, r.counts[c]) + Below(d, plans, rank, c) <= ahead {
      ReadyAfterFinish(d, s, t, c);
      if c in Fresh(d, s.(finished := s.finished + {t})) {
        FreshIsAhead(d, plans, rank, s, t, c, ahead);
      }
    }
  }

  // ---------- the bound ----------

  /** Time spent at full width is work done; the rest of it, but for one worker, was spent on a longest path. */
  ghost predicate Paced(d: Dag, s: Sim, ahead: nat, longest: nat) {
    d.maxParallel * s.now + (d.maxParallel - 1) * ahead
    <= Busy(s.records) + Elapsed(s.running, s.now) + (d.maxParallel - 1) * longest
  }

  lemma BeginIsPaced(d: Dag, longest: nat)
    ensures Paced(d, Begin(d), longest, longest)
  {
  }

  lemma StartIsPaced(d: Dag, s: Sim, t: Task, o: Outcome, ahead: nat, longest: nat)
    requires Paced(d, s, ahead, longest) && t in s.counts && t !in s.running
    ensures Paced(d, StartOne(s, t, o), ahead, longest)
  {
    ElapsedStart(s.running, s.now, t, Attempt(s.counts[t] + 1, o, s.now));
  }

  lemma FinishIsPaced(d: Dag, s: Sim, r: Sim, t: Task, ahead: nat, longest: nat)
    requires Paced(d, s, ahead, longest) && Logs(s, r, t)
    requires s.running[t].started <= s.now == s.running[t].Finish()
    ensures Paced(d, r, ahead, longest)
  {
    hide Elapsed;
    ElapsedSplit(s.running, s.now, t);
    assert r.records[..|s.records|] == s.records;
    assert Busy(r.records) == Busy(s.records) + (s.now - s.running[t].started);
  }

  lemma AdvanceIsPaced(d: Dag, s: Sim, now: nat, ahead: nat, longest: nat)
    requires Paced(d, s, ahead, longest) && s.now <= now && s.running != map[]
    requires forall t :: t in s.running ==> s.running[t].started <= s.now
    ensures |s.running| == d.maxParallel ==> Paced(d, s.(now := now), ahead, longest)
    ensures now - s.now <= ahead ==> Paced(d, s.(now := now), ahead - (now - s.now), longest)
  {
    hide Elapsed, Busy;
    ElapsedAdvance(s.running, s.now, now);
    var dt := now - s.now;
    assert 1 <= |s.running| by {
      var t :| t in s.running;
      assert t in s.running.Keys;
    }
    assert |s.running| * dt >= dt by {
      assert (|s.running| - 1) * dt >= 0;
    }
    assert d.maxParallel * now == d.maxParallel * s.now + d.maxParallel * dt;
    assert (d.maxParallel - 1) * (ahead - dt) == (d.maxParallel - 1) * ahead - d.maxParallel * dt + dt;
  }

  /**
   * Graham's bound: with `longest` a bound on the planned time of every dependency path, the workers' time is at most
   * the work done plus, for all workers but one, the longest path.
   */
  ghost predicate WithinGraham(d: Dag, plans: Plans, records: seq<Record>, total: nat) {
    forall longest: nat :: PathsWithin(d, plans, longest) ==>
      d.maxParallel * total <= Busy(records) + (d.maxParallel - 1) * longest
  }

  ghost predicate PathsWithin(d: Dag, plans: Plans, longest: nat) {
    forall path :: IsPath(d, path) ==> PathTime(d, plans, path) <= longest
  }

  /** The height of the tallest task. */
  lemma Tallest(d: Dag, plans: Plans, rank: map<Task, nat>) returns (longest: nat)
    requires Ranked(d, rank)
    ensures forall t :: t in d.specs ==> Height(d, plans, rank, t) <= longest
    ensures longest == 0 || exists t :: t in d.specs && Height(d, plans, rank, t) == longest
  {
    hide Height, Ranked;
    var heights := set t | t in d.specs :: Height(d, plans, rank, t);
    longest := MaxOf(heights);
    forall t | t in d.specs ensures Height(d, plans, rank, t) <= longest {
      assert Height(d, plans, rank, t) in heights;
    }
  }

  lemma EndIsWithinGraham(d: Dag, plans: Plans, rank: map<Task, nat>, s: Sim, ahead: nat, tallest: nat)
    requires ValidDag(d) && Ranked(d, rank) && Paced(d, s, ahead, tallest) && s.running == map[]
    requires tallest == 0 || exists t :: t in d.specs && Height(d, plans, rank, t) == tallest
    ensures WithinGraham(d, plans, s.records, s.now)
  {
    hide Height, Ranked, Busy, PathTime;
    forall longest: nat | PathsWithin(d, plans, longest)
      ensures d.maxParallel * s.now <= Busy(s.records) + (d.maxParallel - 1) * longest
    {
      if tallest > 0 {
        var t :| t in d.specs && Height(d, plans, rank, t) == tallest;
        var path := HeightIsAPath(d, plans, rank, t);
        assert PathTime(d, plans, path) <= longest;
      }
      Scaled(d.maxParallel - 1, tallest, longest);
      Scaled(d.maxParallel - 1, 0, ahead);
      assert Elapsed(s.running, s.now) == 0;
    }
  }

  lemma Scaled(k: nat, a: nat, b: nat)
    requires a <= b
    ensures k * a <= k * b
  {
  }
}
