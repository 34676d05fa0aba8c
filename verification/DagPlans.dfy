/** What a task's plan alone says about its result and its attempts (lab 30). */
module DagPlans {
  import opened Options
  import opened DagModel
  import opened DagRun
  import opened DagTimes
  import opened DagOrder
  import opened DagEngine

  /** Of these outcomes the first `k` are used: the `k`-th is the first that is no retry or meets the limit. */
  ghost predicate EndsAt(plan: seq<Outcome>, limit: int, k: nat) {
    && 1 <= k <= |plan|
    && (plan[k - 1].disposition != Retry || limit <= k)
    && forall i :: 0 <= i < k - 1 ==> plan[i].disposition == Retry && i + 1 < limit
  }

  /** The result of a task whose plan ends at `k`. */
  ghost predicate ResultAt(plan: seq<Outcome>, k: nat, r: NodeResult)
    requires 1 <= k <= |plan|
  {
    var last := plan[k - 1];
    && r.attempts == k
    && r.state == (if last.disposition == Success then Succeeded else Failed)
    && r.lastError == (if last.disposition == Success then None else if last.detail == "" then Some("task failed") else Some(last.detail))
  }

  /** The fate after some retries, read off the plan. */
  lemma {:induction false} FateAfter(d: Dag, plans: Plans, t: Task, k: nat)
    requires t in d.specs && t in plans
    requires k <= |plans[t]| && forall i :: 0 <= i < k ==> plans[t][i].disposition == Retry && i + 1 < d.specs[t].maxAttempts
    ensures var f, plan, limit := Fate(d, plans, t, k), plans[t], d.specs[t].maxAttempts;
            && (f == None <==> forall n :: !EndsAt(plan, limit, n))
            && (f.Some? ==> EndsAt(plan, limit, f.value.attempts) && ResultAt(plan, f.value.attempts, f.value))
    decreases PlanLength(plans, t) - k
  {
    var plan, limit := plans[t], d.specs[t].maxAttempts;
    if k >= |plan| {
      forall n: nat ensures !EndsAt(plan, limit, n) {
        if 1 <= n <= |plan| {
          assert plan[n - 1].disposition == Retry && n < limit;
        }
      }
    } else if Repeats(d, t, k + 1, plan[k]) {
      FateAfter(d, plans, t, k + 1);
    } else {
      assert EndsAt(plan, limit, k + 1);
    }
  }

  lemma EndsOnce(plan: seq<Outcome>, limit: int, j: nat, k: nat)
    requires EndsAt(plan, limit, j) && EndsAt(plan, limit, k)
    ensures j == k
  {
  }

  /**
   * A started task's result. Without a plan it succeeds at once. With one it uses outcomes up to the first that is no retry
   * or meets the limit of attempts, and succeeds if and only if that one is a success.
   */
  lemma ResultFromPlan(d: Dag, plans: Plans, results: Results, t: Task)
    requires Settled(d, plans, results) && t in d.specs && results[t].state != Skipped
    ensures t !in plans ==> results[t] == NodeResult(Succeeded, 1, None)
    ensures t in plans ==>
              && EndsAt(plans[t], d.specs[t].maxAttempts, results[t].attempts)
              && ResultAt(plans[t], results[t].attempts, results[t])
    ensures t in plans ==> forall k :: EndsAt(plans[t], d.specs[t].maxAttempts, k) ==> k == results[t].attempts
  {
    assert Fate(d, plans, t, 0) == Some(results[t]);
    if t in plans {
      FateAfter(d, plans, t, 0);
      forall k | EndsAt(plans[t], d.specs[t].maxAttempts, k) ensures k == results[t].attempts {
        EndsOnce(plans[t], d.specs[t].maxAttempts, k, results[t].attempts);
      }
    }
  }

  /** A due task that stops the run has a plan, and none of its outcomes ends it. */
  lemma ExhaustedHasNoEnd(d: Dag, plans: Plans, t: Task)
    requires t in d.specs
    ensures Fate(d, plans, t, 0) == None <==> t in plans && forall k :: !EndsAt(plans[t], d.specs[t].maxAttempts, k)
  {
    if t in plans {
      FateAfter(d, plans, t, 0);
    }
  }

  /** Every task of a plan-less run succeeds in one attempt. */
  lemma NoPlansAllSucceed(d: Dag, plans: Plans, results: Results)
    requires ValidDag(d) && Acyclic(d) && Settled(d, plans, results) && plans.Keys !! d.specs.Keys
    ensures forall t :: t in d.specs ==> results[t] == NodeResult(Succeeded, 1, None)
  {
    var rank :| Ranked(d, rank);
    forall t | t in d.specs ensures results[t] == NodeResult(Succeeded, 1, None) {
      SucceedsUnplanned(d, plans, results, rank, t);
    }
  }

  lemma {:induction false} SucceedsUnplanned(d: Dag, plans: Plans, results: Results, rank: map<Task, nat>, t: Task)
    requires ValidDag(d) && Ranked(d, rank) && Settled(d, plans, results) && plans.Keys !! d.specs.Keys && t in d.specs
    ensures results[t] == NodeResult(Succeeded, 1, None)
    decreases rank[t]
  {
    forall u | u in d.specs[t].dependsOn ensures results[u].state == Succeeded {
      SucceedsUnplanned(d, plans, results, rank, u);
    }
    assert !Blocked(d, results, t);
    assert t !in plans;
  }

  // ---------- records ----------

  lemma {:induction false} NumbersFit(records: seq<Record>, k: nat, t: Task)
    requires k <= |records|
    ensures RecordsOf(records[..k], t) <= RecordsOf(records, t)
    decreases |records|
  {
    if k == |records| {
      assert records[..k] == records;
    } else {
      NumbersFit(records[..|records| - 1], k, t);
      assert records[..|records| - 1][..k] == records[..k];
    }
  }

  /**
   * The attempts of a run, read off the plans: one successful tick for a task without a plan; otherwise the attempts of a
   * task carry the outcomes of its plan in order, and are as many as its result says.
   */
  lemma RecordsFromPlan(d: Dag, plans: Plans, run: RunResult, i: nat)
    requires SoundAttempts(d, plans, run) && Settled(d, plans, run.results) && i < |run.attempts|
    requires run.attempts[i].task in d.specs
    ensures var r := run.attempts[i];
            && r.attempt == RecordsOf(run.attempts[..i], r.task) + 1 <= run.results[r.task].attempts
            && (r.task !in plans ==> r.attempt == 1 && r.disposition == Success && r.finished == r.started + 1)
            && (r.task in plans ==>
                  && r.attempt <= |plans[r.task]| && r.disposition == plans[r.task][r.attempt - 1].disposition
                  && r.finished == r.started + plans[r.task][r.attempt - 1].duration)
  {
    hide Settled, ResultAt, EndsAt, DependenciesFirst, Overlap, RecordsOf;
    var r := run.attempts[i];
    NumbersFit(run.attempts, i + 1, r.task);
    RecordsSnoc(run.attempts[..i], r, r.task);
    assert run.attempts[..i + 1] == run.attempts[..i] + [r];
    assert AsPlanned(plans, r);
    SettledHas(d, plans, run.results, r.task);
    StartedIsNotSkipped(d, plans, run.results, r.task);
    if r.task !in plans {
      UnplannedOnce(d, plans, run.results, r.task);
    }
  }

  lemma SettledHas(d: Dag, plans: Plans, results: Results, t: Task)
    requires Settled(d, plans, results) && t in d.specs
    ensures t in results
  {
  }

  lemma StartedIsNotSkipped(d: Dag, plans: Plans, results: Results, t: Task)
    requires Settled(d, plans, results) && t in d.specs && results[t].attempts >= 1
    ensures results[t].state != Skipped
  {
    FateIsFinal(d, plans, t, 0);
  }

  lemma UnplannedOnce(d: Dag, plans: Plans, results: Results, t: Task)
    requires Settled(d, plans, results) && t in d.specs && t !in plans && results[t].state != Skipped
    ensures results[t].attempts == 1
  {
    ResultFromPlan(d, plans, results, t);
  }

  /** When every attempt took time, the reported parallelism is the most that were ever in progress at one instant. */
  lemma ParallelismIsExact(d: Dag, plans: Plans, run: RunResult)
    requires SoundAttempts(d, plans, run) && run.attempts != [] && forall i :: 0 <= i < |run.attempts| ==> TookTime(run.attempts[i])
    ensures forall time: nat :: Overlap(run.attempts, time) <= run.maxParallelSeen
    ensures exists time: nat :: Overlap(run.attempts, time) == run.maxParallelSeen
  {
    hide Overlap, Open, Numbered, DependenciesFirst, AsPlanned, InEndOrder, Fair;
    var time: nat :| run.maxParallelSeen <= Open(run.attempts, time);
    NothingTakesNoTime(run.attempts, time);
    assert Overlap(run.attempts, time) == run.maxParallelSeen;
  }
}
