/** The scheduler's other calls (lab 38): exactly when each is accepted, and all that it then changes. */
module SchedulerCalls {
  import opened Options
  import opened Scheduler
  import opened SchedulerSafety
  import opened SchedulerRuns
  import opened SchedulerLeases
  import opened SchedulerPlacement

  /** One job has moved, and the log says so; allocations aside, nothing else is touched. */
  ghost predicate Moves(s: State, r: State, job: JobId, state: JobState, error: Option<string>, event: Happening, node: Option<NodeId>) {
    && job in s.jobs
    && r == s.(log := r.log, jobs := r.jobs, allocations := r.allocations)
    && r.jobs == s.jobs[job := s.jobs[job].(state := state, lastError := error)]
    && r.log == s.log + [LogEntry(|s.log| + 1, s.term, event, job, node)]
  }

  lemma HeldJob(s: State, id: AllocationId)
    requires Inv(s) && id in s.allocations
    ensures var a := s.allocations[id];
            && a.id == id && a.job in s.jobs && s.jobs[a.job].id == a.job && IsActive(s.jobs[a.job].state)
            && forall x :: x in s.allocations && s.allocations[x].job == a.job ==> x == id
  {
    hide Apart, Attempts, QuotasKept, NodesOk, LogOk, Replays, Fills;
    assert AllocationOk(s, id);
  }

  /** Starting: the leader, for an allocation whose job has not started yet; the job then runs. */
  lemma StartExactly(s: State, id: AllocationId, caller: NodeId)
    requires Inv(s)
    ensures id in s.allocations ==> s.allocations[id].job in s.jobs
    ensures var (r, error) := Step(s, MarkRunning(id, caller));
            && (error == None <==> s.leader == Some(caller) && id in s.allocations && s.jobs[s.allocations[id].job].state == Scheduled)
            && (error == Some(NotLeader) <==> s.leader != Some(caller))
            && (error == Some(UnknownAllocation) <==> s.leader == Some(caller) && id !in s.allocations)
            && (error == Some(InvalidTransition) <==>
                  s.leader == Some(caller) && id in s.allocations && s.jobs[s.allocations[id].job].state == Running)
            && (error != None ==> r == s)
            && (error == None ==>
                  var a := s.allocations[id];
                  Moves(s, r, a.job, Running, None, Started, Some(a.node)) && r.allocations == s.allocations)
  {
    hide Inv;
    if id in s.allocations {
      HeldJob(s, id);
    }
  }

  /** Completing: the leader, for any allocation; its job ends as told and the allocation is given up. */
  lemma CompleteExactly(s: State, id: AllocationId, caller: NodeId, succeeded: bool, why: Option<string>)
    requires Inv(s)
    ensures var (r, error) := Step(s, Complete(id, caller, succeeded, why));
            && (error == None <==> s.leader == Some(caller) && id in s.allocations)
            && (error == Some(NotLeader) <==> s.leader != Some(caller))
            && (error == Some(UnknownAllocation) <==> s.leader == Some(caller) && id !in s.allocations)
            && (error != None ==> r == s)
            && (error == None ==>
                  var a := s.allocations[id];
                  && Moves(s, r, a.job, if succeeded then Succeeded else Failed, why, if succeeded then Succeeds else Fails, Some(a.node))
                  && r.allocations == s.allocations - {id})
  {
    hide Inv;
    if id in s.allocations {
      HeldJob(s, id);
    }
  }

  /** Cancelling: the leader, for a job that has not ended; whatever it holds is given up. */
  lemma CancelExactly(s: State, id: JobId, caller: NodeId)
    requires Inv(s)
    ensures var (r, error) := Step(s, Cancel(id, caller));
            var unended := id in s.jobs && (s.jobs[id].state == Queued || s.jobs[id].state == Scheduled || s.jobs[id].state == Running);
            && (error == None <==> s.leader == Some(caller) && unended)
            && (error == Some(NotLeader) <==> s.leader != Some(caller))
            && (error == Some(UnknownJob) <==> s.leader == Some(caller) && id !in s.jobs)
            && (error == Some(InvalidTransition) <==> s.leader == Some(caller) && id in s.jobs && !unended)
            && (error != None ==> r == s)
            && (error == None ==>
                  && (forall k :: k in r.allocations <==> k in s.allocations && s.allocations[k].job != id)
                  && (forall k :: k in r.allocations ==> r.allocations[k] == s.allocations[k])
                  && exists node :: HeldOnly(s, id, node) && Moves(s, r, id, Cancelled, None, Cancels, node))
  {
    hide Inv, HeldOnly, Moves;
    if s.leader == Some(caller) && id in s.jobs {
      JobIsItself(s, id);
      OwnedOrNot(s, id);
      var a := AllocationOf(s, id);
      var node := if a.Some? then Some(a.value.node) else None;
      if a.Some? {
        HeldJob(s, a.value.id);
      }
      HeldOnlyIntro(s, id, a);
      CancelMoves(s, id, caller, a, node);
    }
  }

  /** The node on which the job holds an allocation, if it holds one. */
  ghost predicate HeldOnly(s: State, job: JobId, node: Option<NodeId>) {
    match node
    case Some(n) => exists k :: Owns(s, k, job) && s.allocations[k].node == n
    case None => forall k :: !Owns(s, k, job)
  }

  lemma HeldOnlyIntro(s: State, id: JobId, a: Option<Allocation>)
    requires match a
             case Some(x) => x.id in s.allocations && s.allocations[x.id] == x && x.job == id
             case None => forall k :: k in s.allocations ==> s.allocations[k].job != id
    ensures HeldOnly(s, id, if a.Some? then Some(a.value.node) else None)
  {
    if a.Some? {
      assert Owns(s, a.value.id, id);
    }
  }

  lemma CancelMoves(s: State, id: JobId, caller: NodeId, a: Option<Allocation>, node: Option<NodeId>)
    requires s.leader == Some(caller) && id in s.jobs && s.jobs[id].id == id && a == AllocationOf(s, id)
    requires node == if a.Some? then Some(a.value.node) else None
    requires a.Some? ==> a.value.job == id
    ensures (s.jobs[id].state == Queued || IsActive(s.jobs[id].state)) ==>
              var r := Step(s, Cancel(id, caller)).0;
              && Moves(s, r, id, Cancelled, None, Cancels, node)
              && r.allocations == if a.Some? then s.allocations - {a.value.id} else s.allocations
  {
  }

  /** CPUs, memory, GPUs and labels of the whole node would do, were it empty. */
  ghost predicate CouldServe(r: Request, n: Inventory) {
    && r.labels <= n.labels && r.memory <= n.memory
    && |set cpu | cpu in n.cpus + r.affinity && MayUseCpu(r, n, cpu)| >= r.cpuCores
    && |set i | 0 <= i < |n.gpus| && MayUseGpu(r, n.gpus[i])| >= r.gpuCount
  }

  lemma UsableCpus(r: Request, n: Inventory)
    ensures (set cpu | cpu in n.cpus + r.affinity && MayUseCpu(r, n, cpu)) == EligibleCpus(r, n)
  {
  }

  lemma UsableGpus(r: Request, n: Inventory)
    ensures |set i | 0 <= i < |n.gpus| && MayUseGpu(r, n.gpus[i])| == |EligibleGpus(r, n)|
  {
    FilterCounts(n.gpus, Matching(r));
    assert (set i | 0 <= i < |n.gpus| && MayUseGpu(r, n.gpus[i])) == Places(n.gpus, Matching(r));
  }

  lemma CouldServeTest(r: Request, n: Inventory)
    ensures StaticallyFits(r, n) <==> CouldServe(r, n)
  {
    UsableCpus(r, n);
    UsableGpus(r, n);
    hide MayUseCpu, MayUseGpu, EligibleCpus, EligibleGpus;
  }

  /** Submitting: a well-formed new job that some known node could serve, or with no node known yet; it waits, submitted last. */
  lemma SubmitExactly(s: State, job: JobId, project: string, request: Request, priority: int, maxAttempts: int, wellFormed: bool)
    ensures var (r, error) := Step(s, Submit(job, project, request, priority, maxAttempts, wellFormed));
            var valid := wellFormed && 0 <= priority <= 100 && 1 <= maxAttempts && job !in s.jobs;
            var servable := s.nodes == map[] || exists n :: n in s.nodes && CouldServe(request, s.nodes[n]);
            && (error == None <==> valid && servable)
            && (error == Some(InvalidSubmission) <==> !valid)
            && (error == Some(Unschedulable) <==> valid && !servable)
            && (error != None ==> r == s)
            && (error == None ==>
                  && r == s.(log := r.log, jobs := r.jobs, sequence := s.sequence + 1)
                  && r.jobs == s.jobs[job := Job(job, project, request, priority, s.sequence + 1, maxAttempts, 0, Queued, None)]
                  && r.log == s.log + [LogEntry(|s.log| + 1, s.term, Submitted, job, None)])
  {
    forall n | n in s.nodes ensures StaticallyFits(request, s.nodes[n]) <==> CouldServe(request, s.nodes[n]) {
      CouldServeTest(request, s.nodes[n]);
    }
    hide StaticallyFits, CouldServe;
  }

  /** Leadership passes on with a higher term only, and an inventory is replaced by one that is no older. */
  lemma TakeOverExactly(s: State, node: NodeId, term: int, n: Inventory)
    ensures var (r, error) := Step(s, BecomeLeader(node, term));
            if term > s.term then error == None && r == s.(leader := Some(node), term := term) else error == Some(StaleTerm) && r == s
    ensures var (r, error) := Step(s, Heartbeat(n));
            if n.id in s.nodes && n.heartbeatAt < s.nodes[n.id].heartbeatAt then error == Some(StaleHeartbeat) && r == s
            else error == None && r == s.(nodes := s.nodes[n.id := n])
  {
  }

  // ---------- over whole runs ----------

  /** Jobs are numbered in order of submission, each number once. */
  ghost predicate InSubmissionOrder(s: State) {
    && (forall j :: j in s.jobs ==> 1 <= s.jobs[j].sequence <= s.sequence)
    && forall j, k :: j in s.jobs && k in s.jobs && s.jobs[j].sequence == s.jobs[k].sequence ==> j == k
  }

  /** Every job keeps its number; the term, the submission count and each node's heartbeat never fall. */
  ghost predicate GoesOn(s: State, r: State) {
    && s.term <= r.term && s.sequence <= r.sequence && s.log <= r.log
    && (forall n :: n in s.nodes ==> n in r.nodes && s.nodes[n].heartbeatAt <= r.nodes[n].heartbeatAt)
    && (forall j :: j in s.jobs ==> j in r.jobs && Same(s.jobs[j], r.jobs[j]))
    && forall j :: j in r.jobs && j !in s.jobs ==> r.jobs[j].sequence > s.sequence
  }

  /** What a submission fixed for good. */
  ghost predicate Same(j: Job, k: Job) {
    && k.id == j.id && k.project == j.project && k.request == j.request && k.priority == j.priority
    && k.sequence == j.sequence && k.maxAttempts == j.maxAttempts && j.attempts <= k.attempts
  }

  lemma RecoveredGoesOn(s: State, r: State, now: int)
    requires Recovered(s, r, now) && LoggedAmong(s, r, s.allocations.Keys, now) && InSubmissionOrder(s)
    ensures GoesOn(s, r) && InSubmissionOrder(r)
  {
    hide Owns;
  }

  lemma PassedGoesOn(s: State, r: State, queue: set<JobId>, now: int, lease: int)
    requires Passed(s, r, queue, now, lease) && InSubmissionOrder(s)
    ensures GoesOn(s, r) && InSubmissionOrder(r)
  {
    hide Served, Added;
  }

  lemma MovesGoOn(s: State, r: State, job: JobId, state: JobState, error: Option<string>, event: Happening, node: Option<NodeId>)
    requires Moves(s, r, job, state, error, event, node) && InSubmissionOrder(s)
    ensures GoesOn(s, r) && InSubmissionOrder(r)
  {
  }

  lemma GoesOnFurther(s: State, t: State, r: State)
    requires GoesOn(s, t) && GoesOn(t, r)
    ensures GoesOn(s, r)
  {
    hide Same;
    forall j | j in s.jobs ensures j in r.jobs && Same(s.jobs[j], r.jobs[j]) {
      StaySame(s.jobs[j], t.jobs[j], r.jobs[j]);
    }
    forall j | j in r.jobs && j !in s.jobs ensures r.jobs[j].sequence > s.sequence {
      if j in t.jobs {
        SameNumber(t.jobs[j], r.jobs[j]);
      }
    }
  }

  lemma StaySame(j: Job, k: Job, l: Job)
    requires Same(j, k) && Same(k, l)
    ensures Same(j, l)
  {
  }

  lemma SameNumber(j: Job, k: Job)
    requires Same(j, k)
    ensures k.sequence == j.sequence
  {
  }

  lemma Itself(s: State)
    ensures GoesOn(s, s)
  {
  }

  lemma SubmitGoesOn(s: State, job: JobId, project: string, request: Request, priority: int, maxAttempts: int, wellFormed: bool)
    requires InSubmissionOrder(s)
    ensures var r := Step(s, Submit(job, project, request, priority, maxAttempts, wellFormed)).0; GoesOn(s, r) && InSubmissionOrder(r)
  {
    hide *;
    SubmitExactly(s, job, project, request, priority, maxAttempts, wellFormed);
    Itself(s);
    var (r, error) := Step(s, Submit(job, project, request, priority, maxAttempts, wellFormed));
    if error == None {
      NewJobGoesOn(s, r, job, Job(job, project, request, priority, s.sequence + 1, maxAttempts, 0, Queued, None));
    }
  }

  lemma NewJobGoesOn(s: State, r: State, job: JobId, j: Job)
    requires InSubmissionOrder(s) && job !in s.jobs && j.sequence == s.sequence + 1 && s.log <= r.log
    requires r == s.(log := r.log, jobs := s.jobs[job := j], sequence := s.sequence + 1)
    ensures GoesOn(s, r) && InSubmissionOrder(r)
  {
  }

  /** No call takes anything back that is meant to stay. */
  lemma StepGoesOn(s: State, c: Call)
    requires Inv(s) && Fits(s, c) && InSubmissionOrder(s)
    ensures GoesOn(s, Step(s, c).0) && InSubmissionOrder(Step(s, c).0)
  {
    hide *;
    Itself(s);
    match c {
      case BecomeLeader(node, term) => LeaderGoesOn(s, node, term);
      case Heartbeat(n) => HeartbeatGoesOn(s, n);
      case Submit(job, project, request, priority, maxAttempts, wellFormed) =>
        SubmitGoesOn(s, job, project, request, priority, maxAttempts, wellFormed);
      case Schedule(caller, now, lease, expiry, queue) =>
        var t := ScheduleExactly(s, caller, now, lease, expiry, queue);
        if s.leader == Some(caller) && lease >= 1 {
          RecoveredGoesOn(s, t, now);
          PassedGoesOn(t, Step(s, c).0, Waiting(t), now, lease);
          GoesOnFurther(s, t, Step(s, c).0);
        }
      case MarkRunning(id, caller) =>
        StartExactly(s, id, caller);
        if Step(s, c).1 == None {
          MovesGoOn(s, Step(s, c).0, s.allocations[id].job, Running, None, Started, Some(s.allocations[id].node));
        }
      case Complete(id, caller, succeeded, why) =>
        CompleteExactly(s, id, caller, succeeded, why);
        if Step(s, c).1 == None {
          MovesGoOn(s, Step(s, c).0, s.allocations[id].job, if succeeded then Succeeded else Failed, why,
                    if succeeded then Succeeds else Fails, Some(s.allocations[id].node));
        }
      case Cancel(id, caller) =>
        CancelExactly(s, id, caller);
        if Step(s, c).1 == None {
          var node :| HeldOnly(s, id, node) && Moves(s, Step(s, c).0, id, Cancelled, None, Cancels, node);
          MovesGoOn(s, Step(s, c).0, id, Cancelled, None, Cancels, node);
        }
      case RecoverExpired(caller, now, expiry) =>
        RecoverExpiredExactly(s, caller, now, expiry);
        if s.leader == Some(caller) {
          RecoveredGoesOn(s, Step(s, c).0, now);
        }
    }
  }

  lemma LeaderGoesOn(s: State, node: NodeId, term: int)
    requires InSubmissionOrder(s)
    ensures var r := Step(s, BecomeLeader(node, term)).0; GoesOn(s, r) && InSubmissionOrder(r)
  {
  }

  lemma HeartbeatGoesOn(s: State, n: Inventory)
    requires InSubmissionOrder(s)
    ensures var r := Step(s, Heartbeat(n)).0; GoesOn(s, r) && InSubmissionOrder(r)
  {
  }

  /**
   * Over any run jobs stay numbered in order of submission and keep what they were submitted with; terms, heartbeats and the
   * log only go forward.
   */
  lemma {:induction false} RunGoesOn(calls: seq<Call>, states: seq<State>, i: nat, j: nat)
    requires Run(calls, states) && i <= j < |states|
    ensures GoesOn(states[i], states[j]) && InSubmissionOrder(states[j])
    decreases j
  {
    hide Inv, Step, Fits, GoesOn, InSubmissionOrder;
    if j == 0 {
      FreshOrder(states[0]);
      Itself(states[0]);
    } else {
      RunGoesOn(calls, states, if i < j then i else j - 1, j - 1);
      RunKeepsInv(calls, states, j - 1);
      StepOf(calls, states, j - 1);
      StepGoesOn(states[j - 1], calls[j - 1]);
      if i < j {
        GoesOnFurther(states[i], states[j - 1], states[j]);
      } else {
        Itself(states[j]);
      }
    }
  }

  lemma FreshOrder(s: State)
    requires Fresh(s)
    ensures InSubmissionOrder(s)
  {
  }
}
