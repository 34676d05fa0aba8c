/** What every run of the resource scheduler keeps (lab 38). */
module SchedulerSafety {
  import opened Options
  import opened Sequences
  import opened Sums
  import opened Scheduler

  // ---------- the invariant ----------

  /** An allocation holds exactly what its job asked for. */
  ghost predicate Fills(a: Allocation, r: Request) {
    |a.cpus| == r.cpuCores && a.memory == r.memory >= 1 && |a.gpus| == r.gpuCount && Distinct(a.gpus)
  }

  ghost predicate AllocationOk(s: State, id: AllocationId)
    requires id in s.allocations
  {
    var a := s.allocations[id];
    && a.id == id <= |s.log| && a.node in s.nodes
    && a.job in s.jobs && IsActive(s.jobs[a.job].state) && a.project == s.jobs[a.job].project
    && Fills(a, s.jobs[a.job].request)
  }

  ghost predicate Owns(s: State, id: AllocationId, job: JobId) {
    id in s.allocations && s.allocations[id].job == job
  }

  /** A job is scheduled or running exactly when it owns an allocation, and then exactly one. */
  ghost predicate Linked(s: State) {
    && (forall id :: id in s.allocations ==> AllocationOk(s, id))
    && (forall a, b :: a in s.allocations && b in s.allocations && s.allocations[a].job == s.allocations[b].job ==> a == b)
    && (forall j :: j in s.jobs ==> s.jobs[j].id == j)
    && forall j :: j in s.jobs && IsActive(s.jobs[j].state) ==> exists id :: Owns(s, id, j)
  }

  ghost predicate Disjoint(a: Allocation, b: Allocation) {
    a.cpus !! b.cpus && forall g :: g in a.gpus ==> g !in b.gpus
  }

  /** Allocations on one node share no CPU and no GPU. */
  ghost predicate Apart(s: State) {
    forall a, b :: a in s.allocations && b in s.allocations && a != b && s.allocations[a].node == s.allocations[b].node ==>
      Disjoint(s.allocations[a], s.allocations[b])
  }

  ghost predicate AttemptsOk(j: Job) {
    && 1 <= j.maxAttempts && j.attempts <= j.maxAttempts && ValidRequest(j.request)
    && (j.state == Queued ==> j.attempts < j.maxAttempts)
  }

  ghost predicate Attempts(s: State) {
    forall j :: j in s.jobs ==> AttemptsOk(s.jobs[j])
  }

  ghost predicate QuotasKept(s: State) {
    forall p, what :: p in s.quotas ==> Usage(s, p, what) <= Limit(s.quotas[p], what)
  }

  ghost predicate NodesOk(s: State) {
    forall n :: n in s.nodes ==> s.nodes[n].id == n && ValidInventory(s.nodes[n])
  }

  // ---------- the log ----------

  datatype Progress = Unknown | Known(state: JobState, attempts: nat)

  /** What one event means for its job, given how many attempts the job is allowed. */
  function Advance(p: Progress, event: Happening, maxAttempts: int): Progress {
    match event
    case Submitted => Known(Queued, 0)
    case Reserved => if p.Known? then Known(Scheduled, p.attempts + 1) else p
    case Started => if p.Known? then p.(state := Running) else p
    case Succeeds => if p.Known? then p.(state := Succeeded) else p
    case Fails => if p.Known? then p.(state := Failed) else p
    case Cancels => if p.Known? then p.(state := Cancelled) else p
    case LeaseExpired => if p.Known? then p.(state := if p.attempts < maxAttempts then Queued else Failed) else p
  }

  /** A job's state and attempts, read off the log alone. */
  function Replay(log: seq<LogEntry>, job: JobId, maxAttempts: int): Progress {
    if log == [] then Unknown
    else
      var last, before := log[|log| - 1], Replay(log[..|log| - 1], job, maxAttempts);
      if last.job == job then Advance(before, last.event, maxAttempts) else before
  }

  ghost predicate LogOk(s: State) {
    && (forall i :: 0 <= i < |s.log| ==> s.log[i].revision == i + 1 && s.log[i].leaderTerm <= s.term)
    && (forall i, j :: 0 <= i <= j < |s.log| ==> s.log[i].leaderTerm <= s.log[j].leaderTerm)
  }

  ghost predicate Replays(s: State) {
    && (forall j :: j in s.jobs ==> Replay(s.log, j, s.jobs[j].maxAttempts) == Known(s.jobs[j].state, s.jobs[j].attempts))
    && forall i :: 0 <= i < |s.log| ==> s.log[i].job in s.jobs
  }

  ghost predicate Inv(s: State) {
    Linked(s) && Apart(s) && Attempts(s) && QuotasKept(s) && NodesOk(s) && LogOk(s) && Replays(s)
  }

  // ---------- the log is kept ----------

  /** One more event of a job, whose new state and attempts are what the event means. */
  lemma LogStep(s: State, r: State, event: Happening, job: JobId, node: Option<NodeId>)
    requires LogOk(s) && Replays(s)
    requires r.log == Log(s, event, job, node).log && r.term == s.term
    requires job in r.jobs && r.jobs.Keys == s.jobs.Keys + {job}
    requires forall k :: k in s.jobs && k != job ==> r.jobs[k] == s.jobs[k]
    requires Known(r.jobs[job].state, r.jobs[job].attempts)
             == Advance(if job in s.jobs then Known(s.jobs[job].state, s.jobs[job].attempts) else Unknown, event, r.jobs[job].maxAttempts)
    requires job in s.jobs ==> r.jobs[job].maxAttempts == s.jobs[job].maxAttempts
    ensures LogOk(r) && Replays(r)
  {
    hide Replay, Advance;
    if job !in s.jobs {
      NothingLogged(s.log, job, r.jobs[job].maxAttempts);
    }
    var entry := LogEntry(|s.log| + 1, s.term, event, job, node);
    assert r.log == s.log + [entry];
    hide LogOk, Log;
    LogOkSnoc(s, r, entry);
    forall k | k in r.jobs ensures Replay(r.log, k, r.jobs[k].maxAttempts) == Known(r.jobs[k].state, r.jobs[k].attempts) {
      ReplaySnoc(s.log, entry, k, r.jobs[k].maxAttempts);
    }
  }

  lemma LogOkSnoc(s: State, r: State, entry: LogEntry)
    requires LogOk(s) && r.log == s.log + [entry] && r.term == s.term && entry.revision == |s.log| + 1 && entry.leaderTerm == s.term
    ensures LogOk(r)
  {
  }

  lemma ReplaySnoc(log: seq<LogEntry>, entry: LogEntry, job: JobId, maxAttempts: int)
    ensures Replay(log + [entry], job, maxAttempts)
            == if entry.job == job then Advance(Replay(log, job, maxAttempts), entry.event, maxAttempts) else Replay(log, job, maxAttempts)
  {
    assert (log + [entry])[..|log|] == log;
  }

  lemma {:induction false} NothingLogged(log: seq<LogEntry>, job: JobId, maxAttempts: int)
    requires forall i :: 0 <= i < |log| ==> log[i].job != job
    ensures Replay(log, job, maxAttempts) == Unknown
  {
    if log != [] {
      NothingLogged(log[..|log| - 1], job, maxAttempts);
    }
  }

  // ---------- jobs and allocations stay linked ----------

  /** A job that owns no allocation moves to a state that needs none. */
  lemma IdleStep(s: State, r: State, j: Job)
    requires Linked(s) && Apart(s) && Attempts(s) && r.allocations == s.allocations && |r.log| >= |s.log| && r.nodes == s.nodes
    requires r.jobs == s.jobs[j.id := j] && !IsActive(j.state) && AttemptsOk(j)
    requires forall id :: !Owns(s, id, j.id)
    ensures Linked(r) && Apart(r) && Attempts(r)
  {
    forall id | id in r.allocations ensures AllocationOk(r, id) {
      assert AllocationOk(s, id) && !Owns(s, id, j.id);
    }
    forall k | k in r.jobs && IsActive(r.jobs[k].state) ensures exists id :: Owns(r, id, k) {
      var id :| Owns(s, id, k);
      assert Owns(r, id, k);
    }
  }

  /** An active job stays active. */
  lemma BusyStep(s: State, r: State, j: Job)
    requires Linked(s) && Apart(s) && Attempts(s) && r.allocations == s.allocations && |r.log| >= |s.log| && r.nodes == s.nodes
    requires j.id in s.jobs && IsActive(s.jobs[j.id].state) && IsActive(j.state)
    requires r.jobs == s.jobs[j.id := j] && j.project == s.jobs[j.id].project && j.request == s.jobs[j.id].request && AttemptsOk(j)
    ensures Linked(r) && Apart(r) && Attempts(r)
  {
    forall id | id in r.allocations ensures AllocationOk(r, id) {
      assert AllocationOk(s, id);
    }
    forall k | k in r.jobs && IsActive(r.jobs[k].state) ensures exists id :: Owns(r, id, k) {
      var id :| Owns(s, id, k);
      assert Owns(r, id, k);
    }
  }

  /** An active job gives up its allocation. */
  lemma ReleaseStep(s: State, r: State, id: AllocationId, j: Job)
    requires Linked(s) && Apart(s) && Attempts(s) && id in s.allocations && |r.log| >= |s.log| && r.nodes == s.nodes
    requires j.id == s.allocations[id].job && r.allocations == s.allocations - {id}
    requires r.jobs == s.jobs[j.id := j] && !IsActive(j.state) && AttemptsOk(j)
    ensures Linked(r) && Apart(r) && Attempts(r)
  {
    assert AllocationOk(s, id);
    forall other | other in r.allocations ensures AllocationOk(r, other) {
      assert AllocationOk(s, other) && s.allocations[other].job != j.id;
    }
    forall k | k in r.jobs && IsActive(r.jobs[k].state) ensures exists other :: Owns(r, other, k) {
      var other :| Owns(s, other, k);
      assert Owns(r, other, k);
    }
  }

  // ---------- sums ----------

  lemma TakenFalls(allocations: Allocations, id: AllocationId, project: string, what: Resource)
    requires id in allocations
    ensures Total(Taken(allocations - {id}, project, what))
            == Total(Taken(allocations, project, what)) - (if allocations[id].project == project then Amount(allocations[id], what) else 0)
  {
    hide Total, Amount;
    var before, after := Taken(allocations, project, what), Taken(allocations - {id}, project, what);
    if allocations[id].project == project {
      TotalSplit(before, id);
      assert before - {id} == after;
    } else {
      assert before == after;
    }
  }

  lemma TakenRises(allocations: Allocations, a: Allocation, project: string, what: Resource)
    requires a.id !in allocations
    ensures Total(Taken(allocations[a.id := a], project, what))
            == Total(Taken(allocations, project, what)) + (if a.project == project then Amount(a, what) else 0)
  {
    TakenFalls(allocations[a.id := a], a.id, project, what);
    assert allocations[a.id := a] - {a.id} == allocations;
  }

  lemma HeldFalls(allocations: Allocations, id: AllocationId, n: NodeId)
    requires id in allocations
    ensures Total(HeldOn(allocations - {id}, n))
            == Total(HeldOn(allocations, n)) - (if allocations[id].node == n then Natural(allocations[id].memory) else 0)
  {
    hide Total, Natural;
    var before, after := HeldOn(allocations, n), HeldOn(allocations - {id}, n);
    if allocations[id].node == n {
      TotalSplit(before, id);
      assert before - {id} == after;
    } else {
      assert before == after;
    }
  }

  lemma HeldRises(allocations: Allocations, a: Allocation, n: NodeId)
    requires a.id !in allocations
    ensures Total(HeldOn(allocations[a.id := a], n))
            == Total(HeldOn(allocations, n)) + (if a.node == n then Natural(a.memory) else 0)
  {
    HeldFalls(allocations[a.id := a], a.id, n);
    assert allocations[a.id := a] - {a.id} == allocations;
  }

  lemma QuotasAfterRelease(s: State, r: State, id: AllocationId)
    requires QuotasKept(s) && id in s.allocations && r.allocations == s.allocations - {id} && r.quotas == s.quotas
    ensures QuotasKept(r)
  {
    hide Total, Taken, Limit, Amount;
    forall p, what | p in r.quotas ensures Usage(r, p, what) <= Limit(r.quotas[p], what) {
      TakenFalls(s.allocations, id, p, what);
    }
  }

  /** An allocation that holds what its job asked for takes what the quota check reckoned with. */
  lemma QuotasAfterReserve(s: State, r: State, a: Allocation, j: Job)
    requires QuotasKept(s) && WithinQuota(s, j) && Fills(a, j.request) && a.project == j.project
    requires a.id !in s.allocations && r.allocations == s.allocations[a.id := a] && r.quotas == s.quotas
    ensures QuotasKept(r)
  {
    forall what ensures Amount(a, what) == Asked(j.request, what) {
    }
    hide Total, Taken, Limit, Amount, Asked, Fills;
    forall p, what | p in r.quotas ensures Usage(r, p, what) <= Limit(r.quotas[p], what) {
      TakenRises(s.allocations, a, p, what);
    }
  }

  // ---------- a reservation ----------

  lemma {:induction false} DistinctIds(gpus: seq<Gpu>, all: seq<Gpu>)
    requires Distinct(gpus) && forall g :: g in gpus ==> g in all
    requires forall i, j :: 0 <= i < j < |all| ==> all[i].id != all[j].id
    ensures forall i, j :: 0 <= i < j < |gpus| ==> gpus[i].id != gpus[j].id
  {
    forall i, j | 0 <= i < j < |gpus| ensures gpus[i].id != gpus[j].id {
      assert gpus[i] in all && gpus[j] in all;
      var a :| 0 <= a < |all| && all[a] == gpus[i];
      var b :| 0 <= b < |all| && all[b] == gpus[j];
      assert a != b;
    }
  }

  /** The free GPUs are the node's own, eligible and unused, each once. */
  lemma FreeGpusAreFree(s: State, r: Request, n: Inventory)
    requires ValidInventory(n)
    ensures forall g :: g in FreeGpus(s, r, n) ==> g in n.gpus && GpuMatches(r, g) && g.id !in UsedGpus(s, n.id)
    ensures forall i, j :: 0 <= i < j < |FreeGpus(s, r, n)| ==> FreeGpus(s, r, n)[i].id != FreeGpus(s, r, n)[j].id
  {
    var eligible, free := EligibleGpus(r, n), FreeGpus(s, r, n);
    FilterMembers(n.gpus, Matching(r));
    FilterMembers(eligible, NotIn(UsedGpus(s, n.id)));
    assert Distinct(n.gpus);
    FilterDistinct(n.gpus, Matching(r));
    FilterDistinct(eligible, NotIn(UsedGpus(s, n.id)));
    DistinctIds(free, n.gpus);
  }

  /** A reservation holds exactly what was asked for, all of it free on the node before. */
  lemma NewAllocationFills(s: State, j: Job, n: Inventory, now: int, lease: int)
    requires ValidRequest(j.request) && ValidInventory(n) && AvailableFit(s, j.request, n)
    ensures var a := NewAllocation(s, j, n, now, lease);
            && Fills(a, j.request)
            && a.cpus <= FreeCpus(s, j.request, n)
            && forall g :: g in a.gpus ==> g !in UsedGpus(s, n.id) && exists d :: d in n.gpus && d.id == g && GpuMatches(j.request, d)
  {
    hide FreeGpus, FreeCpus, UsedGpus, GpuMatches, StaticallyFits, UsedMemory, ValidInventory;
    FreeGpusAreFree(s, j.request, n);
    var free := FreeGpus(s, j.request, n);
    var a := NewAllocation(s, j, n, now, lease);
    assert forall i :: 0 <= i < |a.gpus| ==> a.gpus[i] == free[i].id;
    forall g | g in a.gpus ensures g !in UsedGpus(s, n.id) && exists d :: d in n.gpus && d.id == g && GpuMatches(j.request, d) {
      var i :| 0 <= i < |a.gpus| && a.gpus[i] == g;
      assert free[i] in free;
    }
  }

  lemma InUse(s: State, id: AllocationId)
    requires id in s.allocations
    ensures s.allocations[id].cpus <= UsedCpus(s, s.allocations[id].node)
    ensures forall g :: g in s.allocations[id].gpus ==> g in UsedGpus(s, s.allocations[id].node)
  {
    var a := s.allocations[id];
    forall cpu | cpu in a.cpus ensures cpu in UsedCpus(s, a.node) {
      assert id in s.allocations && s.allocations[id].node == a.node && cpu in s.allocations[id].cpus;
    }
    forall g | g in a.gpus ensures g in UsedGpus(s, a.node) {
      assert id in s.allocations && s.allocations[id].node == a.node && g in s.allocations[id].gpus;
    }
  }

  lemma ReserveStaysApart(s: State, r: State, a: Allocation)
    requires Apart(s) && a.id !in s.allocations && r.allocations == s.allocations[a.id := a]
    requires a.cpus !! UsedCpus(s, a.node) && forall g :: g in a.gpus ==> g !in UsedGpus(s, a.node)
    ensures Apart(r)
  {
    hide UsedCpus, UsedGpus;
    forall b | b in s.allocations && s.allocations[b].node == a.node ensures Disjoint(a, s.allocations[b]) && Disjoint(s.allocations[b], a) {
      InUse(s, b);
    }
  }

  lemma ReserveStaysLinked(s: State, r: State, a: Allocation, j: Job)
    requires Linked(s) && Attempts(s) && a.id == |s.log| + 1 == |r.log| && r.allocations == s.allocations[a.id := a]
    requires j.id in s.jobs && s.jobs[j.id] == j && j.state == Queued
    requires r.jobs == s.jobs[j.id := j.(state := Scheduled, attempts := j.attempts + 1, lastError := None)]
    requires a.job == j.id && a.project == j.project && Fills(a, j.request) && a.node in s.nodes && r.nodes == s.nodes
    ensures Linked(r) && Attempts(r) && a.id !in s.allocations
  {
    hide Fills;
    forall id | id in s.allocations ensures AllocationOk(r, id) && s.allocations[id].job != j.id && id != a.id {
      assert AllocationOk(s, id);
    }
    assert AllocationOk(r, a.id);
    ReserveAttempts(s, r, j);
    hide AllocationOk, Attempts;
    forall k | k in r.jobs && IsActive(r.jobs[k].state) ensures exists id :: Owns(r, id, k) {
      if k == j.id {
        assert Owns(r, a.id, k);
      } else {
        var id :| Owns(s, id, k);
        assert Owns(r, id, k);
      }
    }
  }

  lemma ReserveAttempts(s: State, r: State, j: Job)
    requires Attempts(s) && j.id in s.jobs && s.jobs[j.id] == j && j.state == Queued
    requires r.jobs == s.jobs[j.id := j.(state := Scheduled, attempts := j.attempts + 1, lastError := None)]
    ensures Attempts(r)
  {
    assert AttemptsOk(j);
  }

  lemma ReserveKeepsInv(s: State, j: Job, n: Inventory, now: int, lease: int)
    requires Inv(s) && j.id in s.jobs && s.jobs[j.id] == j && j.state == Queued && WithinQuota(s, j)
    requires n.id in s.nodes && s.nodes[n.id] == n && AvailableFit(s, j.request, n)
    ensures Inv(Reserve(s, j, n, now, lease))
  {
    var r, a := Reserve(s, j, n, now, lease), NewAllocation(s, j, n, now, lease);
    hide *;
    JobIsItself(s, j.id);
    NodeIsItself(s, n.id);
    RequestIsValid(j);
    FreeIsUnused(s, j.request, n);
    NewAllocationFills(s, j, n, now, lease);
    ReserveParts(s, j, n, now, lease);
    ReserveStaysLinked(s, r, a, j);
    ReserveStaysApart(s, r, a);
    QuotasAfterReserve(s, r, a, j);
    LogStep(s, r, Reserved, j.id, Some(n.id));
    InvIntro(r);
  }

  lemma RequestIsValid(j: Job)
    requires AttemptsOk(j)
    ensures ValidRequest(j.request)
  {
  }

  lemma FreeIsUnused(s: State, r: Request, n: Inventory)
    ensures FreeCpus(s, r, n) !! UsedCpus(s, n.id)
  {
  }

  lemma ReserveParts(s: State, j: Job, n: Inventory, now: int, lease: int)
    requires Inv(s) && j.id in s.jobs && s.jobs[j.id] == j && j.state == Queued
    ensures Linked(s) && Apart(s) && Attempts(s) && QuotasKept(s) && LogOk(s) && Replays(s)
    ensures var r, a := Reserve(s, j, n, now, lease), NewAllocation(s, j, n, now, lease);
            && a.id == |s.log| + 1 == |r.log| && a.job == j.id && a.project == j.project && a.node == n.id
            && r.allocations == s.allocations[a.id := a] && r.quotas == s.quotas && NodesOk(r) && r.nodes == s.nodes
            && r.jobs == s.jobs[j.id := j.(state := Scheduled, attempts := j.attempts + 1, lastError := None)]
            && r.log == Log(s, Reserved, j.id, Some(n.id)).log && r.term == s.term
            && Known(Scheduled, j.attempts + 1) == Advance(Known(j.state, j.attempts), Reserved, j.maxAttempts)
  {
    hide Linked, Apart, Attempts, QuotasKept, LogOk, Replays, Smallest, FreeCpus, FreeGpus, FirstGpus, ValidInventory;
  }

  lemma InvIntro(s: State)
    requires Linked(s) && Apart(s) && Attempts(s) && QuotasKept(s) && NodesOk(s) && LogOk(s) && Replays(s)
    ensures Inv(s)
  {
  }

  // ---------- a release ----------

  lemma OwnedJob(s: State, id: AllocationId)
    requires Inv(s) && id in s.allocations
    ensures var a := s.allocations[id];
            a.id == id && a.job in s.jobs && s.jobs[a.job].id == a.job && AttemptsOk(s.jobs[a.job])
  {
    hide AttemptsOk, Apart, QuotasKept, LogOk, Replays, NodesOk, Fills;
    assert AllocationOk(s, id);
  }

  lemma StopIsAllowed(j: Job, state: JobState, error: Option<string>)
    requires AttemptsOk(j) && (state == Queued ==> j.attempts < j.maxAttempts)
    ensures AttemptsOk(j.(state := state, lastError := error))
  {
  }

  lemma ReleaseKeepsInv(s: State, id: AllocationId, state: JobState, event: Happening, error: Option<string>)
    requires Inv(s) && id in s.allocations && !IsActive(state)
    ensures s.allocations[id].job in s.jobs
    ensures var j := s.jobs[s.allocations[id].job];
            Known(state, j.attempts) == Advance(Known(j.state, j.attempts), event, j.maxAttempts)
            && (state == Queued ==> j.attempts < j.maxAttempts)
            ==> Inv(Release(s, s.allocations[id], state, event, error))
  {
    hide Linked, Apart, Attempts, QuotasKept, Replays, LogOk, Fills, AttemptsOk, ValidInventory;
    var a := s.allocations[id];
    OwnedJob(s, id);
    var j := s.jobs[a.job];
    var r := Release(s, a, state, event, error);
    if Known(state, j.attempts) == Advance(Known(j.state, j.attempts), event, j.maxAttempts) && (state == Queued ==> j.attempts < j.maxAttempts) {
      StopIsAllowed(j, state, error);
      ReleaseStep(s, r, id, r.jobs[j.id]);
      QuotasAfterRelease(s, r, id);
      LogStep(s, r, event, j.id, Some(a.node));
    }
  }

  lemma RecoverOneKeepsInv(s: State, id: AllocationId, now: int)
    requires Inv(s)
    ensures Inv(RecoverOne(s, id, now))
  {
    hide Inv, Release;
    if id in s.allocations && s.allocations[id].leaseExpiresAt <= now {
      ReleaseKeepsInv(s, id, Queued, LeaseExpired, Some(EXPIRED));
      ReleaseKeepsInv(s, id, Failed, LeaseExpired, Some(EXPIRED));
    }
  }

  lemma {:induction false} RecoverKeepsInv(s: State, ids: seq<AllocationId>, now: int)
    requires Inv(s)
    ensures Inv(Recover(s, ids, now))
  {
    hide Inv, RecoverOne;
    if ids != [] {
      RecoverKeepsInv(s, ids[..|ids| - 1], now);
      RecoverOneKeepsInv(Recover(s, ids[..|ids| - 1], now), ids[|ids| - 1], now);
    }
  }

  // ---------- a scheduling pass ----------

  /** Nothing but this job's turn changes its state from queued. */
  lemma PlaceOneKeepsInv(s: State, id: JobId, now: int, lease: int)
    requires Inv(s) && id in s.jobs && s.jobs[id].state == Queued
    ensures Inv(PlaceOne(s, id, now, lease))
    ensures PlaceOne(s, id, now, lease).jobs.Keys == s.jobs.Keys
    ensures forall k :: k in s.jobs && k != id ==> PlaceOne(s, id, now, lease).jobs[k] == s.jobs[k]
    ensures PlaceOne(s, id, now, lease).nodes == s.nodes
  {
    hide *;
    JobIsItself(s, id);
    var best := Placement(s, id, now, lease);
    if best.Some? {
      ReserveKeepsInv(s, s.jobs[id], best.value, now, lease);
      ReserveChanges(s, s.jobs[id], best.value, now, lease);
    }
  }

  lemma JobIsItself(s: State, id: JobId)
    requires Inv(s) && id in s.jobs
    ensures s.jobs[id].id == id && AttemptsOk(s.jobs[id])
  {
  }

  lemma ReserveChanges(s: State, j: Job, n: Inventory, now: int, lease: int)
    requires j.id in s.jobs && s.jobs[j.id] == j
    ensures var r := Reserve(s, j, n, now, lease);
            && r.jobs.Keys == s.jobs.Keys && r.nodes == s.nodes
            && forall k :: k in s.jobs && k != j.id ==> r.jobs[k] == s.jobs[k]
  {
    hide NewAllocation;
  }

  /** What a job's turn comes to: a reservation on some fitting node, or nothing. */
  lemma Placement(s: State, id: JobId, now: int, lease: int) returns (best: Option<Inventory>)
    requires Inv(s) && id in s.jobs
    ensures var j := s.jobs[id];
            match best
            case None => PlaceOne(s, id, now, lease) == s && (WithinQuota(s, j) ==> Candidates(s, j.request, now) == {})
            case Some(n) =>
              && PlaceOne(s, id, now, lease) == Reserve(s, j, n, now, lease)
              && n.id in s.nodes && s.nodes[n.id] == n && n.id in Candidates(s, j.request, now)
              && WithinQuota(s, j) && AvailableFit(s, j.request, n)
  {
    var j := s.jobs[id];
    var candidates := Candidates(s, j.request, now);
    hide Linked, Apart, Attempts, QuotasKept, LogOk, Replays, WithinQuota, AvailableFit, Reserve, ScoresBelow;
    if WithinQuota(s, j) && candidates != {} {
      best := Some(s.nodes[Best(s, j.request, candidates)]);
    } else {
      best := None;
    }
  }

  lemma NodeIsItself(s: State, n: NodeId)
    requires Inv(s) && n in s.nodes
    ensures s.nodes[n].id == n && ValidInventory(s.nodes[n])
  {
  }

  lemma {:induction false} PlaceAllKeepsInv(s: State, queue: seq<JobId>, now: int, lease: int)
    requires Inv(s) && Distinct(queue) && forall j :: j in queue ==> j in s.jobs && s.jobs[j].state == Queued
    ensures Inv(PlaceAll(s, queue, now, lease))
    ensures PlaceAll(s, queue, now, lease).jobs.Keys == s.jobs.Keys && PlaceAll(s, queue, now, lease).nodes == s.nodes
    ensures forall k :: k in s.jobs && k !in queue ==> PlaceAll(s, queue, now, lease).jobs[k] == s.jobs[k]
  {
    hide Inv, PlaceOne;
    if queue != [] {
      var front, last := queue[..|queue| - 1], queue[|queue| - 1];
      assert last !in front && queue == front + [last];
      PlaceAllKeepsInv(s, front, now, lease);
      PlaceOneKeepsInv(PlaceAll(s, front, now, lease), last, now, lease);
    }
  }

  // ---------- every call ----------

  lemma BecomeLeaderKeepsInv(s: State, node: NodeId, term: int)
    requires Inv(s) && term > s.term
    ensures Inv(s.(leader := Some(node), term := term))
  {
    var r := s.(leader := Some(node), term := term);
    hide Fills;
    assert forall id :: id in r.allocations ==> AllocationOk(s, id) && AllocationOk(r, id);
    assert forall j, id :: Owns(r, id, j) == Owns(s, id, j);
    assert forall p, what :: Usage(r, p, what) == Usage(s, p, what);
  }

  lemma LinkedLater(s: State, r: State)
    requires Linked(s) && r.allocations == s.allocations && r.jobs == s.jobs && r.log == s.log && s.nodes.Keys <= r.nodes.Keys
    ensures Linked(r)
  {
    hide Fills;
    assert forall id :: id in r.allocations ==> AllocationOk(s, id) && AllocationOk(r, id);
    assert forall j, id :: Owns(r, id, j) == Owns(s, id, j);
  }

  lemma HeartbeatKeepsInv(s: State, n: Inventory)
    requires Inv(s) && ValidInventory(n)
    ensures Inv(s.(nodes := s.nodes[n.id := n]))
  {
    hide Linked, AttemptsOk, QuotasKept, ValidInventory, Disjoint;
    var r := s.(nodes := s.nodes[n.id := n]);
    LinkedLater(s, r);
    SameUsage(s, r);
  }

  lemma SameUsage(s: State, r: State)
    requires QuotasKept(s) && r.allocations == s.allocations && r.quotas == s.quotas
    ensures QuotasKept(r)
  {
    hide Limit;
    assert forall p, what :: Usage(r, p, what) == Usage(s, p, what);
  }

  lemma SubmitKeepsInv(s: State, j: Job, sequence: nat)
    requires Inv(s) && j.id !in s.jobs && AttemptsOk(j) && j.state == Queued && j.attempts == 0
    ensures Inv(Log(s, Submitted, j.id, None).(sequence := sequence, jobs := s.jobs[j.id := j]))
  {
    var r := Log(s, Submitted, j.id, None).(sequence := sequence, jobs := s.jobs[j.id := j]);
    forall id ensures !Owns(s, id, j.id) {
      assert id in s.allocations ==> AllocationOk(s, id);
    }
    hide Linked, Apart, Attempts, QuotasKept, LogOk, Replays, Owns;
    IdleStep(s, r, j);
    SameUsage(s, r);
    LogStep(s, r, Submitted, j.id, None);
  }

  lemma StartIsAllowed(j: Job)
    requires AttemptsOk(j)
    ensures AttemptsOk(j.(state := Running, lastError := None))
  {
  }

  lemma StartKeepsInv(s: State, a: Allocation)
    requires Inv(s) && a.job in s.jobs && s.jobs[a.job].state == Scheduled
    ensures Inv(Transition(s, s.jobs[a.job], Running, Started, Some(a.node), None))
  {
    hide Linked, Apart, Attempts, QuotasKept, LogOk, Replays, AttemptsOk, ValidInventory;
    var j := s.jobs[a.job];
    var r := Transition(s, j, Running, Started, Some(a.node), None);
    JobIsItself(s, a.job);
    StartIsAllowed(j);
    BusyStep(s, r, r.jobs[j.id]);
    SameUsage(s, r);
    LogStep(s, r, Started, j.id, Some(a.node));
  }

  lemma CancelQueuedKeepsInv(s: State, j: Job)
    requires Inv(s) && j.id in s.jobs && s.jobs[j.id] == j && forall id :: id in s.allocations ==> s.allocations[id].job != j.id
    ensures Inv(Transition(s, j, Cancelled, Cancels, None, None))
  {
    var r := Transition(s, j, Cancelled, Cancels, None, None);
    JobIsItself(s, j.id);
    assert AttemptsOk(r.jobs[j.id]);
    assert forall id :: !Owns(s, id, j.id);
    hide Linked, Apart, Attempts, QuotasKept, LogOk, Replays, AttemptsOk, Owns;
    IdleStep(s, r, r.jobs[j.id]);
    SameUsage(s, r);
    LogStep(s, r, Cancels, j.id, None);
  }

  lemma CancelKeepsInv(s: State, id: JobId)
    requires Inv(s) && id in s.jobs
    ensures var a := AllocationOf(s, id);
            Inv(if a.Some? then Release(s, a.value, Cancelled, Cancels, None) else Transition(s, s.jobs[id], Cancelled, Cancels, None, None))
  {
    hide *;
    JobIsItself(s, id);
    OwnedOrNot(s, id);
    var a := AllocationOf(s, id);
    if a.Some? {
      ReleaseKeepsInv(s, a.value.id, Cancelled, Cancels, None);
      CancelsAdvance(s.jobs[a.value.job]);
    } else {
      CancelQueuedKeepsInv(s, s.jobs[id]);
    }
  }

  lemma CancelsAdvance(j: Job)
    ensures Known(Cancelled, j.attempts) == Advance(Known(j.state, j.attempts), Cancels, j.maxAttempts) && !IsActive(Cancelled)
  {
  }

  lemma OwnedOrNot(s: State, id: JobId)
    requires Inv(s)
    ensures !IsActive(Cancelled)
    ensures match AllocationOf(s, id)
            case Some(a) => a.id in s.allocations && s.allocations[a.id] == a && a.job == id && a.job in s.jobs
            case None => forall k :: k in s.allocations ==> s.allocations[k].job != id
  {
    var a := AllocationOf(s, id);
    if a.Some? {
      var k :| k in s.allocations && s.allocations[k] == a.value;
      assert AllocationOk(s, k);
    }
  }

  lemma CompleteKeepsInv(s: State, id: AllocationId, succeeded: bool, error: Option<string>)
    requires Inv(s) && id in s.allocations && s.allocations[id].job in s.jobs
    ensures Inv(Release(s, s.allocations[id], if succeeded then Succeeded else Failed, if succeeded then Succeeds else Fails, error))
  {
    hide Inv, Release;
    ReleaseKeepsInv(s, id, Succeeded, Succeeds, error);
    ReleaseKeepsInv(s, id, Failed, Fails, error);
  }

  /** Every call, accepted or refused, keeps the invariant. */
  lemma StepKeepsInv(s: State, c: Call)
    requires Inv(s) && Fits(s, c)
    ensures Inv(Step(s, c).0)
  {
    hide Inv, Release, Transition, Recover, PlaceAll, StaticallyFits, AllocationOf;
    match c {
      case BecomeLeader(node, term) =>
        if term > s.term {
          BecomeLeaderKeepsInv(s, node, term);
        }
      case Heartbeat(inventory) => HeartbeatKeepsInv(s, inventory);
      case Submit(job, project, request, priority, maxAttempts, wellFormed) =>
        if maxAttempts >= 1 && job !in s.jobs {
          SubmitKeepsInv(s, Job(job, project, request, priority, s.sequence + 1, maxAttempts, 0, Queued, None), s.sequence + 1);
        }
      case Schedule(caller, now, lease, expiry, queue) =>
        RecoverKeepsInv(s, expiry, now);
        PlaceAllKeepsInv(Recover(s, expiry, now), queue, now, lease);
      case MarkRunning(id, caller) =>
        if id in s.allocations && s.allocations[id].job in s.jobs && s.jobs[s.allocations[id].job].state == Scheduled {
          StartKeepsInv(s, s.allocations[id]);
        }
      case Complete(id, caller, succeeded, error) =>
        if id in s.allocations && s.allocations[id].job in s.jobs {
          CompleteKeepsInv(s, id, succeeded, error);
        }
      case Cancel(id, caller) =>
        if id in s.jobs {
          CancelKeepsInv(s, id);
        }
      case RecoverExpired(caller, now, expiry) => RecoverKeepsInv(s, expiry, now);
    }
  }
}
