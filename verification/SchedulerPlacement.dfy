/** A scheduling pass of lab 38 in elementary terms: where jobs may go, that none is left out, who comes first, and which node is taken. */
module SchedulerPlacement {
  import opened Options
  import opened Sets
  import opened Sequences
  import opened Sums
  import opened Scheduler
  import opened SchedulerSafety
  import opened SchedulerRuns
  import opened SchedulerLeases

  // ---------- what is free, counted directly ----------

  /** The CPU is one the request may use on this node. */
  predicate MayUseCpu(r: Request, n: Inventory, cpu: int) {
    && (if r.affinity == {} then cpu in n.cpus else cpu in r.affinity)
    && (r.numaNode.Some? ==> r.numaNode.value in n.numaCpus && cpu in n.numaCpus[r.numaNode.value])
  }

  /** The GPU is one the request may use on this node. */
  predicate MayUseGpu(r: Request, g: Gpu) {
    (r.gpuClass.Some? ==> g.deviceClass == r.gpuClass.value) && (r.numaNode.Some? ==> g.numaNode == r.numaNode)
  }

  ghost predicate CpuTaken(s: State, node: NodeId, cpu: int) {
    exists id :: id in s.allocations && s.allocations[id].node == node && cpu in s.allocations[id].cpus
  }

  ghost predicate GpuTaken(s: State, node: NodeId, g: nat) {
    exists id :: id in s.allocations && s.allocations[id].node == node && g in s.allocations[id].gpus
  }

  ghost function OpenCpus(s: State, r: Request, n: Inventory): set<int> {
    set cpu | cpu in n.cpus + r.affinity && MayUseCpu(r, n, cpu) && !CpuTaken(s, n.id, cpu)
  }

  /** Positions in the node's list of GPUs. */
  ghost function OpenGpus(s: State, r: Request, n: Inventory): set<nat> {
    set i | 0 <= i < |n.gpus| && MayUseGpu(r, n.gpus[i]) && !GpuTaken(s, n.id, n.gpus[i].id)
  }

  ghost function MemoryOn(s: State, node: NodeId): map<AllocationId, nat> {
    map id | id in s.allocations && s.allocations[id].node == node :: Natural(s.allocations[id].memory)
  }

  /** A node with a fresh heartbeat that has the labels, and enough free CPUs, memory and GPUs, for the request. */
  ghost predicate HasRoom(s: State, r: Request, n: Inventory, now: int) {
    && now - n.heartbeatAt <= s.heartbeatTimeout
    && r.labels <= n.labels
    && |OpenCpus(s, r, n)| >= r.cpuCores
    && Total(MemoryOn(s, n.id)) + r.memory <= n.memory
    && |OpenGpus(s, r, n)| >= r.gpuCount
  }

  ghost function JobsOf(s: State, project: string): set<AllocationId> {
    set id | id in s.allocations && s.allocations[id].project == project
  }

  ghost function CoresOf(s: State, project: string): map<AllocationId, nat> {
    map id | id in s.allocations && s.allocations[id].project == project :: |s.allocations[id].cpus|
  }

  ghost function MemoryOf(s: State, project: string): map<AllocationId, nat> {
    map id | id in s.allocations && s.allocations[id].project == project :: Natural(s.allocations[id].memory)
  }

  ghost function GpusOf(s: State, project: string): map<AllocationId, nat> {
    map id | id in s.allocations && s.allocations[id].project == project :: |s.allocations[id].gpus|
  }

  /** The project's quota allows this much more. */
  ghost predicate QuotaAllows(s: State, project: string, jobs: int, cores: int, memory: int, gpus: int) {
    project in s.quotas ==>
      var q := s.quotas[project];
      && |JobsOf(s, project)| + jobs <= q.jobs
      && Total(CoresOf(s, project)) + cores <= q.cpuCores
      && Total(MemoryOf(s, project)) + memory <= q.memory
      && Total(GpusOf(s, project)) + gpus <= q.gpuCount
  }

  ghost predicate QuotaHasRoom(s: State, project: string, r: Request) {
    QuotaAllows(s, project, 1, r.cpuCores, r.memory, r.gpuCount)
  }

  // ---------- these are the scheduler's own tests ----------

  /** As many ones as there are keys. */
  lemma {:induction false} TotalOfOnes<K>(m: map<K, nat>)
    requires forall k :: k in m ==> m[k] == 1
    ensures Total(m) == |m.Keys|
  {
    if m != map[] {
      var k :| k in m && Total(m) == m[k] + Total(m - {k});
      TotalOfOnes(m - {k});
      assert (m - {k}).Keys == m.Keys - {k};
    }
  }

  lemma UsageIs(s: State, project: string)
    ensures Usage(s, project, Slots) == |JobsOf(s, project)|
    ensures Usage(s, project, Cores) == Total(CoresOf(s, project))
    ensures Usage(s, project, Memory) == Total(MemoryOf(s, project))
    ensures Usage(s, project, Gpus) == Total(GpusOf(s, project))
  {
    var all := s.allocations;
    TotalOfOnes(Taken(all, project, Slots));
    assert Taken(all, project, Slots).Keys == JobsOf(s, project);
    assert Taken(all, project, Cores) == CoresOf(s, project);
    assert Taken(all, project, Memory) == MemoryOf(s, project);
    assert Taken(all, project, Gpus) == GpusOf(s, project);
    hide Total, Taken, CoresOf, MemoryOf, GpusOf, JobsOf;
  }

  lemma QuotaTest(s: State, j: Job)
    ensures WithinQuota(s, j) <==> QuotaHasRoom(s, j.project, j.request)
  {
    UsageIs(s, j.project);
    hide Usage, Total, JobsOf, CoresOf, MemoryOf, GpusOf;
    if j.project in s.quotas && QuotaHasRoom(s, j.project, j.request) {
      forall what ensures Usage(s, j.project, what) + Asked(j.request, what) <= Limit(s.quotas[j.project], what) {
        match what {
          case Slots =>
          case Cores =>
          case Memory =>
          case Gpus =>
        }
      }
    }
    if j.project in s.quotas && WithinQuota(s, j) {
      assert Usage(s, j.project, Slots) + Asked(j.request, Slots) <= Limit(s.quotas[j.project], Slots);
      assert Usage(s, j.project, Cores) + Asked(j.request, Cores) <= Limit(s.quotas[j.project], Cores);
      assert Usage(s, j.project, Memory) + Asked(j.request, Memory) <= Limit(s.quotas[j.project], Memory);
      assert Usage(s, j.project, Gpus) + Asked(j.request, Gpus) <= Limit(s.quotas[j.project], Gpus);
    }
  }

  lemma OpenCpusAre(s: State, r: Request, n: Inventory)
    ensures OpenCpus(s, r, n) == FreeCpus(s, r, n)
  {
    forall cpu ensures cpu in UsedCpus(s, n.id) <==> CpuTaken(s, n.id, cpu) {
    }
    hide UsedCpus, CpuTaken;
  }

  function Places(gpus: seq<Gpu>, keep: Gpu -> bool): set<nat> {
    set i | 0 <= i < |gpus| && keep(gpus[i])
  }

  /** A filter keeps as many as there are places that pass. */
  lemma {:induction false} FilterCounts(gpus: seq<Gpu>, keep: Gpu -> bool)
    ensures |Filter(gpus, keep)| == |Places(gpus, keep)|
  {
    if gpus == [] {
      assert Places(gpus, keep) == {};
    } else {
      var k := |gpus| - 1;
      FilterCounts(gpus[..k], keep);
      if keep(gpus[k]) {
        assert Places(gpus, keep) == Places(gpus[..k], keep) + {k};
      } else {
        assert Places(gpus, keep) == Places(gpus[..k], keep);
      }
    }
  }

  lemma {:induction false} FilterBoth<T>(s: seq<T>, keep: T -> bool, hold: T -> bool, both: T -> bool)
    requires forall x :: both(x) <==> keep(x) && hold(x)
    ensures Filter(Filter(s, keep), hold) == Filter(s, both)
  {
    if s != [] {
      var front, last := s[..|s| - 1], s[|s| - 1];
      FilterBoth(front, keep, hold, both);
      FilterSnoc(Filter(front, keep), last, hold);
    }
  }

  function Both(r: Request, used: set<nat>): Gpu -> bool {
    (g: Gpu) => GpuMatches(r, g) && g.id !in used
  }

  lemma OpenGpusCount(s: State, r: Request, n: Inventory)
    ensures |OpenGpus(s, r, n)| == |FreeGpus(s, r, n)|
  {
    var used := UsedGpus(s, n.id);
    forall g ensures g in used <==> GpuTaken(s, n.id, g) {
    }
    hide UsedGpus, GpuTaken;
    FilterBoth(n.gpus, Matching(r), NotIn(used), Both(r, used));
    FilterCounts(n.gpus, Both(r, used));
    assert OpenGpus(s, r, n) == Places(n.gpus, Both(r, used));
  }

  lemma RoomTest(s: State, r: Request, n: Inventory, now: int)
    requires r.memory >= 0
    ensures now - n.heartbeatAt <= s.heartbeatTimeout && AvailableFit(s, r, n) <==> HasRoom(s, r, n, now)
  {
    OpenCpusAre(s, r, n);
    OpenGpusCount(s, r, n);
    MemoryIs(s, n.id);
    SubsetSize(FreeCpus(s, r, n), EligibleCpus(r, n));
    FewerFree(s, r, n);
    hide FreeCpus, FreeGpus, EligibleCpus, EligibleGpus, UsedMemory, MemoryOn, Total, OpenCpus, OpenGpus;
  }

  lemma MemoryIs(s: State, n: NodeId)
    ensures Total(MemoryOn(s, n)) == UsedMemory(s, n)
  {
    assert HeldOn(s.allocations, n) == MemoryOn(s, n);
  }

  lemma FewerFree(s: State, r: Request, n: Inventory)
    ensures |FreeGpus(s, r, n)| <= |EligibleGpus(r, n)|
  {
    FilterShorter(EligibleGpus(r, n), NotIn(UsedGpus(s, n.id)));
  }

  lemma {:induction false} FilterShorter<T>(s: seq<T>, keep: T -> bool)
    ensures |Filter(s, keep)| <= |s|
  {
    if s != [] {
      FilterShorter(s[..|s| - 1], keep);
    }
  }

  // ---------- nothing that fits is left waiting ----------

  /**
   * After an accepted pass no job is waiting that its project's quota still has room for and that some node with a fresh
   * heartbeat has room for.
   */
  lemma ScheduleIsMaximal(s: State, caller: NodeId, now: int, lease: int, expiry: seq<AllocationId>, queue: seq<JobId>)
    requires Inv(s) && Fits(s, Schedule(caller, now, lease, expiry, queue))
    ensures var (r, error) := Step(s, Schedule(caller, now, lease, expiry, queue));
            error == None ==>
              forall j, n :: j in r.jobs && r.jobs[j].state == Queued && n in r.nodes ==>
                !(QuotaHasRoom(r, r.jobs[j].project, r.jobs[j].request) && HasRoom(r, r.jobs[j].request, r.nodes[n], now))
  {
    var c := Schedule(caller, now, lease, expiry, queue);
    hide *;
    if Step(s, c).1 == None {
      PassLeavesNoCandidate(s, caller, now, lease, expiry, queue);
      StepKeepsInv(s, c);
      var r := Step(s, c).0;
      forall j, n | j in r.jobs && r.jobs[j].state == Queued && n in r.nodes
        ensures !(QuotaHasRoom(r, r.jobs[j].project, r.jobs[j].request) && HasRoom(r, r.jobs[j].request, r.nodes[n], now))
      {
        JobIsItself(r, j);
        MemoryAsked(r.jobs[j]);
        QuotaTest(r, r.jobs[j]);
        RoomTest(r, r.jobs[j].request, r.nodes[n], now);
      }
    }
  }

  lemma MemoryAsked(j: Job)
    requires AttemptsOk(j)
    ensures j.request.memory >= 0
  {
  }

  /** Quotas, sum by sum, in every state of every run. */
  lemma QuotasHold(calls: seq<Call>, states: seq<State>, i: nat, project: string)
    requires Run(calls, states) && i < |states|
    ensures QuotaAllows(states[i], project, 0, 0, 0, 0)
  {
    hide Run, Linked, Apart, Attempts, NodesOk, LogOk, Replays;
    RunKeepsInv(calls, states, i);
    var s := states[i];
    UsageIs(s, project);
    hide Usage, Total, JobsOf, CoresOf, MemoryOf, GpusOf;
    if project in s.quotas {
      assert Usage(s, project, Slots) <= Limit(s.quotas[project], Slots);
      assert Usage(s, project, Cores) <= Limit(s.quotas[project], Cores);
      assert Usage(s, project, Memory) <= Limit(s.quotas[project], Memory);
      assert Usage(s, project, Gpus) <= Limit(s.quotas[project], Gpus);
    }
  }

  // ---------- what is placed where ----------

  /** The allocation serves the job on the node as asked: the job's own, on usable CPUs and GPUs, with this lease. */
  ghost predicate Serves(s: State, a: Allocation, j: Job, n: Inventory, now: int, lease: int) {
    && a.job == j.id && a.project == j.project && a.node == n.id && a.numaNode == j.request.numaNode
    && a.leaderTerm == s.term && a.leaseExpiresAt == now + lease
    && now - n.heartbeatAt <= s.heartbeatTimeout && j.request.labels <= n.labels
    && a.memory == j.request.memory
    && |a.cpus| == j.request.cpuCores && (forall cpu :: cpu in a.cpus ==> MayUseCpu(j.request, n, cpu))
    && |a.gpus| == j.request.gpuCount && Distinct(a.gpus)
    && forall g :: g in a.gpus ==> exists i :: 0 <= i < |n.gpus| && n.gpus[i].id == g && MayUseGpu(j.request, n.gpus[i])
  }

  ghost predicate NowScheduled(j: Job, k: Job) {
    k == j.(state := Scheduled, attempts := j.attempts + 1, lastError := None)
  }

  /** What a pass over these queued jobs does: it only adds allocations, one for each job that it schedules. */
  ghost predicate Passed(s: State, r: State, queue: set<JobId>, now: int, lease: int) {
    && r == s.(log := r.log, allocations := r.allocations, jobs := r.jobs) && r.jobs.Keys == s.jobs.Keys
    && s.log <= r.log
    && (forall id :: id in s.allocations ==> id in r.allocations && r.allocations[id] == s.allocations[id])
    && (forall id :: id in r.allocations && id !in s.allocations ==> Added(s, r.allocations[id], queue, now, lease))
    && forall j :: j in s.jobs ==>
         if Served(s, r, j) then NowScheduled(s.jobs[j], r.jobs[j]) else r.jobs[j] == s.jobs[j]
  }

  /** The job owns an allocation that was not there before. */
  ghost predicate Served(s: State, r: State, j: JobId) {
    exists id :: id !in s.allocations && Owns(r, id, j)
  }

  ghost predicate Added(s: State, a: Allocation, queue: set<JobId>, now: int, lease: int) {
    && a.job in queue && a.job in s.jobs && s.jobs[a.job].state == Queued
    && a.node in s.nodes && Serves(s, a, s.jobs[a.job], s.nodes[a.node], now, lease)
  }

  lemma FitMeans(s: State, r: Request, n: Inventory)
    requires AvailableFit(s, r, n)
    ensures r.labels <= n.labels
  {
    hide EligibleCpus, EligibleGpus, FreeCpus, FreeGpus, UsedMemory;
  }

  lemma EligibleMeans(s: State, r: Request, n: Inventory, cpu: int)
    requires cpu in FreeCpus(s, r, n)
    ensures MayUseCpu(r, n, cpu)
  {
    hide UsedCpus;
  }

  lemma MatchMeans(r: Request, g: Gpu)
    requires GpuMatches(r, g)
    ensures MayUseGpu(r, g)
  {
  }

  lemma NewServes(s: State, j: Job, n: Inventory, now: int, lease: int)
    requires ValidRequest(j.request) && ValidInventory(n) && AvailableFit(s, j.request, n) && now - n.heartbeatAt <= s.heartbeatTimeout
    ensures Serves(s, NewAllocation(s, j, n, now, lease), j, n, now, lease)
  {
    NewAllocationFills(s, j, n, now, lease);
    FitMeans(s, j.request, n);
    var a := NewAllocation(s, j, n, now, lease);
    hide AvailableFit, FreeCpus, FreeGpus, UsedGpus, GpuMatches, MayUseCpu, MayUseGpu, ValidInventory;
    forall cpu | cpu in a.cpus ensures MayUseCpu(j.request, n, cpu) {
      EligibleMeans(s, j.request, n, cpu);
    }
    forall g | g in a.gpus ensures exists i :: 0 <= i < |n.gpus| && n.gpus[i].id == g && MayUseGpu(j.request, n.gpus[i]) {
      var d :| d in n.gpus && d.id == g && GpuMatches(j.request, d);
      var i :| 0 <= i < |n.gpus| && n.gpus[i] == d;
      MatchMeans(j.request, d);
    }
  }

  lemma NothingPasses(s: State, queue: set<JobId>, now: int, lease: int)
    ensures Passed(s, s, queue, now, lease)
  {
  }

  lemma OneServed(s: State, r: State, a: Allocation)
    requires a.id !in s.allocations && r.allocations == s.allocations[a.id := a]
    ensures forall j :: Served(s, r, j) <==> j == a.job
  {
    assert Owns(r, a.id, a.job);
  }

  lemma ReservePasses(s: State, j: Job, n: Inventory, now: int, lease: int)
    requires Inv(s) && j.id in s.jobs && s.jobs[j.id] == j && j.state == Queued && n.id in s.nodes && s.nodes[n.id] == n
    requires Serves(s, NewAllocation(s, j, n, now, lease), j, n, now, lease)
    ensures Passed(s, Reserve(s, j, n, now, lease), {j.id}, now, lease)
  {
    hide *;
    FreshAllocation(s, j, n, now, lease);
    AllocationNames(s, j, n, now, lease);
    ReserveIs(s, j, n, now, lease);
    OneServed(s, Reserve(s, j, n, now, lease), NewAllocation(s, j, n, now, lease));
    OnePassed(s, Reserve(s, j, n, now, lease), j, n, NewAllocation(s, j, n, now, lease), now, lease);
  }

  lemma ReserveIs(s: State, j: Job, n: Inventory, now: int, lease: int)
    ensures var a, r := NewAllocation(s, j, n, now, lease), Reserve(s, j, n, now, lease);
            && r == s.(log := r.log, allocations := s.allocations[a.id := a],
                       jobs := s.jobs[j.id := j.(state := Scheduled, attempts := j.attempts + 1, lastError := None)])
            && r.log == s.log + [LogEntry(|s.log| + 1, s.term, Reserved, j.id, Some(n.id))]
  {
    hide NewAllocation;
  }

  lemma OnePassed(s: State, r: State, j: Job, n: Inventory, a: Allocation, now: int, lease: int)
    requires j.id in s.jobs && s.jobs[j.id] == j && j.state == Queued && n.id in s.nodes && s.nodes[n.id] == n
    requires Serves(s, a, j, n, now, lease) && a.id !in s.allocations && a.job == j.id && a.node == n.id
    requires r == s.(log := r.log, allocations := s.allocations[a.id := a],
                     jobs := s.jobs[j.id := j.(state := Scheduled, attempts := j.attempts + 1, lastError := None)])
    requires s.log <= r.log && forall k :: Served(s, r, k) <==> k == a.job
    ensures Passed(s, r, {j.id}, now, lease)
  {
    hide Serves, Served;
  }

  lemma AllocationNames(s: State, j: Job, n: Inventory, now: int, lease: int)
    ensures var a := NewAllocation(s, j, n, now, lease); a.id == |s.log| + 1 && a.job == j.id && a.node == n.id
  {
  }

  lemma FreshEnough(s: State, r: Request, n: NodeId, now: int)
    requires n in Candidates(s, r, now)
    ensures n in s.nodes && now - s.nodes[n].heartbeatAt <= s.heartbeatTimeout
  {
    hide AvailableFit;
  }

  lemma PlaceOnePasses(s: State, id: JobId, now: int, lease: int)
    requires Inv(s) && id in s.jobs && s.jobs[id].state == Queued
    ensures Passed(s, PlaceOne(s, id, now, lease), {id}, now, lease)
  {
    hide *;
    JobIsItself(s, id);
    NothingPasses(s, {id}, now, lease);
    var best := Placement(s, id, now, lease);
    if best.Some? {
      var j := s.jobs[id];
      RequestIsValid(j);
      NodeIsItself(s, best.value.id);
      FreshEnough(s, j.request, best.value.id, now);
      NewServes(s, j, best.value, now, lease);
      ReservePasses(s, j, best.value, now, lease);
    }
  }

  lemma ServedTwice(s: State, t: State, r: State, j: JobId)
    requires forall id :: id in s.allocations ==> id in t.allocations
    requires forall id :: id in t.allocations ==> id in r.allocations && r.allocations[id] == t.allocations[id]
    ensures Served(s, r, j) <==> Served(s, t, j) || Served(t, r, j)
  {
    if id :| id !in s.allocations && Owns(r, id, j) {
      assert id in t.allocations ==> Owns(t, id, j);
    }
    if id :| id !in s.allocations && Owns(t, id, j) {
      assert Owns(r, id, j);
    }
  }

  lemma ServedAreQueued(s: State, r: State, queue: set<JobId>, now: int, lease: int, j: JobId)
    requires Passed(s, r, queue, now, lease) && Served(s, r, j)
    ensures j in queue
  {
    hide Serves, NowScheduled;
    var id :| id !in s.allocations && Owns(r, id, j);
    assert Added(s, r.allocations[id], queue, now, lease);
  }

  lemma StillAdded(s: State, t: State, a: Allocation, first: set<JobId>, second: set<JobId>, now: int, lease: int)
    requires Added(t, a, second, now, lease) && s.term == t.term && s.heartbeatTimeout == t.heartbeatTimeout
    requires a.job in s.jobs && s.jobs[a.job] == t.jobs[a.job] && s.nodes == t.nodes
    ensures Added(s, a, first + second, now, lease)
  {
    SameServes(s, t, a, s.jobs[a.job], s.nodes[a.node], now, lease);
    hide Serves;
  }

  lemma PassesTwice(s: State, t: State, r: State, first: set<JobId>, second: set<JobId>, now: int, lease: int)
    requires Passed(s, t, first, now, lease) && Passed(t, r, second, now, lease) && first !! second
    ensures Passed(s, r, first + second, now, lease)
  {
    hide Serves, NowScheduled, Served, Added;
    forall j | j in second ensures !Served(s, t, j) {
      if Served(s, t, j) {
        ServedAreQueued(s, t, first, now, lease, j);
      }
    }
    forall j | Served(t, r, j) ensures j in second {
      ServedAreQueued(t, r, second, now, lease, j);
    }
    forall j ensures Served(s, r, j) <==> Served(s, t, j) || Served(t, r, j) {
      ServedTwice(s, t, r, j);
    }
    forall id | id in r.allocations && id !in s.allocations ensures Added(s, r.allocations[id], first + second, now, lease) {
      if id in t.allocations {
        AddedToMore(s, t.allocations[id], first, second, now, lease);
      } else {
        AddedIsQueued(t, r.allocations[id], second, now, lease);
        StillAdded(s, t, r.allocations[id], first, second, now, lease);
      }
    }
  }

  lemma AddedToMore(s: State, a: Allocation, first: set<JobId>, second: set<JobId>, now: int, lease: int)
    requires Added(s, a, first, now, lease)
    ensures Added(s, a, first + second, now, lease)
  {
    hide Serves;
  }

  lemma AddedIsQueued(s: State, a: Allocation, queue: set<JobId>, now: int, lease: int)
    requires Added(s, a, queue, now, lease)
    ensures a.job in queue && a.job in s.jobs
  {
    hide Serves;
  }

  lemma SameServes(s: State, t: State, a: Allocation, j: Job, n: Inventory, now: int, lease: int)
    requires Serves(t, a, j, n, now, lease) && s.term == t.term && s.heartbeatTimeout == t.heartbeatTimeout
    ensures Serves(s, a, j, n, now, lease)
  {
    hide MayUseCpu, MayUseGpu;
  }

  lemma {:induction false} PassExactly(s: State, queue: seq<JobId>, now: int, lease: int)
    requires Inv(s) && Distinct(queue) && forall j :: j in queue ==> j in s.jobs && s.jobs[j].state == Queued
    ensures Passed(s, PlaceAll(s, queue, now, lease), Elements(queue), now, lease)
  {
    hide *;
    if queue == [] {
      PlaceNone(s, now, lease);
      NothingPasses(s, Elements(queue), now, lease);
    } else {
      var front, last := queue[..|queue| - 1], queue[|queue| - 1];
      DistinctFront(queue);
      var t := PlaceAll(s, front, now, lease);
      PlaceLast(s, queue, now, lease);
      PlaceAllKeepsInv(s, front, now, lease);
      PassExactly(s, front, now, lease);
      PlaceOnePasses(t, last, now, lease);
      ElementsSplit(front, last, queue);
      PassesTwice(s, t, PlaceAll(s, queue, now, lease), Elements(front), {last}, now, lease);
    }
  }

  lemma ElementsSplit(front: seq<JobId>, last: JobId, queue: seq<JobId>)
    requires forall j :: j in queue <==> j in front || j == last
    requires last !in front
    ensures Elements(queue) == Elements(front) + {last} && Elements(front) !! {last}
  {
  }

  /** The jobs that are waiting. */
  ghost function Waiting(s: State): set<JobId> {
    set j | j in s.jobs && s.jobs[j].state == Queued
  }

  /**
   * A scheduling call: refused to others than the leader and without a lease; otherwise first exactly the ended leases are
   * given up, and then waiting jobs are placed as asked, with leases that end `lease` after `now`.
   */
  lemma ScheduleExactly(s: State, caller: NodeId, now: int, lease: int, expiry: seq<AllocationId>, queue: seq<JobId>) returns (t: State)
    requires Inv(s) && Fits(s, Schedule(caller, now, lease, expiry, queue))
    ensures var (r, error) := Step(s, Schedule(caller, now, lease, expiry, queue));
            if s.leader != Some(caller) then error == Some(NotLeader) && r == s
            else if lease < 1 then error == Some(InvalidArgument) && r == s
            else error == None && Recovered(s, t, now) && LoggedAmong(s, t, s.allocations.Keys, now) && Inv(t) && Passed(t, r, Waiting(t), now, lease)
  {
    t := Recover(s, expiry, now);
    hide Recover, PlaceAll, Inv, Passed, Recovered, LoggedAmong;
    RecoverExactly(s, expiry, now);
    RecoverKeepsInv(s, expiry, now);
    PassExactly(t, queue, now, lease);
    assert Elements(queue) == Waiting(t);
  }

  lemma KeptByRecovery(s: State, t: State, now: int, id: AllocationId)
    requires Recovered(s, t, now)
    ensures id in t.allocations <==> id in s.allocations && now < s.allocations[id].leaseExpiresAt
    ensures id in t.allocations ==> t.allocations[id] == s.allocations[id]
  {
    hide GivenBack, Owns;
  }

  lemma KeptByPass(t: State, r: State, queue: set<JobId>, now: int, lease: int, id: AllocationId)
    requires Passed(t, r, queue, now, lease)
    ensures id in t.allocations ==> id in r.allocations && r.allocations[id] == t.allocations[id]
    ensures id in r.allocations && id !in t.allocations ==> r.allocations[id].leaseExpiresAt == now + lease
  {
    hide NowScheduled, Served, MayUseCpu, MayUseGpu;
    assert id in r.allocations && id !in t.allocations ==> Added(t, r.allocations[id], queue, now, lease);
  }

  /** After an accepted scheduling call at `now` every lease ends later, and every new one `lease` later. */
  lemma LeasesAfterSchedule(s: State, caller: NodeId, now: int, lease: int, expiry: seq<AllocationId>, queue: seq<JobId>)
    requires Inv(s) && Fits(s, Schedule(caller, now, lease, expiry, queue))
    ensures var (r, error) := Step(s, Schedule(caller, now, lease, expiry, queue));
            error == None ==>
              && (forall id :: id in s.allocations && now < s.allocations[id].leaseExpiresAt ==>
                    id in r.allocations && r.allocations[id] == s.allocations[id])
              && (forall id :: id in r.allocations ==>
                    now < r.allocations[id].leaseExpiresAt
                    && ((id in s.allocations && r.allocations[id] == s.allocations[id]) || r.allocations[id].leaseExpiresAt == now + lease))
  {
    var t := ScheduleExactly(s, caller, now, lease, expiry, queue);
    hide *;
    var (r, error) := Step(s, Schedule(caller, now, lease, expiry, queue));
    if error == None {
      forall id: AllocationId
        ensures id in s.allocations && now < s.allocations[id].leaseExpiresAt ==> id in r.allocations && r.allocations[id] == s.allocations[id]
        ensures id in r.allocations ==>
                  && now < r.allocations[id].leaseExpiresAt
                  && ((id in s.allocations && r.allocations[id] == s.allocations[id]) || r.allocations[id].leaseExpiresAt == now + lease)
      {
        KeptByRecovery(s, t, now, id);
        KeptByPass(t, r, Waiting(t), now, lease, id);
      }
    }
  }
}
