/** The mutable resource scheduler of lab 38; its methods compute the steps of the value model. */
module SchedulerObject {
  import opened Options
  import opened Sequences
  import opened Sums
  import opened Scheduler
  import opened SchedulerSafety

  class ResourceScheduler {
    const heartbeatTimeout: int
    const quotas: map<string, Quota>
    var log: seq<LogEntry>
    var nodes: map<NodeId, Inventory>
    var jobs: map<JobId, Job>
    var allocations: map<AllocationId, Allocation>
    var sequence: nat
    var leader: Option<NodeId>
    var term: int

    function Now(): State
      reads this
    {
      State(heartbeatTimeout, quotas, log, nodes, jobs, allocations, sequence, leader, term)
    }

    constructor (heartbeatTimeout: int, quotas: map<string, Quota>)
      ensures Now() == State(heartbeatTimeout, quotas, [], map[], map[], map[], 0, None, 0)
    {
      this.heartbeatTimeout, this.quotas := heartbeatTimeout, quotas;
      log, nodes, jobs, allocations, sequence, leader, term := [], map[], map[], map[], 0, None, 0;
    }

    // ---------- what is in use ----------

    /** The memory that active allocations hold on a node. */
    method MemoryOn(n: NodeId) returns (used: nat)
      ensures used == UsedMemory(Now(), n)
    {
      used := 0;
      var rest := allocations;
      while rest != map[]
        invariant used + Total(HeldOn(rest, n)) == UsedMemory(Now(), n)
        decreases |rest|
      {
        var id :| id in rest;
        HeldFalls(rest, id, n);
        FewerKeys(rest, id);
        if rest[id].node == n {
          used := used + Natural(rest[id].memory);
        }
        rest := rest - {id};
      }
      NoneHeld(n);
    }

    /** What a project's active allocations take of one resource. */
    method Sum(project: string, what: Resource) returns (used: nat)
      ensures used == Usage(Now(), project, what)
    {
      used := 0;
      var rest := allocations;
      while rest != map[]
        invariant used + Total(Taken(rest, project, what)) == Usage(Now(), project, what)
        decreases |rest|
      {
        var id :| id in rest;
        TakenFalls(rest, id, project, what);
        FewerKeys(rest, id);
        if rest[id].project == project {
          used := used + Amount(rest[id], what);
        }
        rest := rest - {id};
      }
      NoneTaken(project, what);
    }

    method CheckQuota(j: Job) returns (within: bool)
      ensures within == WithinQuota(Now(), j)
    {
      if j.project !in quotas {
        return true;
      }
      var q := quotas[j.project];
      var slots := Sum(j.project, Slots);
      var cores := Sum(j.project, Cores);
      var memory := Sum(j.project, Memory);
      var gpus := Sum(j.project, Gpus);
      within := slots + 1 <= q.jobs && cores + j.request.cpuCores <= q.cpuCores
                && memory + j.request.memory <= q.memory && gpus + j.request.gpuCount <= q.gpuCount;
      FourResources(Now(), j);
    }

    method CheckFit(r: Request, n: Inventory) returns (fits: bool)
      ensures fits == AvailableFit(Now(), r, n)
    {
      if !StaticallyFits(r, n) {
        return false;
      }
      var used := MemoryOn(n.id);
      fits := |FreeCpus(Now(), r, n)| >= r.cpuCores && n.memory - used >= r.memory && |FreeGpus(Now(), r, n)| >= r.gpuCount;
    }

    method CompareScores(r: Request, a: Inventory, b: Inventory) returns (below: bool)
      ensures below == ScoresBelow(Now(), r, a, b)
    {
      var m := MemoryOn(a.id);
      var n := MemoryOn(b.id);
      var p, q := LocalGpuPenalty(Now(), r, a), LocalGpuPenalty(Now(), r, b);
      var c, d := |a.cpus| - |UsedCpus(Now(), a.id)|, |b.cpus| - |UsedCpus(Now(), b.id)|;
      below := p < q || (p == q && (c < d || (c == d && (a.memory - m < b.memory - n || (a.memory - m == b.memory - n && a.id <= b.id)))));
    }

    // ---------- one placement ----------

    /** The nodes with a fresh heartbeat on which the request fits. */
    method FindCandidates(r: Request, now: int) returns (found: set<NodeId>)
      ensures found == Candidates(Now(), r, now)
    {
      found := {};
      var rest := nodes.Keys;
      while rest != {}
        invariant rest <= nodes.Keys
        invariant forall n :: n in found <==> n in Candidates(Now(), r, now) && n !in rest
      {
        var n :| n in rest;
        if now - nodes[n].heartbeatAt <= heartbeatTimeout {
          var fits := CheckFit(r, nodes[n]);
          if fits {
            found := found + {n};
          }
        }
        rest := rest - {n};
      }
    }

    /** `min` by score. */
    method PickBest(r: Request, candidates: set<NodeId>) returns (best: NodeId)
      requires candidates <= nodes.Keys && candidates != {} && NodesOk(Now())
      ensures best == Best(Now(), r, candidates) && best in candidates
    {
      hide ScoresBelow;
      best :| best in candidates;
      var rest := candidates - {best};
      ScoreItself(Now(), r, nodes[best]);
      while rest != {}
        invariant best in candidates && rest <= candidates
        invariant forall m :: m in candidates && m !in rest ==> ScoresBelow(Now(), r, nodes[best], nodes[m])
      {
        var n :| n in rest;
        var below := CompareScores(r, nodes[best], nodes[n]);
        if !below {
          ScoreOrder(Now(), r, nodes[best], nodes[n]);
          forall m | m in candidates && m !in rest - {n} ensures ScoresBelow(Now(), r, nodes[n], nodes[m]) {
            ScoreItself(Now(), r, nodes[n]);
            if m != n {
              ScoreChain(Now(), r, nodes[n], nodes[best], nodes[m]);
            }
          }
          best := n;
        }
        rest := rest - {n};
      }
      BestIsUnique(Now(), r, candidates, best);
    }

    /** `_reserve`. */
    method ReserveOn(j: Job, n: Inventory, now: int, lease: int)
      modifies this`log, this`allocations, this`jobs
      ensures Now() == Reserve(old(Now()), j, n, now, lease)
    {
      var cpus := Smallest(FreeCpus(Now(), j.request, n), Natural(j.request.cpuCores));
      var gpus := FirstGpus(FreeGpus(Now(), j.request, n), Natural(j.request.gpuCount));
      var a := Allocation(|log| + 1, j.id, j.project, n.id, cpus, j.request.memory, gpus, j.request.numaNode, term, now + lease);
      log := log + [LogEntry(|log| + 1, term, Reserved, j.id, Some(n.id))];
      allocations := allocations[a.id := a];
      jobs := jobs[j.id := j.(state := Scheduled, attempts := j.attempts + 1, lastError := None)];
    }

    /** One job's turn in a scheduling pass. */
    method Place(id: JobId, now: int, lease: int)
      requires id in jobs && NodesOk(Now())
      modifies this`log, this`allocations, this`jobs
      ensures Now() == PlaceOne(old(Now()), id, now, lease)
    {
      hide WithinQuota, Reserve, AvailableFit, NodesOk, IsBest;
      var within := CheckQuota(jobs[id]);
      if within {
        var candidates := FindCandidates(jobs[id].request, now);
        if candidates != {} {
          var best := PickBest(jobs[id].request, candidates);
          ReserveOn(jobs[id], nodes[best], now, lease);
        }
      }
    }

    // ---------- state changes ----------

    /** `_transition`. */
    method MoveTo(j: Job, state: JobState, event: Happening, node: Option<NodeId>, error: Option<string>)
      modifies this`log, this`jobs
      ensures Now() == Transition(old(Now()), j, state, event, node, error)
    {
      log := log + [LogEntry(|log| + 1, term, event, j.id, node)];
      jobs := jobs[j.id := j.(state := state, lastError := error)];
    }

    method LetGo(a: Allocation, state: JobState, event: Happening, error: Option<string>)
      requires a.job in jobs
      modifies this`log, this`jobs, this`allocations
      ensures Now() == Release(old(Now()), a, state, event, error)
    {
      MoveTo(jobs[a.job], state, event, Some(a.node), error);
      allocations := allocations - {a.id};
    }

    /** The allocations in some order; the source takes the order of their ids as text. */
    method ListAllocations() returns (ids: seq<AllocationId>)
      ensures IsEnumeration(Now(), ids)
    {
      ids := [];
      var rest := allocations.Keys;
      while rest != {}
        invariant rest <= allocations.Keys && Distinct(ids)
        invariant forall a :: a in ids <==> a in allocations && a !in rest
      {
        var a :| a in rest;
        ids, rest := ids + [a], rest - {a};
      }
    }

    method RecoverAll(now: int) returns (ghost expiry: seq<AllocationId>)
      modifies this`log, this`jobs, this`allocations
      ensures IsEnumeration(old(Now()), expiry) && Now() == Recover(old(Now()), expiry, now)
    {
      var ids := ListAllocations();
      expiry := ids;
      hide Release, IsEnumeration, Distinct;
      var i := 0;
      while i < |ids|
        invariant i <= |ids| && Now() == Recover(old(Now()), ids[..i], now)
      {
        assert ids[..i + 1][..i] == ids[..i];
        if ids[i] in allocations && allocations[ids[i]].leaseExpiresAt <= now && allocations[ids[i]].job in jobs {
          var a := allocations[ids[i]];
          var j := jobs[a.job];
          LetGo(a, if j.attempts < j.maxAttempts then Queued else Failed, LeaseExpired, Some(EXPIRED));
        }
        i := i + 1;
      }
      assert ids[..i] == ids;
    }

    /** `sorted` over the queued jobs. */
    method SortQueue() returns (queue: seq<JobId>)
      requires forall j :: j in jobs ==> jobs[j].id == j
      ensures IsQueueOrder(Now(), queue)
    {
      hide GoesBefore;
      queue := [];
      var rest := set j | j in jobs && jobs[j].state == Queued;
      while rest != {}
        invariant Distinct(queue)
        invariant forall j :: j in rest ==> j in jobs && jobs[j].state == Queued && j !in queue
        invariant forall j :: j in queue ==> j in jobs && jobs[j].state == Queued
        invariant forall j :: j in jobs && jobs[j].state == Queued ==> j in queue || j in rest
        invariant forall i, k :: 0 <= i < k < |queue| ==> GoesBefore(jobs[queue[i]], jobs[queue[k]])
        invariant forall i, k :: 0 <= i < |queue| && k in rest ==> GoesBefore(jobs[queue[i]], jobs[k])
        decreases |rest|
      {
        var next := FirstOf(jobs, rest);
        queue, rest := queue + [next], rest - {next};
      }
    }

    // ---------- public methods ----------

    method BecomeLeaderFor(node: NodeId, newTerm: int) returns (error: Option<SchedulerError>)
      modifies this`leader, this`term
      ensures (Now(), error) == Step(old(Now()), BecomeLeader(node, newTerm))
    {
      if newTerm <= term {
        return Some(StaleTerm);
      }
      leader, term := Some(node), newTerm;
      return None;
    }

    method ReceiveHeartbeat(inventory: Inventory) returns (error: Option<SchedulerError>)
      modifies this`nodes
      ensures (Now(), error) == Step(old(Now()), Heartbeat(inventory))
    {
      if inventory.id in nodes && inventory.heartbeatAt < nodes[inventory.id].heartbeatAt {
        return Some(StaleHeartbeat);
      }
      nodes := nodes[inventory.id := inventory];
      return None;
    }

    method SubmitJob(job: JobId, project: string, request: Request, priority: int, maxAttempts: int, wellFormed: bool)
      returns (error: Option<SchedulerError>)
      modifies this`log, this`jobs, this`sequence
      ensures (Now(), error) == Step(old(Now()), Submit(job, project, request, priority, maxAttempts, wellFormed))
    {
      if !wellFormed || !(0 <= priority <= 100) || maxAttempts < 1 || job in jobs {
        return Some(InvalidSubmission);
      }
      if nodes != map[] && forall n :: n in nodes ==> !StaticallyFits(request, nodes[n]) {
        return Some(Unschedulable);
      }
      sequence := sequence + 1;
      jobs := jobs[job := Job(job, project, request, priority, sequence, maxAttempts, 0, Queued, None)];
      log := log + [LogEntry(|log| + 1, term, Submitted, job, None)];
      return None;
    }

    method RunPass(caller: NodeId, now: int, lease: int)
      returns (error: Option<SchedulerError>, ghost expiry: seq<AllocationId>, ghost queue: seq<JobId>)
      requires Inv(Now())
      modifies this`log, this`jobs, this`allocations
      ensures (Now(), error) == Step(old(Now()), Schedule(caller, now, lease, expiry, queue))
      ensures error == None ==> Fits(old(Now()), Schedule(caller, now, lease, expiry, queue))
    {
      expiry, queue := [], [];
      if leader != Some(caller) {
        return Some(NotLeader), expiry, queue;
      }
      if lease < 1 {
        return Some(InvalidArgument), expiry, queue;
      }
      hide PlaceAll, PlaceOne, Recover, Inv, IsEnumeration, IsQueueOrder, Transition;
      expiry := RecoverAll(now);
      RecoverKeepsInv(old(Now()), expiry, now);
      JobsKnowTheirIds(Now());
      var order := SortQueue();
      queue := order;
      ghost var start := Now();
      QueueIsQueued(start, order);
      PlaceNothing(start, now, lease);
      var i := 0;
      while i < |order|
        invariant i <= |order| && Now() == PlaceAll(start, order[..i], now, lease)
        invariant leader == Some(caller)
      {
        PassKeepsInv(start, order, i, now, lease);
        PlaceNext(start, order, i, now, lease);
        Place(order[i], now, lease);
        i := i + 1;
      }
      assert order[..i] == order;
      return None, expiry, queue;
    }

    method MarkStarted(id: AllocationId, caller: NodeId) returns (error: Option<SchedulerError>)
      modifies this`log, this`jobs
      ensures (Now(), error) == Step(old(Now()), MarkRunning(id, caller))
    {
      if leader != Some(caller) {
        return Some(NotLeader);
      }
      if id !in allocations {
        return Some(UnknownAllocation);
      }
      var a := allocations[id];
      if a.job !in jobs {
        return Some(UnknownJob);
      }
      if jobs[a.job].state != Scheduled {
        return Some(InvalidTransition);
      }
      MoveTo(jobs[a.job], Running, Started, Some(a.node), None);
      return None;
    }

    method CompleteAllocation(id: AllocationId, caller: NodeId, succeeded: bool, message: Option<string>)
      returns (error: Option<SchedulerError>)
      modifies this`log, this`jobs, this`allocations
      ensures (Now(), error) == Step(old(Now()), Complete(id, caller, succeeded, message))
    {
      if leader != Some(caller) {
        return Some(NotLeader);
      }
      if id !in allocations {
        return Some(UnknownAllocation);
      }
      var a := allocations[id];
      if a.job !in jobs {
        return Some(UnknownJob);
      }
      if !IsActive(jobs[a.job].state) {
        return Some(InvalidTransition);
      }
      LetGo(a, if succeeded then Succeeded else Failed, if succeeded then Succeeds else Fails, message);
      return None;
    }

    method CancelJob(id: JobId, caller: NodeId) returns (error: Option<SchedulerError>)
      requires Inv(Now())
      modifies this`log, this`jobs, this`allocations
      ensures (Now(), error) == Step(old(Now()), Cancel(id, caller))
    {
      hide Inv, Release, Transition;
      if leader != Some(caller) {
        return Some(NotLeader);
      }
      if id !in jobs {
        return Some(UnknownJob);
      }
      if jobs[id].state != Queued && !IsActive(jobs[id].state) {
        return Some(InvalidTransition);
      }
      OwnedOrNot(Now(), id);
      OnlyOne(Now(), id);
      var found := FindAllocation(id);
      if found.Some? {
        LetGo(found.value, Cancelled, Cancels, None);
      } else {
        MoveTo(jobs[id], Cancelled, Cancels, None, None);
      }
      return None;
    }

    /** `next` over the allocations of a job. */
    method FindAllocation(id: JobId) returns (found: Option<Allocation>)
      requires forall a :: a in allocations && allocations[a].job == id ==> AllocationOf(Now(), id) == Some(allocations[a])
      requires AllocationOf(Now(), id).Some? ==> exists a :: a in allocations && allocations[a].job == id
      ensures found == AllocationOf(Now(), id)
    {
      found := None;
      var rest := allocations.Keys;
      while rest != {}
        invariant rest <= allocations.Keys
        invariant found.None? ==> forall a :: a in allocations && allocations[a].job == id ==> a in rest
        invariant found.Some? ==> found == AllocationOf(Now(), id)
      {
        var a :| a in rest;
        if allocations[a].job == id {
          found := Some(allocations[a]);
        }
        rest := rest - {a};
      }
    }

    method RecoverExpiredLeases(caller: NodeId, now: int) returns (error: Option<SchedulerError>, ghost expiry: seq<AllocationId>)
      modifies this`log, this`jobs, this`allocations
      ensures (Now(), error) == Step(old(Now()), RecoverExpired(caller, now, expiry))
      ensures error == None ==> Fits(old(Now()), RecoverExpired(caller, now, expiry))
    {
      expiry := [];
      if leader != Some(caller) {
        return Some(NotLeader), expiry;
      }
      hide Recover, IsEnumeration;
      expiry := RecoverAll(now);
      return None, expiry;
    }
  }

  lemma OnlyOne(s: State, id: JobId)
    requires Inv(s)
    ensures forall a :: a in s.allocations && s.allocations[a].job == id ==> AllocationOf(s, id) == Some(s.allocations[a])
  {
    hide Apart, Attempts, QuotasKept, LogOk, Replays;
  }

  lemma JobsKnowTheirIds(s: State)
    requires Inv(s)
    ensures forall j :: j in s.jobs ==> s.jobs[j].id == j
  {
  }

  lemma QueueIsQueued(s: State, queue: seq<JobId>)
    requires IsQueueOrder(s, queue)
    ensures Distinct(queue) && forall j :: j in queue ==> j in s.jobs && s.jobs[j].state == Queued
  {
  }

  lemma PlaceNothing(s: State, now: int, lease: int)
    ensures PlaceAll(s, [], now, lease) == s
  {
  }

  lemma PlaceNext(s: State, queue: seq<JobId>, i: nat, now: int, lease: int)
    requires i < |queue|
    ensures PlaceAll(s, queue[..i + 1], now, lease) == PlaceOne(PlaceAll(s, queue[..i], now, lease), queue[i], now, lease)
  {
    assert queue[..i + 1][..i] == queue[..i];
  }

  lemma PassKeepsInv(s: State, queue: seq<JobId>, i: nat, now: int, lease: int)
    requires Inv(s) && i < |queue| && Distinct(queue) && forall j :: j in queue ==> j in s.jobs && s.jobs[j].state == Queued
    ensures NodesOk(PlaceAll(s, queue[..i], now, lease)) && queue[i] in PlaceAll(s, queue[..i], now, lease).jobs
  {
    hide PlaceAll;
    PlaceAllKeepsInv(s, queue[..i], now, lease);
    assert queue[i] in queue;
  }

  ghost predicate IsFirst(jobs: map<JobId, Job>, among: set<JobId>, first: JobId)
    requires among <= jobs.Keys
  {
    first in among && forall j :: j in among && j != first ==> GoesBefore(jobs[first], jobs[j])
  }

  method FirstOf(jobs: map<JobId, Job>, among: set<JobId>) returns (first: JobId)
    requires among <= jobs.Keys && among != {} && forall j :: j in jobs ==> jobs[j].id == j
    ensures IsFirst(jobs, among, first)
  {
    first :| first in among;
    var rest := among - {first};
    while rest != {}
      invariant first in among && rest <= among && first !in rest
      invariant forall j :: j in among && j !in rest && j != first ==> GoesBefore(jobs[first], jobs[j])
      decreases |rest|
    {
      var j :| j in rest;
      if GoesBefore(jobs[j], jobs[first]) {
        first := j;
      }
      rest := rest - {j};
    }
  }

  lemma ScoreItself(s: State, r: Request, a: Inventory)
    ensures ScoresBelow(s, r, a, a)
  {
  }

  lemma ScoreOrder(s: State, r: Request, a: Inventory, b: Inventory)
    ensures ScoresBelow(s, r, a, b) || ScoresBelow(s, r, b, a)
  {
    hide UsedCpus, UsedMemory, LocalGpuPenalty;
  }

  lemma ScoreChain(s: State, r: Request, a: Inventory, b: Inventory, c: Inventory)
    requires ScoresBelow(s, r, a, b) && ScoresBelow(s, r, b, c)
    ensures ScoresBelow(s, r, a, c)
  {
    hide UsedCpus, UsedMemory, LocalGpuPenalty;
  }

  /** Node ids break every tie, so there is only one best node. */
  lemma BestIsUnique(s: State, r: Request, candidates: set<NodeId>, best: NodeId)
    requires candidates <= s.nodes.Keys && candidates != {} && NodesOk(s) && IsBest(s, r, candidates, best)
    ensures best == Best(s, r, candidates)
  {
    hide UsedCpus, UsedMemory, LocalGpuPenalty;
    var other := Best(s, r, candidates);
    assert ScoresBelow(s, r, s.nodes[best], s.nodes[other]) && ScoresBelow(s, r, s.nodes[other], s.nodes[best]);
  }

  lemma FewerKeys<K, V>(m: map<K, V>, k: K)
    requires k in m
    ensures |m - {k}| < |m|
  {
    assert (m - {k}).Keys == m.Keys - {k};
  }

  lemma NoneHeld(n: NodeId)
    ensures Total(HeldOn(map[], n)) == 0
  {
    assert HeldOn(map[], n) == map[];
  }

  lemma NoneTaken(project: string, what: Resource)
    ensures Total(Taken(map[], project, what)) == 0
  {
    assert Taken(map[], project, what) == map[];
  }

  lemma FourResources(s: State, j: Job)
    requires j.project in s.quotas
    ensures var q := s.quotas[j.project];
            WithinQuota(s, j) <==>
              && Usage(s, j.project, Slots) + 1 <= q.jobs
              && Usage(s, j.project, Cores) + j.request.cpuCores <= q.cpuCores
              && Usage(s, j.project, Memory) + j.request.memory <= q.memory
              && Usage(s, j.project, Gpus) + j.request.gpuCount <= q.gpuCount
  {
    hide Usage;
    var q := s.quotas[j.project];
    if WithinQuota(s, j) {
      assert Usage(s, j.project, Slots) + Asked(j.request, Slots) <= Limit(q, Slots);
      assert Usage(s, j.project, Cores) + Asked(j.request, Cores) <= Limit(q, Cores);
      assert Usage(s, j.project, Memory) + Asked(j.request, Memory) <= Limit(q, Memory);
      assert Usage(s, j.project, Gpus) + Asked(j.request, Gpus) <= Limit(q, Gpus);
    }
  }
}
