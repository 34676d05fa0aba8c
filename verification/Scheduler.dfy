/** The resource scheduler of lab 38 as a value, and one function for each of its public methods. */
module Scheduler {
  import opened Options
  import opened Sequences
  import opened Sets
  import opened Sums

  type JobId = nat

  type NodeId = nat

  type AllocationId = nat

  datatype JobState = Queued | Scheduled | Running | Succeeded | Failed | Cancelled

  datatype Request = Request(
    cpuCores: int, memory: int, gpuCount: int, gpuClass: Option<string>,
    numaNode: Option<int>, affinity: set<int>, labels: set<string>)

  datatype Gpu = Gpu(id: nat, deviceClass: string, numaNode: Option<int>)

  datatype Inventory = Inventory(
    id: NodeId, cpus: set<int>, memory: int, gpus: seq<Gpu>, numaCpus: map<int, set<int>>, labels: set<string>, heartbeatAt: int)

  datatype Quota = Quota(jobs: int, cpuCores: int, memory: int, gpuCount: int)

  datatype Job = Job(
    id: JobId, project: string, request: Request, priority: int, sequence: nat, maxAttempts: int,
    attempts: nat, state: JobState, lastError: Option<string>)

  datatype Allocation = Allocation(
    id: AllocationId, job: JobId, project: string, node: NodeId, cpus: set<int>, memory: int, gpus: seq<nat>,
    numaNode: Option<int>, leaderTerm: int, leaseExpiresAt: int)

  datatype Happening = Submitted | Reserved | Started | Succeeds | Fails | Cancels | LeaseExpired

  datatype LogEntry = LogEntry(revision: nat, leaderTerm: int, event: Happening, job: JobId, node: Option<NodeId>)

  datatype State = State(
    heartbeatTimeout: int, quotas: map<string, Quota>, log: seq<LogEntry>, nodes: map<NodeId, Inventory>, jobs: map<JobId, Job>,
    allocations: map<AllocationId, Allocation>, sequence: nat, leader: Option<NodeId>, term: int)

  datatype SchedulerError =
    | NotLeader | StaleTerm | InvalidArgument | StaleHeartbeat | InvalidSubmission | Unschedulable
    | UnknownJob | UnknownAllocation | InvalidTransition

  // ---------- what constructors guarantee ----------

  ghost predicate ValidRequest(r: Request) {
    1 <= r.cpuCores && 1 <= r.memory && 0 <= r.gpuCount
  }

  ghost predicate ValidInventory(n: Inventory) {
    && n.cpus != {} && 1 <= n.memory
    && (forall k :: k in n.numaCpus ==> n.numaCpus[k] <= n.cpus)
    && forall i, j :: 0 <= i < j < |n.gpus| ==> n.gpus[i].id != n.gpus[j].id
  }

  ghost predicate ValidQuota(q: Quota) {
    1 <= q.jobs && 1 <= q.cpuCores && 1 <= q.memory && 0 <= q.gpuCount
  }

  // ---------- what a node offers ----------

  /** The eligible CPUs, as a set: affinity is cut down to the node only through a NUMA node. */
  function EligibleCpus(r: Request, n: Inventory): set<int> {
    var cpus := if r.affinity != {} then r.affinity else n.cpus;
    if r.numaNode == None then cpus
    else cpus * (if r.numaNode.value in n.numaCpus then n.numaCpus[r.numaNode.value] else {})
  }

  predicate GpuMatches(r: Request, g: Gpu) {
    (r.gpuClass == None || Some(g.deviceClass) == r.gpuClass) && (r.numaNode == None || g.numaNode == r.numaNode)
  }

  function Matching(r: Request): Gpu -> bool {
    (g: Gpu) => GpuMatches(r, g)
  }

  function EligibleGpus(r: Request, n: Inventory): seq<Gpu> {
    Filter(n.gpus, Matching(r))
  }

  predicate StaticallyFits(r: Request, n: Inventory) {
    && r.labels <= n.labels && r.memory <= n.memory
    && |EligibleCpus(r, n)| >= r.cpuCores && |EligibleGpus(r, n)| >= r.gpuCount
  }

  // ---------- what is in use ----------

  function UsedCpus(s: State, n: NodeId): set<int> {
    set a, cpu | a in s.allocations && s.allocations[a].node == n && cpu in s.allocations[a].cpus :: cpu
  }

  function UsedGpus(s: State, n: NodeId): set<nat> {
    set a, gpu | a in s.allocations && s.allocations[a].node == n && gpu in s.allocations[a].gpus :: gpu
  }

  function Natural(x: int): nat {
    if x < 0 then 0 else x
  }

  type Allocations = map<AllocationId, Allocation>

  ghost function HeldOn(allocations: Allocations, n: NodeId): map<AllocationId, nat> {
    map a | a in allocations && allocations[a].node == n :: Natural(allocations[a].memory)
  }

  ghost function UsedMemory(s: State, n: NodeId): nat {
    Total(HeldOn(s.allocations, n))
  }

  function FreeCpus(s: State, r: Request, n: Inventory): set<int> {
    EligibleCpus(r, n) - UsedCpus(s, n.id)
  }

  function NotIn(used: set<nat>): Gpu -> bool {
    (g: Gpu) => g.id !in used
  }

  function FreeGpus(s: State, r: Request, n: Inventory): seq<Gpu> {
    Filter(EligibleGpus(r, n), NotIn(UsedGpus(s, n.id)))
  }

  ghost predicate AvailableFit(s: State, r: Request, n: Inventory) {
    && StaticallyFits(r, n)
    && |FreeCpus(s, r, n)| >= r.cpuCores
    && n.memory - UsedMemory(s, n.id) >= r.memory
    && |FreeGpus(s, r, n)| >= r.gpuCount
  }

  // ---------- quotas ----------

  datatype Resource = Slots | Cores | Memory | Gpus

  function Amount(a: Allocation, what: Resource): nat {
    match what
    case Slots => 1
    case Cores => |a.cpus|
    case Memory => Natural(a.memory)
    case Gpus => |a.gpus|
  }

  function Asked(r: Request, what: Resource): int {
    match what
    case Slots => 1
    case Cores => r.cpuCores
    case Memory => r.memory
    case Gpus => r.gpuCount
  }

  function Limit(q: Quota, what: Resource): int {
    match what
    case Slots => q.jobs
    case Cores => q.cpuCores
    case Memory => q.memory
    case Gpus => q.gpuCount
  }

  /** What the active allocations of a project take of a resource. */
  ghost function Usage(s: State, project: string, what: Resource): nat {
    Total(Taken(s.allocations, project, what))
  }

  ghost function Taken(allocations: Allocations, project: string, what: Resource): map<AllocationId, nat> {
    map a | a in allocations && allocations[a].project == project :: Amount(allocations[a], what)
  }

  ghost predicate WithinQuota(s: State, j: Job) {
    j.project in s.quotas ==>
      forall what :: Usage(s, j.project, what) + Asked(j.request, what) <= Limit(s.quotas[j.project], what)
  }

  // ---------- placement ----------

  ghost function Candidates(s: State, r: Request, now: int): set<NodeId> {
    set n | n in s.nodes && now - s.nodes[n].heartbeatAt <= s.heartbeatTimeout && AvailableFit(s, r, s.nodes[n])
  }

  function LocalGpu(r: Request): Gpu -> bool {
    (g: Gpu) => g.numaNode == r.numaNode
  }

  function LocalGpuPenalty(s: State, r: Request, n: Inventory): int {
    if r.numaNode == None || r.gpuCount == 0 then 0
    else if |Filter(FreeGpus(s, r, n), LocalGpu(r))| >= r.gpuCount then 0 else 1
  }

  /** Scores compare field by field; the node id breaks ties. */
  ghost predicate ScoresBelow(s: State, r: Request, a: Inventory, b: Inventory) {
    var (p, q) := (LocalGpuPenalty(s, r, a), LocalGpuPenalty(s, r, b));
    var (c, d) := (|a.cpus| - |UsedCpus(s, a.id)|, |b.cpus| - |UsedCpus(s, b.id)|);
    var (m, n) := (a.memory - UsedMemory(s, a.id), b.memory - UsedMemory(s, b.id));
    p < q || (p == q && (c < d || (c == d && (m < n || (m == n && a.id <= b.id)))))
  }

  ghost predicate IsBest(s: State, r: Request, nodes: set<NodeId>, n: NodeId)
    requires nodes <= s.nodes.Keys
  {
    n in nodes && forall m :: m in nodes ==> ScoresBelow(s, r, s.nodes[n], s.nodes[m])
  }

  lemma BestExists(s: State, r: Request, nodes: set<NodeId>) returns (best: NodeId)
    requires nodes <= s.nodes.Keys && nodes != {}
    ensures IsBest(s, r, nodes, best)
  {
    hide UsedCpus, UsedMemory, LocalGpuPenalty;
    best :| best in nodes;
    var first, rest := best, nodes - {best};
    if rest != {} {
      var other := BestExists(s, r, rest);
      best := if ScoresBelow(s, r, s.nodes[first], s.nodes[other]) then first else other;
    }
    forall m | m in nodes ensures ScoresBelow(s, r, s.nodes[best], s.nodes[m]) {
      assert m == first || m in rest;
    }
  }

  ghost function Best(s: State, r: Request, nodes: set<NodeId>): (best: NodeId)
    requires nodes <= s.nodes.Keys && nodes != {}
    ensures IsBest(s, r, nodes, best)
  {
    assert exists n :: IsBest(s, r, nodes, n) by { var n := BestExists(s, r, nodes); }
    var n :| IsBest(s, r, nodes, n);
    n
  }

  /** The `k` smallest members, in a set. */
  function Smallest(from: set<int>, k: nat): (r: set<int>)
    ensures r <= from && |r| == if k < |from| then k else |from|
  {
    if k == 0 || from == {} then {}
    else {LeastOf(from)} + Smallest(from - {LeastOf(from)}, k - 1)
  }

  /** None that is left out is smaller than one that is taken. */
  lemma {:induction false} SmallestAreLeast(from: set<int>, k: nat, x: int, y: int)
    requires x in Smallest(from, k) && y in from && y !in Smallest(from, k)
    ensures x <= y
    decreases k
  {
    var m := LeastOf(from);
    if x != m {
      SmallestAreLeast(from - {m}, k - 1, x, y);
    }
  }

  function Ids(gpus: seq<Gpu>): (r: seq<nat>)
    ensures |r| == |gpus| && forall i :: 0 <= i < |r| ==> r[i] == gpus[i].id
  {
    seq(|gpus|, i requires 0 <= i < |gpus| => gpus[i].id)
  }

  function FirstGpus(gpus: seq<Gpu>, k: nat): seq<nat> {
    Ids(if k < |gpus| then gpus[..k] else gpus)
  }

  // ---------- state changes ----------

  function Log(s: State, event: Happening, job: JobId, node: Option<NodeId>): State {
    s.(log := s.log + [LogEntry(|s.log| + 1, s.term, event, job, node)])
  }

  function Transition(s: State, j: Job, state: JobState, event: Happening, node: Option<NodeId>, error: Option<string>): State {
    Log(s, event, j.id, node).(jobs := s.jobs[j.id := j.(state := state, lastError := error)])
  }

  ghost function NewAllocation(s: State, j: Job, n: Inventory, now: int, lease: int): Allocation {
    Allocation(|s.log| + 1, j.id, j.project, n.id, Smallest(FreeCpus(s, j.request, n), Natural(j.request.cpuCores)), j.request.memory,
               FirstGpus(FreeGpus(s, j.request, n), Natural(j.request.gpuCount)), j.request.numaNode, s.term, now + lease)
  }

  ghost function Reserve(s: State, j: Job, n: Inventory, now: int, lease: int): State {
    var a := NewAllocation(s, j, n, now, lease);
    Log(s, Reserved, j.id, Some(n.id)).(
      allocations := s.allocations[a.id := a],
      jobs := s.jobs[j.id := j.(state := Scheduled, attempts := j.attempts + 1, lastError := None)])
  }

  /** An active job leaves its allocation for another state. */
  function Release(s: State, a: Allocation, state: JobState, event: Happening, error: Option<string>): State
    requires a.job in s.jobs
  {
    Transition(s, s.jobs[a.job], state, event, Some(a.node), error).(allocations := s.allocations - {a.id})
  }

  const EXPIRED := "allocation lease expired"

  function RecoverOne(s: State, id: AllocationId, now: int): State {
    if id !in s.allocations || s.allocations[id].leaseExpiresAt > now || s.allocations[id].job !in s.jobs then s
    else
      var a := s.allocations[id];
      var j := s.jobs[a.job];
      Release(s, a, if j.attempts < j.maxAttempts then Queued else Failed, LeaseExpired, Some(EXPIRED))
  }

  /** Looks at the allocations in the given order, which for the source is that of their ids as text. */
  function Recover(s: State, ids: seq<AllocationId>, now: int): State {
    if ids == [] then s else RecoverOne(Recover(s, ids[..|ids| - 1], now), ids[|ids| - 1], now)
  }

  /** One job's turn in a scheduling pass. */
  ghost function PlaceOne(s: State, id: JobId, now: int, lease: int): State {
    if id !in s.jobs || !WithinQuota(s, s.jobs[id]) then s
    else
      var j := s.jobs[id];
      var candidates := Candidates(s, j.request, now);
      if candidates == {} then s else Reserve(s, j, s.nodes[Best(s, j.request, candidates)], now, lease)
  }

  ghost function PlaceAll(s: State, queue: seq<JobId>, now: int, lease: int): State {
    if queue == [] then s else PlaceOne(PlaceAll(s, queue[..|queue| - 1], now, lease), queue[|queue| - 1], now, lease)
  }

  /** The queued jobs, higher priority first, then in order of submission. */
  ghost predicate IsQueueOrder(s: State, queue: seq<JobId>) {
    && Distinct(queue)
    && (forall j :: j in queue <==> j in s.jobs && s.jobs[j].state == Queued)
    && forall i, k :: 0 <= i < k < |queue| ==> GoesBefore(s.jobs[queue[i]], s.jobs[queue[k]])
  }

  predicate GoesBefore(j: Job, k: Job) {
    j.priority > k.priority || (j.priority == k.priority && (j.sequence < k.sequence || (j.sequence == k.sequence && j.id < k.id)))
  }

  ghost predicate IsEnumeration(s: State, ids: seq<AllocationId>) {
    Distinct(ids) && forall a :: a in ids <==> a in s.allocations
  }

  // ---------- public calls ----------

  datatype Call =
    | BecomeLeader(node: NodeId, term: int)
    | Heartbeat(inventory: Inventory)
    | Submit(job: JobId, project: string, request: Request, priority: int, maxAttempts: int, wellFormed: bool)
    | Schedule(caller: NodeId, now: int, lease: int, expiry: seq<AllocationId>, queue: seq<JobId>)
    | MarkRunning(allocation: AllocationId, caller: NodeId)
    | Complete(allocation: AllocationId, caller: NodeId, succeeded: bool, error: Option<string>)
    | Cancel(job: JobId, caller: NodeId)
    | RecoverExpired(caller: NodeId, now: int, expiry: seq<AllocationId>)

  predicate IsActive(state: JobState) {
    state == Scheduled || state == Running
  }

  /** The allocation of a job, if it has one. */
  ghost function AllocationOf(s: State, job: JobId): (r: Option<Allocation>)
    ensures r.Some? ==> r.value.job == job && exists a :: a in s.allocations && s.allocations[a] == r.value
    ensures r.None? ==> forall a :: a in s.allocations ==> s.allocations[a].job != job
  {
    if a :| a in s.allocations && s.allocations[a].job == job then Some(s.allocations[a]) else None
  }

  ghost function Step(s: State, c: Call): (State, Option<SchedulerError>) {
    match c
    case BecomeLeader(node, term) =>
      if term <= s.term then (s, Some(StaleTerm)) else (s.(leader := Some(node), term := term), None)
    case Heartbeat(inventory) =>
      if inventory.id in s.nodes && inventory.heartbeatAt < s.nodes[inventory.id].heartbeatAt then (s, Some(StaleHeartbeat))
      else (s.(nodes := s.nodes[inventory.id := inventory]), None)
    case Submit(job, project, request, priority, maxAttempts, wellFormed) =>
      if !wellFormed || !(0 <= priority <= 100) || maxAttempts < 1 || job in s.jobs then (s, Some(InvalidSubmission))
      else if s.nodes != map[] && forall n :: n in s.nodes ==> !StaticallyFits(request, s.nodes[n]) then (s, Some(Unschedulable))
      else
        var j := Job(job, project, request, priority, s.sequence + 1, maxAttempts, 0, Queued, None);
        (Log(s, Submitted, job, None).(sequence := s.sequence + 1, jobs := s.jobs[job := j]), None)
    case Schedule(caller, now, lease, expiry, queue) =>
      if s.leader != Some(caller) then (s, Some(NotLeader))
      else if lease < 1 then (s, Some(InvalidArgument))
      else (PlaceAll(Recover(s, expiry, now), queue, now, lease), None)
    case MarkRunning(id, caller) =>
      if s.leader != Some(caller) then (s, Some(NotLeader))
      else if id !in s.allocations then (s, Some(UnknownAllocation))
      else
        var a := s.allocations[id];
        if a.job !in s.jobs then (s, Some(UnknownJob))
        else if s.jobs[a.job].state != Scheduled then (s, Some(InvalidTransition))
        else (Transition(s, s.jobs[a.job], Running, Started, Some(a.node), None), None)
    case Complete(id, caller, succeeded, error) =>
      if s.leader != Some(caller) then (s, Some(NotLeader))
      else if id !in s.allocations then (s, Some(UnknownAllocation))
      else
        var a := s.allocations[id];
        if a.job !in s.jobs then (s, Some(UnknownJob))
        else if !IsActive(s.jobs[a.job].state) then (s, Some(InvalidTransition))
        else (Release(s, a, if succeeded then Succeeded else Failed, if succeeded then Succeeds else Fails, error), None)
    case Cancel(id, caller) =>
      if s.leader != Some(caller) then (s, Some(NotLeader))
      else if id !in s.jobs then (s, Some(UnknownJob))
      else
        var j := s.jobs[id];
        if j.state != Queued && !IsActive(j.state) then (s, Some(InvalidTransition))
        else
          var a := AllocationOf(s, id);
          if a.Some? then (Release(s, a.value, Cancelled, Cancels, None), None)
          else (Transition(s, j, Cancelled, Cancels, None, None), None)
    case RecoverExpired(caller, now, expiry) =>
      if s.leader != Some(caller) then (s, Some(NotLeader)) else (Recover(s, expiry, now), None)
  }

  /** Arguments that the source's own types and orders allow. */
  ghost predicate Fits(s: State, c: Call) {
    match c
    case Heartbeat(inventory) => ValidInventory(inventory)
    case Submit(_, _, request, _, _, _) => ValidRequest(request)
    case Schedule(_, now, _, expiry, queue) => IsEnumeration(s, expiry) && IsQueueOrder(Recover(s, expiry, now), queue)
    case RecoverExpired(_, _, expiry) => IsEnumeration(s, expiry)
    case _ => true
  }
}
