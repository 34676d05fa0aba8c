/** What a scheduling pass achieves, and safety of the resource scheduler over whole runs (lab 38). */
module SchedulerRuns {
  import opened Options
  import opened Sets
  import opened Sequences
  import opened Sums
  import opened Scheduler
  import opened SchedulerSafety

  // ---------- a pass is maximal ----------

  lemma {:induction false} FilterFewer<T>(s: seq<T>, keep: T -> bool, hold: T -> bool)
    requires forall x :: keep(x) ==> hold(x)
    ensures |Filter(s, keep)| <= |Filter(s, hold)|
  {
    if s != [] {
      FilterFewer(s[..|s| - 1], keep, hold);
    }
  }

  /** In `r` at least as much is in use as in `s`, on the same nodes and under the same quotas. */
  ghost predicate Tighter(s: State, r: State) {
    && r.nodes == s.nodes && r.quotas == s.quotas && r.heartbeatTimeout == s.heartbeatTimeout
    && (forall p, what :: Usage(s, p, what) <= Usage(r, p, what))
    && forall n :: UsedCpus(s, n) <= UsedCpus(r, n) && UsedGpus(s, n) <= UsedGpus(r, n) && UsedMemory(s, n) <= UsedMemory(r, n)
  }

  lemma TighterFits(s: State, r: State, q: Request, n: Inventory)
    requires Tighter(s, r) && AvailableFit(r, q, n)
    ensures AvailableFit(s, q, n)
  {
    hide Usage, UsedMemory, StaticallyFits, EligibleCpus, EligibleGpus, UsedCpus, UsedGpus;
    SubsetSize(FreeCpus(r, q, n), FreeCpus(s, q, n));
    FilterFewer(EligibleGpus(q, n), NotIn(UsedGpus(r, n.id)), NotIn(UsedGpus(s, n.id)));
  }

  /** What could not be placed cannot be placed when more is in use. */
  lemma StillUnplaceable(s: State, r: State, j: Job, now: int)
    requires Tighter(s, r) && (WithinQuota(s, j) ==> Candidates(s, j.request, now) == {})
    ensures WithinQuota(r, j) ==> Candidates(r, j.request, now) == {}
  {
    if WithinQuota(r, j) {
      QuotaLoosens(s, r, j);
      forall n | n in r.nodes && AvailableFit(r, j.request, r.nodes[n]) ensures AvailableFit(s, j.request, s.nodes[n]) {
        TighterFits(s, r, j.request, r.nodes[n]);
      }
      hide AvailableFit, Tighter, WithinQuota;
      forall n | n in Candidates(r, j.request, now) ensures n in Candidates(s, j.request, now) {
      }
    }
  }

  lemma QuotaLoosens(s: State, r: State, j: Job)
    requires Tighter(s, r) && WithinQuota(r, j)
    ensures WithinQuota(s, j)
  {
    hide Usage, Limit, Asked, UsedCpus, UsedGpus, UsedMemory;
  }

  lemma TighterIsTransitive(s: State, r: State, t: State)
    requires Tighter(s, r) && Tighter(r, t)
    ensures Tighter(s, t)
  {
    hide Usage, UsedCpus, UsedGpus, UsedMemory;
  }

  lemma ReserveTightens(s: State, r: State, a: Allocation)
    requires a.id !in s.allocations && r.allocations == s.allocations[a.id := a]
    requires r.nodes == s.nodes && r.quotas == s.quotas && r.heartbeatTimeout == s.heartbeatTimeout
    ensures Tighter(s, r)
  {
    forall p, what ensures Usage(s, p, what) <= Usage(r, p, what) {
      TakenRises(s.allocations, a, p, what);
    }
    forall n ensures UsedMemory(s, n) <= UsedMemory(r, n) {
      HeldRises(s.allocations, a, n);
    }
    hide Total;
    forall n ensures UsedCpus(s, n) <= UsedCpus(r, n) {
      forall cpu | cpu in UsedCpus(s, n) ensures cpu in UsedCpus(r, n) {
        var id :| id in s.allocations && s.allocations[id].node == n && cpu in s.allocations[id].cpus;
        assert id in r.allocations && r.allocations[id] == s.allocations[id];
      }
    }
    forall n ensures UsedGpus(s, n) <= UsedGpus(r, n) {
      forall g | g in UsedGpus(s, n) ensures g in UsedGpus(r, n) {
        var id :| id in s.allocations && s.allocations[id].node == n && g in s.allocations[id].gpus;
        assert id in r.allocations && r.allocations[id] == s.allocations[id];
      }
    }
  }

  lemma TighterItself(s: State)
    ensures Tighter(s, s)
  {
  }

  lemma FreshAllocation(s: State, j: Job, n: Inventory, now: int, lease: int)
    requires Inv(s)
    ensures |s.log| + 1 !in s.allocations
  {
    forall id | id in s.allocations ensures id <= |s.log| {
      assert AllocationOk(s, id);
    }
  }

  /** After its turn a job is no longer queued or cannot be placed, and no more is free than before. */
  lemma PlaceOneSettles(s: State, id: JobId, now: int, lease: int)
    requires Inv(s) && id in s.jobs && s.jobs[id].state == Queued
    ensures var r := PlaceOne(s, id, now, lease);
            && Tighter(s, r) && id in r.jobs
            && (r.jobs[id].state == Queued ==> r == s && (WithinQuota(s, s.jobs[id]) ==> Candidates(s, s.jobs[id].request, now) == {}))
  {
    hide *;
    JobIsItself(s, id);
    TighterItself(s);
    var best := Placement(s, id, now, lease);
    if best.Some? {
      var r, a := Reserve(s, s.jobs[id], best.value, now, lease), NewAllocation(s, s.jobs[id], best.value, now, lease);
      FreshAllocation(s, s.jobs[id], best.value, now, lease);
      ReserveShape(s, s.jobs[id], best.value, now, lease);
      ReserveTightens(s, r, a);
    }
  }

  lemma ReserveShape(s: State, j: Job, n: Inventory, now: int, lease: int)
    requires j.id in s.jobs
    ensures var r, a := Reserve(s, j, n, now, lease), NewAllocation(s, j, n, now, lease);
            && a.id == |s.log| + 1 && a.node == n.id && r.allocations == s.allocations[a.id := a]
            && r.nodes == s.nodes && r.quotas == s.quotas && r.heartbeatTimeout == s.heartbeatTimeout
            && j.id in r.jobs && r.jobs[j.id].state == Scheduled
  {
    hide Smallest, FreeCpus, FreeGpus, FirstGpus;
  }

  ghost predicate Unplaceable(s: State, id: JobId, now: int) {
    id in s.jobs && (s.jobs[id].state == Queued && WithinQuota(s, s.jobs[id]) ==> Candidates(s, s.jobs[id].request, now) == {})
  }

  lemma {:induction false} PlaceAllSettles(s: State, queue: seq<JobId>, now: int, lease: int)
    requires Inv(s) && Distinct(queue) && forall j :: j in queue ==> j in s.jobs && s.jobs[j].state == Queued
    ensures Tighter(s, PlaceAll(s, queue, now, lease))
    ensures forall j :: j in queue ==> Unplaceable(PlaceAll(s, queue, now, lease), j, now)
  {
    hide *;
    if queue == [] {
      PlaceNone(s, now, lease);
      TighterItself(s);
    } else {
      var front, last := queue[..|queue| - 1], queue[|queue| - 1];
      DistinctFront(queue);
      var t, r := PlaceAll(s, front, now, lease), PlaceAll(s, queue, now, lease);
      PlaceLast(s, queue, now, lease);
      PlaceAllSettles(s, front, now, lease);
      PlaceAllKeepsInv(s, front, now, lease);
      PlaceOneSettles(t, last, now, lease);
      PlaceOneKeepsInv(t, last, now, lease);
      TighterIsTransitive(s, t, r);
      UnplaceableNow(t, r, last, now);
      forall j | j in front ensures Unplaceable(r, j, now) {
        UnplaceableLater(t, r, j, now);
      }
    }
  }

  lemma PlaceNone(s: State, now: int, lease: int)
    ensures PlaceAll(s, [], now, lease) == s
  {
  }

  lemma PlaceLast(s: State, queue: seq<JobId>, now: int, lease: int)
    requires queue != []
    ensures PlaceAll(s, queue, now, lease) == PlaceOne(PlaceAll(s, queue[..|queue| - 1], now, lease), queue[|queue| - 1], now, lease)
  {
  }

  lemma DistinctFront(queue: seq<JobId>)
    requires Distinct(queue) && queue != []
    ensures Distinct(queue[..|queue| - 1]) && queue[|queue| - 1] !in queue[..|queue| - 1]
    ensures forall j :: j in queue <==> j in queue[..|queue| - 1] || j == queue[|queue| - 1]
  {
    assert queue == queue[..|queue| - 1] + [queue[|queue| - 1]];
  }

  lemma UnplaceableNow(t: State, r: State, id: JobId, now: int)
    requires id in t.jobs && id in r.jobs
    requires r.jobs[id].state == Queued ==> r == t && (WithinQuota(t, t.jobs[id]) ==> Candidates(t, t.jobs[id].request, now) == {})
    ensures Unplaceable(r, id, now)
  {
    hide WithinQuota, Candidates;
  }

  lemma UnplaceableLater(t: State, r: State, id: JobId, now: int)
    requires Unplaceable(t, id, now) && Tighter(t, r) && id in r.jobs && r.jobs[id] == t.jobs[id]
    ensures Unplaceable(r, id, now)
  {
    hide WithinQuota, Candidates, Tighter;
    if r.jobs[id].state == Queued {
      StillUnplaceable(t, r, r.jobs[id], now);
    }
  }

  /**
   * One pass is maximal: on return no queued job is within its quota and fits a node with a fresh heartbeat, whether or not
   * it was queued before the pass.
   */
  lemma PassLeavesNoCandidate(s: State, caller: NodeId, now: int, lease: int, expiry: seq<AllocationId>, queue: seq<JobId>)
    requires Inv(s) && Fits(s, Schedule(caller, now, lease, expiry, queue))
    ensures var (r, error) := Step(s, Schedule(caller, now, lease, expiry, queue));
            error == None ==>
              forall j :: j in r.jobs && r.jobs[j].state == Queued && WithinQuota(r, r.jobs[j]) ==>
                forall n :: n in r.nodes && now - r.nodes[n].heartbeatAt <= r.heartbeatTimeout ==> !AvailableFit(r, r.jobs[j].request, r.nodes[n])
  {
    var t := Recover(s, expiry, now);
    hide Inv, Recover, WithinQuota, AvailableFit;
    RecoverKeepsInv(s, expiry, now);
    var r := PlaceAll(t, queue, now, lease);
    PlaceAllSettles(t, queue, now, lease);
    PlaceAllKeepsInv(t, queue, now, lease);
    hide PlaceAll;
    forall j | j in t.jobs && j !in queue ensures r.jobs[j].state != Queued {
    }
    forall j, n | j in r.jobs && r.jobs[j].state == Queued && WithinQuota(r, r.jobs[j])
                  && n in r.nodes && now - r.nodes[n].heartbeatAt <= r.heartbeatTimeout
      ensures !AvailableFit(r, r.jobs[j].request, r.nodes[n])
    {
      assert Unplaceable(r, j, now);
      assert n !in Candidates(r, r.jobs[j].request, now);
    }
  }

  // ---------- memory ----------

  /** On every node the allocations' memory fits what the node last reported. */
  ghost predicate MemoryFits(s: State) {
    forall n :: n in s.nodes ==> UsedMemory(s, n) <= s.nodes[n].memory
  }

  /** A heartbeat that is accepted keeps memory within bounds exactly when it reports at least what is in use. */
  lemma HeartbeatFitsExactly(s: State, n: Inventory)
    requires Inv(s) && MemoryFits(s) && Step(s, Heartbeat(n)).1 == None
    ensures MemoryFits(Step(s, Heartbeat(n)).0) <==> UsedMemory(s, n.id) <= n.memory
  {
    hide Inv;
    var r := Step(s, Heartbeat(n)).0;
    assert r == s.(nodes := s.nodes[n.id := n]);
    assert forall m :: UsedMemory(r, m) == UsedMemory(s, m);
  }

  lemma ReleaseFits(s: State, r: State, id: AllocationId)
    requires MemoryFits(s) && id in s.allocations && r.allocations == s.allocations - {id} && r.nodes == s.nodes
    ensures MemoryFits(r)
  {
    hide Total, HeldOn;
    forall n | n in r.nodes ensures UsedMemory(r, n) <= r.nodes[n].memory {
      HeldFalls(s.allocations, id, n);
    }
  }

  lemma {:induction false} RecoverFits(s: State, ids: seq<AllocationId>, now: int)
    requires Inv(s) && MemoryFits(s)
    ensures MemoryFits(Recover(s, ids, now))
  {
    hide Inv, MemoryFits;
    if ids != [] {
      var t, id := Recover(s, ids[..|ids| - 1], now), ids[|ids| - 1];
      RecoverFits(s, ids[..|ids| - 1], now);
      RecoverKeepsInv(s, ids[..|ids| - 1], now);
      if RecoverOne(t, id, now) != t {
        AllocationIsItself(t, id);
        ReleaseFits(t, RecoverOne(t, id, now), id);
      }
    }
  }

  lemma AllocationIsItself(s: State, id: AllocationId)
    requires Inv(s) && id in s.allocations
    ensures s.allocations[id].id == id && s.allocations[id].job in s.jobs && s.allocations[id].node in s.nodes
  {
    assert AllocationOk(s, id);
  }

  lemma PlaceOneFits(s: State, id: JobId, now: int, lease: int)
    requires Inv(s) && MemoryFits(s) && id in s.jobs && s.jobs[id].state == Queued
    ensures MemoryFits(PlaceOne(s, id, now, lease))
  {
    hide *;
    JobIsItself(s, id);
    var best := Placement(s, id, now, lease);
    if best.Some? {
      var j, n := s.jobs[id], best.value;
      FreshAllocation(s, j, n, now, lease);
      ReserveShape(s, j, n, now, lease);
      ReserveMemory(s, Reserve(s, j, n, now, lease), NewAllocation(s, j, n, now, lease), j, n, now, lease);
    }
  }

  lemma ReserveMemory(s: State, r: State, a: Allocation, j: Job, n: Inventory, now: int, lease: int)
    requires MemoryFits(s) && a == NewAllocation(s, j, n, now, lease) && a.id !in s.allocations
    requires r.allocations == s.allocations[a.id := a] && r.nodes == s.nodes
    requires n.id in s.nodes && s.nodes[n.id] == n && AvailableFit(s, j.request, n)
    ensures MemoryFits(r)
  {
    hide Total, HeldOn, Smallest, FreeCpus, FreeGpus, FirstGpus, StaticallyFits;
    forall m | m in r.nodes ensures UsedMemory(r, m) <= r.nodes[m].memory {
      HeldRises(s.allocations, a, m);
    }
  }

  lemma {:induction false} PlaceAllFits(s: State, queue: seq<JobId>, now: int, lease: int)
    requires Inv(s) && MemoryFits(s) && Distinct(queue) && forall j :: j in queue ==> j in s.jobs && s.jobs[j].state == Queued
    ensures MemoryFits(PlaceAll(s, queue, now, lease))
  {
    hide *;
    if queue == [] {
      PlaceNone(s, now, lease);
    } else {
      var front, last := queue[..|queue| - 1], queue[|queue| - 1];
      DistinctFront(queue);
      PlaceLast(s, queue, now, lease);
      PlaceAllFits(s, front, now, lease);
      PlaceAllKeepsInv(s, front, now, lease);
      PlaceOneFits(PlaceAll(s, front, now, lease), last, now, lease);
    }
  }

  lemma SameMemory(s: State, r: State)
    requires MemoryFits(s) && r.allocations == s.allocations && r.nodes == s.nodes
    ensures MemoryFits(r)
  {
    assert forall n :: UsedMemory(r, n) == UsedMemory(s, n);
  }

  /** The call is not a heartbeat that is accepted though it reports less memory than is in use. */
  ghost predicate Covers(s: State, c: Call) {
    c.Heartbeat? && Step(s, c).1 == None ==> UsedMemory(s, c.inventory.id) <= c.inventory.memory
  }

  /** A call keeps memory within bounds exactly when it is not such a heartbeat. */
  lemma StepFitsExactly(s: State, c: Call)
    requires Inv(s) && Fits(s, c) && MemoryFits(s)
    ensures MemoryFits(Step(s, c).0) <==> Covers(s, c)
  {
    hide Inv, MemoryFits, Recover, PlaceAll, StaticallyFits, AllocationOf, UsedMemory;
    match c {
      case BecomeLeader(node, term) => SameMemory(s, Step(s, c).0);
      case Heartbeat(inventory) =>
        if Step(s, c).1 == None {
          HeartbeatFitsExactly(s, inventory);
        }
      case Submit(_, _, _, _, _, _) => SameMemory(s, Step(s, c).0);
      case Schedule(caller, now, lease, expiry, queue) =>
        RecoverKeepsInv(s, expiry, now);
        RecoverFits(s, expiry, now);
        PlaceAllFits(Recover(s, expiry, now), queue, now, lease);
      case MarkRunning(id, caller) => SameMemory(s, Step(s, c).0);
      case Complete(id, caller, succeeded, error) =>
        if id in s.allocations {
          AllocationIsItself(s, id);
          if Step(s, c).1 == None {
            ReleaseFits(s, Step(s, c).0, id);
          }
        }
      case Cancel(id, caller) =>
        if Step(s, c).1 == None {
          OwnedOrNot(s, id);
          var a := AllocationOf(s, id);
          if a.Some? {
            ReleaseFits(s, Step(s, c).0, a.value.id);
          } else {
            SameMemory(s, Step(s, c).0);
          }
        }
      case RecoverExpired(caller, now, expiry) => RecoverFits(s, expiry, now);
    }
  }

  // ---------- CPUs and the node ----------

  lemma NumaIsLocal(n: Inventory, k: int)
    requires ValidInventory(n) && k in n.numaCpus
    ensures n.numaCpus[k] <= n.cpus
  {
  }

  /** Eligible CPUs are the node's own exactly when a NUMA node is given or the affinity lies within the node. */
  lemma EligibleOnNodeExactly(r: Request, n: Inventory)
    requires ValidInventory(n)
    ensures EligibleCpus(r, n) <= n.cpus <==> r.numaNode != None || r.affinity <= n.cpus
  {
    if r.numaNode != None && r.numaNode.value in n.numaCpus {
      NumaIsLocal(n, r.numaNode.value);
    }
  }

  /** The score's penalty for distant GPUs never applies: on a node where the job fits, all eligible free GPUs are local. */
  lemma PenaltyNeverApplies(s: State, r: Request, n: Inventory)
    requires ValidInventory(n) && AvailableFit(s, r, n)
    ensures LocalGpuPenalty(s, r, n) == 0
  {
    if r.numaNode != None {
      FreeGpusAreFree(s, r, n);
      FilterAll(FreeGpus(s, r, n), LocalGpu(r));
    }
  }

  // ---------- runs ----------

  ghost predicate Fresh(s: State) {
    && s.log == [] && s.nodes == map[] && s.jobs == map[] && s.allocations == map[] && s.sequence == 0 && s.leader == None && s.term == 0
    && forall p :: p in s.quotas ==> ValidQuota(s.quotas[p])
  }

  ghost predicate Follows(s: State, c: Call, r: State) {
    Fits(s, c) && r == Step(s, c).0
  }

  ghost predicate Run(calls: seq<Call>, states: seq<State>) {
    && |states| == |calls| + 1 && Fresh(states[0])
    && forall i {:trigger Follows(states[i], calls[i], states[i + 1])} :: 0 <= i < |calls| ==> Follows(states[i], calls[i], states[i + 1])
  }

  lemma StepOf(calls: seq<Call>, states: seq<State>, i: nat)
    requires Run(calls, states) && i < |calls|
    ensures Fits(states[i], calls[i]) && states[i + 1] == Step(states[i], calls[i]).0
  {
    hide Fits, Step;
    assert Follows(states[i], calls[i], states[i + 1]);
  }

  lemma FreshInv(s: State)
    requires Fresh(s)
    ensures Inv(s) && MemoryFits(s)
  {
    forall p, what | p in s.quotas ensures Limit(s.quotas[p], what) >= 0 {
      assert ValidQuota(s.quotas[p]);
    }
    forall p, what ensures Usage(s, p, what) == 0 {
      assert Taken(s.allocations, p, what) == map[];
    }
  }

  lemma {:induction false} RunKeepsInv(calls: seq<Call>, states: seq<State>, i: nat)
    requires Run(calls, states) && i < |states|
    ensures Inv(states[i])
  {
    hide Inv, Fits, Step, Fresh;
    if i == 0 {
      FreshInv(states[0]);
    } else {
      RunKeepsInv(calls, states, i - 1);
      StepOf(calls, states, i - 1);
      StepKeepsInv(states[i - 1], calls[i - 1]);
    }
  }

  ghost predicate AllocationsSafe(s: State) {
    forall a, b :: a in s.allocations && b in s.allocations && a != b && s.allocations[a].node == s.allocations[b].node ==>
      s.allocations[a].cpus !! s.allocations[b].cpus && forall g :: g in s.allocations[a].gpus ==> g !in s.allocations[b].gpus
  }

  ghost predicate ExactlyWhatWasAsked(s: State) {
    forall a :: a in s.allocations ==>
      var r := s.allocations[a];
      r.job in s.jobs && Fills(r, s.jobs[r.job].request)
  }

  /** In every state of every run: no sharing on a node, exact amounts, and every quota kept. */
  lemma AllocationSafety(calls: seq<Call>, states: seq<State>, i: nat)
    requires Run(calls, states) && i < |states|
    ensures AllocationsSafe(states[i]) && ExactlyWhatWasAsked(states[i]) && QuotasKept(states[i])
  {
    RunKeepsInv(calls, states, i);
    var s := states[i];
    hide Run, Fills, QuotasKept, Replays;
    forall a | a in s.allocations ensures AllocationOk(s, a) {
    }
  }

  /** A job is scheduled or running exactly when it owns an allocation, never two, and its attempts stay within bounds. */
  lemma Lifecycle(calls: seq<Call>, states: seq<State>, i: nat, j: JobId)
    requires Run(calls, states) && i < |states| && j in states[i].jobs
    ensures IsActive(states[i].jobs[j].state) <==> exists a :: Owns(states[i], a, j)
    ensures forall a, b :: Owns(states[i], a, j) && Owns(states[i], b, j) ==> a == b
    ensures states[i].jobs[j].attempts <= states[i].jobs[j].maxAttempts
  {
    RunKeepsInv(calls, states, i);
    var s := states[i];
    hide Run, Fills, QuotasKept, Replays;
    forall a | Owns(s, a, j) ensures IsActive(s.jobs[j].state) {
      assert AllocationOk(s, a);
    }
    assert AttemptsOk(s.jobs[j]);
  }

  /** The log alone tells every job's state and attempts; its revisions are contiguous and its terms never fall. */
  lemma LogTellsAll(calls: seq<Call>, states: seq<State>, i: nat)
    requires Run(calls, states) && i < |states|
    ensures var s := states[i];
            && (forall j :: j in s.jobs ==> Replay(s.log, j, s.jobs[j].maxAttempts) == Known(s.jobs[j].state, s.jobs[j].attempts))
            && (forall k :: 0 <= k < |s.log| ==> s.log[k].revision == k + 1)
            && forall k, m :: 0 <= k <= m < |s.log| ==> s.log[k].leaderTerm <= s.log[m].leaderTerm
  {
    RunKeepsInv(calls, states, i);
    hide Run, Linked, Apart, Attempts, QuotasKept, Replay;
  }

  /** Memory stays within bounds before the `i`-th state if no accepted heartbeat before it reports less than is in use. */
  lemma {:induction false} MemorySafety(calls: seq<Call>, states: seq<State>, i: nat)
    requires Run(calls, states) && i < |states| && forall k :: 0 <= k < i ==> Covers(states[k], calls[k])
    ensures MemoryFits(states[i])
  {
    hide Inv, MemoryFits, Fits, Step, UsedMemory, Fresh, Covers;
    if i == 0 {
      FreshInv(states[0]);
    } else {
      MemorySafety(calls, states, i - 1);
      RunKeepsInv(calls, states, i - 1);
      StepOf(calls, states, i - 1);
      StepFitsExactly(states[i - 1], calls[i - 1]);
    }
  }

  /** Memory in use fits every node throughout a run exactly when every accepted heartbeat reports at least what is in use. */
  lemma MemoryFitsExactly(calls: seq<Call>, states: seq<State>)
    requires Run(calls, states)
    ensures (forall i :: 0 <= i < |states| ==> MemoryFits(states[i])) <==> (forall i :: 0 <= i < |calls| ==> Covers(states[i], calls[i]))
  {
    hide Inv, MemoryFits, Fits, Step, Covers;
    if forall i :: 0 <= i < |calls| ==> Covers(states[i], calls[i]) {
      forall i | 0 <= i < |states| ensures MemoryFits(states[i]) {
        MemorySafety(calls, states, i);
      }
    }
    if forall i :: 0 <= i < |states| ==> MemoryFits(states[i]) {
      forall i | 0 <= i < |calls| ensures Covers(states[i], calls[i]) {
        assert MemoryFits(states[i]) && MemoryFits(states[i + 1]);
        RunKeepsInv(calls, states, i);
        StepOf(calls, states, i);
        StepFitsExactly(states[i], calls[i]);
      }
    }
  }
}
