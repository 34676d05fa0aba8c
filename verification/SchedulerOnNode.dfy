/** When allocations lie on what their node has (lab 38): exactly, for each call and for whole runs. */
module SchedulerOnNode {
  import opened Options
  import opened Sets
  import opened Sequences
  import opened Sums
  import opened Scheduler
  import opened SchedulerSafety
  import opened SchedulerRuns

  function GpuIds(n: Inventory): set<nat> {
    set g | g in n.gpus :: g.id
  }

  /** The node has every CPU and GPU of the allocation. */
  ghost predicate Offers(n: Inventory, a: Allocation) {
    a.cpus <= n.cpus && forall g :: g in a.gpus ==> g in GpuIds(n)
  }

  /** Every allocation lies on what its node last reported. */
  ghost predicate OnNode(s: State) {
    forall id :: id in s.allocations ==> s.allocations[id].node in s.nodes && Offers(s.nodes[s.allocations[id].node], s.allocations[id])
  }

  // ---------- a reservation ----------

  /** The CPUs a reservation would take are the node's, read off the request, the inventory and what is in use. */
  ghost predicate PicksLocal(s: State, r: Request, n: Inventory) {
    || r.numaNode != None
    || r.affinity == {}
    || Smallest(r.affinity - UsedCpus(s, n.id), Natural(r.cpuCores)) <= n.cpus
  }

  lemma PickIsLocalExactly(s: State, j: Job, n: Inventory, now: int, lease: int)
    requires ValidRequest(j.request) && ValidInventory(n) && AvailableFit(s, j.request, n)
    ensures Offers(n, NewAllocation(s, j, n, now, lease)) <==> PicksLocal(s, j.request, n)
  {
    var r, a := j.request, NewAllocation(s, j, n, now, lease);
    NewAllocationFills(s, j, n, now, lease);
    forall g | g in a.gpus ensures g in GpuIds(n) {
      var d :| d in n.gpus && d.id == g && GpuMatches(r, d);
    }
    if r.numaNode != None || r.affinity == {} {
      EligibleOnNodeExactly(r, n);
      assert a.cpus <= EligibleCpus(r, n) <= n.cpus;
    } else {
      assert FreeCpus(s, r, n) == r.affinity - UsedCpus(s, n.id);
    }
  }

  lemma ReserveOnNodeExactly(s: State, j: Job, n: Inventory, now: int, lease: int)
    requires Inv(s) && OnNode(s) && j.id in s.jobs && s.jobs[j.id] == j
    requires n.id in s.nodes && s.nodes[n.id] == n && AvailableFit(s, j.request, n)
    ensures OnNode(Reserve(s, j, n, now, lease)) <==> PicksLocal(s, j.request, n)
  {
    hide *;
    var r, a := Reserve(s, j, n, now, lease), NewAllocation(s, j, n, now, lease);
    JobIsItself(s, j.id);
    RequestIsValid(j);
    NodeIsItself(s, n.id);
    FreshAllocation(s, j, n, now, lease);
    ReserveShape(s, j, n, now, lease);
    PickIsLocalExactly(s, j, n, now, lease);
    AddedOnNode(s, r, a, n);
  }

  lemma AddedOnNode(s: State, r: State, a: Allocation, n: Inventory)
    requires a.id !in s.allocations && r.allocations == s.allocations[a.id := a] && r.nodes == s.nodes
    requires a.node == n.id && n.id in s.nodes && s.nodes[n.id] == n
    ensures OnNode(r) <==> OnNode(s) && Offers(n, a)
  {
    hide Offers;
    if OnNode(r) {
      assert a.id in r.allocations;
      assert forall id :: id in s.allocations ==> id in r.allocations && r.allocations[id] == s.allocations[id];
    }
  }

  // ---------- a scheduling pass ----------

  /** If this job's turn ends in a reservation, the reservation is local. */
  ghost predicate TurnOnNode(s: State, id: JobId, now: int) {
    id in s.jobs && WithinQuota(s, s.jobs[id]) ==>
      var candidates := Candidates(s, s.jobs[id].request, now);
      candidates == {} || PicksLocal(s, s.jobs[id].request, s.nodes[Best(s, s.jobs[id].request, candidates)])
  }

  lemma PlaceOneOnNodeExactly(s: State, id: JobId, now: int, lease: int)
    requires Inv(s) && id in s.jobs && s.jobs[id].state == Queued
    ensures OnNode(PlaceOne(s, id, now, lease)) <==> OnNode(s) && TurnOnNode(s, id, now)
  {
    var j := s.jobs[id];
    var candidates := Candidates(s, j.request, now);
    JobIsItself(s, id);
    hide Inv, WithinQuota, OnNode, PicksLocal, Reserve, IsBest, NewAllocation, AvailableFit;
    if WithinQuota(s, j) && candidates != {} {
      var n := s.nodes[Best(s, j.request, candidates)];
      BestIsCandidate(s, j.request, candidates);
      NodeIsItself(s, n.id);
      if OnNode(s) {
        ReserveOnNodeExactly(s, j, n, now, lease);
      } else {
        FreshAllocation(s, j, n, now, lease);
        ReserveShape(s, j, n, now, lease);
        AddedOnNode(s, Reserve(s, j, n, now, lease), NewAllocation(s, j, n, now, lease), n);
      }
    }
  }

  lemma BestIsCandidate(s: State, r: Request, candidates: set<NodeId>)
    requires Inv(s) && candidates <= s.nodes.Keys && candidates != {}
    ensures Best(s, r, candidates) in candidates
    ensures s.nodes[Best(s, r, candidates)].id == Best(s, r, candidates)
  {
  }

  ghost predicate PassOnNode(s: State, queue: seq<JobId>, now: int, lease: int) {
    forall i :: 0 <= i < |queue| ==> TurnOnNode(PlaceAll(s, queue[..i], now, lease), queue[i], now)
  }

  lemma {:induction false} PlaceAllOnNodeExactly(s: State, queue: seq<JobId>, now: int, lease: int)
    requires Inv(s) && OnNode(s) && Distinct(queue) && forall j :: j in queue ==> j in s.jobs && s.jobs[j].state == Queued
    ensures OnNode(PlaceAll(s, queue, now, lease)) <==> PassOnNode(s, queue, now, lease)
  {
    hide Inv, OnNode, TurnOnNode, PlaceAll, Distinct;
    if queue == [] {
      PlaceNone(s, now, lease);
    } else {
      var n := |queue| - 1;
      var front, last := queue[..n], queue[n];
      DistinctFront(queue);
      PlaceLast(s, queue, now, lease);
      PlaceAllOnNodeExactly(s, front, now, lease);
      PlaceAllKeepsInv(s, front, now, lease);
      PlaceOneOnNodeExactly(PlaceAll(s, front, now, lease), last, now, lease);
      assert forall i :: 0 <= i < n ==> front[..i] == queue[..i];
      assert PassOnNode(s, queue, now, lease) <==> PassOnNode(s, front, now, lease) && TurnOnNode(PlaceAll(s, front, now, lease), last, now);
    }
  }

  // ---------- a heartbeat ----------

  /** The report still lists every CPU and GPU that allocations hold on the node. */
  ghost predicate Reports(s: State, n: Inventory) {
    UsedCpus(s, n.id) <= n.cpus && UsedGpus(s, n.id) <= GpuIds(n)
  }

  lemma HeartbeatOnNodeExactly(s: State, n: Inventory)
    requires OnNode(s)
    ensures OnNode(s.(nodes := s.nodes[n.id := n])) <==> Reports(s, n)
  {
    var r := s.(nodes := s.nodes[n.id := n]);
    hide GpuIds;
    if Reports(s, n) {
      forall id | id in r.allocations ensures r.allocations[id].node in r.nodes && Offers(r.nodes[r.allocations[id].node], r.allocations[id]) {
        InUse(s, id);
      }
    }
    if OnNode(r) {
      forall cpu | cpu in UsedCpus(s, n.id) ensures cpu in n.cpus {
        var id :| id in s.allocations && s.allocations[id].node == n.id && cpu in s.allocations[id].cpus;
        assert Offers(n, r.allocations[id]);
      }
      forall g | g in UsedGpus(s, n.id) ensures g in GpuIds(n) {
        var id :| id in s.allocations && s.allocations[id].node == n.id && g in s.allocations[id].gpus;
        assert Offers(n, r.allocations[id]);
      }
    }
  }

  // ---------- every call ----------

  /** What a call must meet, in the state it meets, for allocations to stay on their nodes. */
  ghost predicate StaysOnNode(s: State, c: Call) {
    Step(s, c).1 == None ==>
      match c
      case Heartbeat(inventory) => Reports(s, inventory)
      case Schedule(_, now, lease, expiry, queue) => PassOnNode(Recover(s, expiry, now), queue, now, lease)
      case _ => true
  }

  lemma FewerOnNode(s: State, r: State)
    requires OnNode(s) && r.nodes == s.nodes
    requires forall id :: id in r.allocations ==> id in s.allocations && r.allocations[id] == s.allocations[id]
    ensures OnNode(r)
  {
    hide Offers;
  }

  lemma {:induction false} RecoverReleases(s: State, ids: seq<AllocationId>, now: int)
    ensures var r := Recover(s, ids, now);
            r.nodes == s.nodes && forall id :: id in r.allocations ==> id in s.allocations && r.allocations[id] == s.allocations[id]
  {
    if ids != [] {
      RecoverReleases(s, ids[..|ids| - 1], now);
    }
  }

  /** Allocations stay on their nodes through a call exactly when the call meets its condition. */
  lemma StepOnNodeExactly(s: State, c: Call)
    requires Inv(s) && Fits(s, c) && OnNode(s)
    ensures OnNode(Step(s, c).0) <==> StaysOnNode(s, c)
  {
    hide Inv, OnNode, Recover, PlaceAll, PassOnNode, Reports, StaticallyFits, AllocationOf, IsEnumeration;
    match c {
      case Heartbeat(inventory) =>
        if Step(s, c).1 == None {
          HeartbeatOnNodeExactly(s, inventory);
        }
      case Schedule(caller, now, lease, expiry, queue) =>
        if Step(s, c).1 == None {
          var t := Recover(s, expiry, now);
          RecoverKeepsInv(s, expiry, now);
          RecoverReleases(s, expiry, now);
          FewerOnNode(s, t);
          PlaceAllOnNodeExactly(t, queue, now, lease);
        }
      case RecoverExpired(caller, now, expiry) =>
        RecoverReleases(s, expiry, now);
        FewerOnNode(s, Step(s, c).0);
      case _ => FewerOnNode(s, Step(s, c).0);
    }
  }

  // ---------- runs ----------

  lemma FreshIsOnNode(s: State)
    requires Fresh(s)
    ensures OnNode(s)
  {
  }

  lemma {:induction false} OnNodeSoFar(calls: seq<Call>, states: seq<State>, i: nat)
    requires Run(calls, states) && i < |states| && forall k :: 0 <= k < i ==> StaysOnNode(states[k], calls[k])
    ensures OnNode(states[i])
  {
    hide Inv, OnNode, StaysOnNode, Fits, Step, Fresh;
    if i == 0 {
      FreshIsOnNode(states[0]);
    } else {
      OnNodeSoFar(calls, states, i - 1);
      RunKeepsInv(calls, states, i - 1);
      StepOf(calls, states, i - 1);
      StepOnNodeExactly(states[i - 1], calls[i - 1]);
    }
  }

  /** Allocations lie on their nodes throughout a run exactly when every call meets its condition in the state it meets. */
  lemma RunOnNodeExactly(calls: seq<Call>, states: seq<State>)
    requires Run(calls, states)
    ensures (forall i :: 0 <= i < |states| ==> OnNode(states[i])) <==> (forall i :: 0 <= i < |calls| ==> StaysOnNode(states[i], calls[i]))
  {
    hide Inv, OnNode, StaysOnNode, Fits, Step, Fresh;
    if forall i :: 0 <= i < |calls| ==> StaysOnNode(states[i], calls[i]) {
      forall i | 0 <= i < |states| ensures OnNode(states[i]) {
        OnNodeSoFar(calls, states, i);
      }
    }
    if forall i :: 0 <= i < |states| ==> OnNode(states[i]) {
      forall i | 0 <= i < |calls| ensures StaysOnNode(states[i], calls[i]) {
        assert OnNode(states[i]) && OnNode(states[i + 1]);
        RunKeepsInv(calls, states, i);
        StepOf(calls, states, i);
        StepOnNodeExactly(states[i], calls[i]);
      }
    }
  }

  // ---------- two runs that leave their nodes ----------

  function Empty(): State {
    State(30, map[], [], map[], map[], map[], 0, None, 0)
  }

  /** One CPU and two units of memory. */
  function Small(cpu: int, memory: int): Inventory {
    Inventory(1, {cpu}, memory, [], map[], {}, 0)
  }

  function OneCpu(affinity: set<int>): Request {
    Request(1, 2, 0, None, None, affinity, {})
  }

  /** A leader, a node with CPU 0 and one job. */
  function Opening(affinity: set<int>): seq<Call> {
    [BecomeLeader(1, 1), Heartbeat(Small(0, 2)), Submit(1, "p", OneCpu(affinity), 0, 1, true), Schedule(1, 0, 1, [], [1])]
  }

  function Waiting(affinity: set<int>): State {
    State(30, map[], [LogEntry(1, 1, Submitted, 1, None)], map[1 := Small(0, 2)],
          map[1 := Job(1, "p", OneCpu(affinity), 0, 1, 1, 0, Queued, None)], map[], 1, Some(1), 1)
  }

  /** The first three calls leave the job waiting, whatever its affinity. */
  lemma OpeningWaits(affinity: set<int>) returns (states: seq<State>)
    requires |affinity| <= 1
    ensures |states| == 4 && Fresh(states[0]) && states[3] == Waiting(affinity)
    ensures forall i :: 0 <= i < 3 ==> Follows(states[i], Opening(affinity)[i], states[i + 1])
  {
    var calls := Opening(affinity);
    var led := Empty().(leader := Some(1), term := 1);
    var known := led.(nodes := map[1 := Small(0, 2)]);
    states := [Empty(), led, known, Waiting(affinity)];
    assert Follows(states[0], calls[0], states[1]);
    assert Follows(states[1], calls[1], states[2]);
    SmallFits(affinity);
    assert Follows(states[2], calls[2], states[3]);
  }

  lemma SmallFits(affinity: set<int>)
    requires |affinity| <= 1
    ensures StaticallyFits(OneCpu(affinity), Small(0, 2))
  {
    var r, n := OneCpu(affinity), Small(0, 2);
    assert EligibleGpus(r, n) == [];
    if affinity == {} {
      assert EligibleCpus(r, n) == {0};
    } else {
      assert EligibleCpus(r, n) == affinity;
      assert |affinity| >= 1 by { var x := Member(affinity); }
    }
  }

  lemma WaitingFits(affinity: set<int>)
    requires |affinity| <= 1
    ensures Candidates(Waiting(affinity), OneCpu(affinity), 0) == {1}
    ensures FreeCpus(Waiting(affinity), OneCpu(affinity), Small(0, 2)) == if affinity == {} then {0} else affinity
    ensures FreeGpus(Waiting(affinity), OneCpu(affinity), Small(0, 2)) == []
    ensures AvailableFit(Waiting(affinity), OneCpu(affinity), Small(0, 2))
  {
    var s, r, n := Waiting(affinity), OneCpu(affinity), Small(0, 2);
    assert UsedCpus(s, 1) == {} && UsedGpus(s, 1) == {} && HeldOn(s.allocations, 1) == map[];
    SmallFits(affinity);
    assert FreeCpus(s, r, n) == EligibleCpus(r, n);
    assert FreeGpus(s, r, n) == [];
    assert 1 in Candidates(s, r, 0);
  }

  lemma WaitingTurn(affinity: set<int>)
    requires |affinity| <= 1
    ensures PlaceAll(Recover(Waiting(affinity), [], 0), [1], 0, 1)
            == Reserve(Waiting(affinity), Waiting(affinity).jobs[1], Small(0, 2), 0, 1)
  {
    var s := Waiting(affinity);
    WaitingFits(affinity);
    hide Candidates, AvailableFit, Reserve, ScoresBelow;
    assert Best(s, s.jobs[1].request, {1}) == 1;
    assert [1][..0] == [];
    PlaceLast(s, [1], 0, 1);
    PlaceNone(s, 0, 1);
  }

  /** The waiting job's turn: it is placed on the only node. */
  lemma WaitingIsPlaced(affinity: set<int>) returns (a: Allocation, r: State)
    requires |affinity| <= 1
    ensures r == PlaceAll(Recover(Waiting(affinity), [], 0), [1], 0, 1) && Fits(Waiting(affinity), Schedule(1, 0, 1, [], [1]))
    ensures r.allocations == map[a.id := a] && a.node == 1 && |a.cpus| == 1 && a.gpus == [] && a.memory == 2
    ensures a.cpus <= (if affinity == {} then {0} else affinity) && r.nodes == map[1 := Small(0, 2)]
  {
    var s, n := Waiting(affinity), Small(0, 2);
    WaitingCall(affinity);
    WaitingTurn(affinity);
    NewIs(affinity);
    hide Candidates, AvailableFit, FreeCpus, FreeGpus, PlaceAll, Recover, NewAllocation, Fits;
    r := Reserve(s, s.jobs[1], n, 0, 1);
    a := NewAllocation(s, s.jobs[1], n, 0, 1);
  }

  lemma WaitingCall(affinity: set<int>)
    ensures Fits(Waiting(affinity), Schedule(1, 0, 1, [], [1]))
  {
  }

  lemma NewIs(affinity: set<int>)
    requires |affinity| <= 1
    ensures var a := NewAllocation(Waiting(affinity), Waiting(affinity).jobs[1], Small(0, 2), 0, 1);
            && a.node == 1 && |a.cpus| == 1 && a.gpus == [] && a.memory == 2 && a.cpus <= (if affinity == {} then {0} else affinity)
  {
    WaitingFits(affinity);
    hide Candidates, AvailableFit, FreeCpus, FreeGpus;
    if affinity != {} {
      var x := Member(affinity);
    }
  }

  lemma RunExtends(calls: seq<Call>, states: seq<State>, c: Call, r: State)
    requires Run(calls, states) && Follows(states[|calls|], c, r)
    ensures Run(calls + [c], states + [r])
  {
    hide Follows, Fresh;
    var more, further := calls + [c], states + [r];
    forall i | 0 <= i < |more| ensures Follows(further[i], more[i], further[i + 1]) {
      if i < |calls| {
        assert Follows(states[i], calls[i], states[i + 1]);
      }
    }
  }

  lemma WaitingFollows(affinity: set<int>, r: State)
    requires r == PlaceAll(Recover(Waiting(affinity), [], 0), [1], 0, 1) && Fits(Waiting(affinity), Schedule(1, 0, 1, [], [1]))
    ensures Follows(Waiting(affinity), Schedule(1, 0, 1, [], [1]), r)
  {
    hide PlaceAll, Recover, Fits;
  }

  /** Before its last call the opening is a run, and nothing is placed yet. */
  lemma BegunRuns(affinity: set<int>) returns (states: seq<State>)
    requires |affinity| <= 1
    ensures |states| == 4 && states[3] == Waiting(affinity) && Run(Opening(affinity)[..3], states)
  {
    states := OpeningWaits(affinity);
    hide Follows, Fresh, Opening, Waiting;
    var calls := Opening(affinity);
    ThreeOfFour(affinity);
    forall i | 0 <= i < 3 ensures Follows(states[i], calls[..3][i], states[i + 1]) {
      assert Follows(states[i], calls[i], states[i + 1]);
    }
  }

  lemma ThreeOfFour(affinity: set<int>)
    ensures |Opening(affinity)| == 4 && Opening(affinity)[3] == Schedule(1, 0, 1, [], [1])
    ensures Opening(affinity)[..3] + [Opening(affinity)[3]] == Opening(affinity)
    ensures Opening(affinity)[0] == BecomeLeader(1, 1)
  {
  }

  lemma NothingAtFirst(s: State, r: State)
    requires Fresh(s) && Follows(s, BecomeLeader(1, 1), r)
    ensures r.allocations == map[]
  {
  }

  lemma FirstStep(calls: seq<Call>, states: seq<State>)
    requires Run(calls, states) && calls != []
    ensures Fresh(states[0]) && Follows(states[0], calls[0], states[1])
  {
    hide Follows, Fresh;
    var i := 0;
    assert Follows(states[i], calls[i], states[i + 1]);
  }

  /** The whole opening is a run, and ends with the job placed. */
  lemma OpeningRuns(affinity: set<int>) returns (states: seq<State>, a: Allocation)
    requires |affinity| <= 1
    ensures |states| == 5 && Run(Opening(affinity), states)
    ensures states[4].allocations == map[a.id := a] && a.node == 1 && |a.cpus| == 1 && a.gpus == [] && a.memory == 2
    ensures a.cpus <= (if affinity == {} then {0} else affinity) && states[4].nodes == map[1 := Small(0, 2)]
    ensures states[1].allocations == map[]
  {
    hide *;
    var begun := BegunRuns(affinity);
    var r: State;
    a, r := WaitingIsPlaced(affinity);
    WaitingFollows(affinity, r);
    ThreeOfFour(affinity);
    RunExtends(Opening(affinity)[..3], begun, Opening(affinity)[3], r);
    FirstStep(Opening(affinity)[..3], begun);
    NothingAtFirst(begun[0], begun[1]);
    states := begun + [r];
    assert states[1] == begun[1] && states[4] == r;
  }

  /** With an affinity of its own a job is given a CPU its node does not have. */
  lemma OffNodeReservation() returns (calls: seq<Call>, states: seq<State>)
    ensures Run(calls, states) && |states| == 5 && !OnNode(states[4])
    ensures forall i :: 0 <= i < 4 ==> !calls[i].Heartbeat? || Reports(states[i], calls[i].inventory)
  {
    var a: Allocation;
    calls := Opening({7});
    states, a := OpeningRuns({7});
    hide Run, Step;
    var cpu := Member(a.cpus);
    assert cpu == 7 && a.id in states[4].allocations;
    assert UsedCpus(states[1], 1) == {} && UsedGpus(states[1], 1) == {};
  }

  /** A heartbeat that reports less than is in use is accepted and leaves CPU and memory short, although every reservation was local. */
  lemma ShrinkingHeartbeat() returns (calls: seq<Call>, states: seq<State>)
    ensures Run(calls, states) && |states| == 6
    ensures OnNode(states[4]) && MemoryFits(states[4]) && calls[4].Heartbeat? && Step(states[4], calls[4]).1 == None
    ensures !OnNode(states[5]) && !MemoryFits(states[5])
  {
    var first, a := OpeningRuns({});
    var s, c := first[4], Heartbeat(Small(1, 1));
    var r := s.(nodes := s.nodes[1 := Small(1, 1)]);
    assert Step(s, c) == (r, None) && Fits(s, c);
    calls, states := Opening({}) + [c], first + [r];
    RunExtends(Opening({}), first, c, r);
    OneLeft(s, r, a);
  }

  lemma OneLeft(s: State, r: State, a: Allocation)
    requires s.allocations == map[a.id := a] && a.node == 1 && |a.cpus| == 1 && a.cpus <= {0} && a.memory == 2
    requires s.nodes == map[1 := Small(0, 2)] && r == s.(nodes := map[1 := Small(1, 1)])
    requires a.gpus == []
    ensures OnNode(s) && MemoryFits(s) && !OnNode(r) && !MemoryFits(r)
  {
    OneHeld(s, a);
    OneHeld(r, a);
    hide UsedMemory;
    var cpu := Member(a.cpus);
    assert cpu == 0 && a.id in r.allocations;
  }

  lemma OneHeld(s: State, a: Allocation)
    requires s.allocations == map[a.id := a] && a.node == 1 && a.memory == 2
    ensures UsedMemory(s, 1) == 2
  {
    var held: map<AllocationId, nat> := map[a.id := 2];
    assert HeldOn(s.allocations, 1) == held;
    TotalSplit(held, a.id);
    assert held - {a.id} == map[];
  }
}
