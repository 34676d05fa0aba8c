/** Who is placed first, and where, in a scheduling pass of lab 38. */
module SchedulerOrder {
  import opened Options
  import opened Sums
  import opened Sequences
  import opened Scheduler
  import opened SchedulerSafety
  import opened SchedulerRuns
  import opened SchedulerPlacement

  /** Of two waiting jobs the one with the higher priority is urgent, and of equal ones the one submitted first. */
  predicate MoreUrgent(j: Job, k: Job) {
    j.priority > k.priority || (j.priority == k.priority && j.sequence < k.sequence)
  }

  /** The more urgent of two waiting jobs comes before the other. */
  lemma UrgentComesFirst(s: State, queue: seq<JobId>, j: JobId, k: JobId) returns (a: nat, b: nat)
    requires IsQueueOrder(s, queue) && j in s.jobs && k in s.jobs && s.jobs[j].state == Queued && s.jobs[k].state == Queued
    requires MoreUrgent(s.jobs[j], s.jobs[k])
    ensures a < b < |queue| && queue[a] == j && queue[b] == k
  {
    assert j in queue && k in queue;
    a :| 0 <= a < |queue| && queue[a] == j;
    b :| 0 <= b < |queue| && queue[b] == k;
  }

  lemma DistinctPrefix(queue: seq<JobId>, i: nat)
    requires Distinct(queue) && i <= |queue|
    ensures Distinct(queue[..i]) && forall j :: j in queue[..i] ==> j in queue
    ensures i < |queue| ==> queue[i] !in queue[..i] && queue[..i + 1][..i] == queue[..i] && queue[..i + 1][i] == queue[i]
  {
  }

  /** A job that is not served keeps its state through the pass. */
  lemma NotServed(s: State, r: State, queue: set<JobId>, now: int, lease: int, j: JobId)
    requires Passed(s, r, queue, now, lease) && j in s.jobs && j !in queue
    ensures j in r.jobs && r.jobs[j] == s.jobs[j]
  {
    if Served(s, r, j) {
      ServedAreQueued(s, r, queue, now, lease, j);
    }
  }

  /** A job that still waits after a pass has stayed as it was. */
  lemma StillWaiting(s: State, r: State, queue: set<JobId>, now: int, lease: int, j: JobId)
    requires Passed(s, r, queue, now, lease) && j in s.jobs
    ensures j in r.jobs && (r.jobs[j] == s.jobs[j] || r.jobs[j].state == Scheduled)
  {
    hide Served, Added;
  }

  lemma CutShorter(queue: seq<JobId>, i: nat)
    requires i < |queue|
    ensures var n := |queue| - 1;
            && queue[..n][..i] == queue[..i] && queue[n] in queue[i..]
            && forall k :: k in queue[..n][i..] ==> k in queue[i..]
  {
    var n := |queue| - 1;
    assert queue[..n][i..] == queue[i..n];
    assert queue[i..][n - i] == queue[n];
  }

  /** Later turns do not touch a job that has had its turn. */
  lemma {:induction false} TurnsStand(s: State, queue: seq<JobId>, now: int, lease: int, i: nat, j: JobId)
    requires Inv(s) && Distinct(queue) && (forall k :: k in queue ==> k in s.jobs && s.jobs[k].state == Queued)
    requires i <= |queue| && j in s.jobs && j !in queue[i..]
    ensures j in PlaceAll(s, queue, now, lease).jobs && j in PlaceAll(s, queue[..i], now, lease).jobs
    ensures PlaceAll(s, queue, now, lease).jobs[j] == PlaceAll(s, queue[..i], now, lease).jobs[j]
    decreases |queue|
  {
    hide *;
    DistinctPrefix(queue, i);
    PlaceAllKeepsInv(s, queue[..i], now, lease);
    if i == |queue| {
      assert queue[..i] == queue;
    } else {
      var n := |queue| - 1;
      var front, last := queue[..n], queue[n];
      DistinctFront(queue);
      CutShorter(queue, i);
      TurnsStand(s, front, now, lease, i, j);
      PlaceLast(s, queue, now, lease);
      PlaceAllKeepsInv(s, front, now, lease);
      PlaceOneKeepsInv(PlaceAll(s, front, now, lease), last, now, lease);
    }
  }

  /** Two jobs that ask for the same and count against the same quota. */
  predicate Twins(j: Job, k: Job) {
    j.request == k.request && j.project == k.project
  }

  lemma SameNeeds(s: State, j: Job, k: Job)
    requires Twins(j, k)
    ensures WithinQuota(s, j) == WithinQuota(s, k)
  {
  }

  /** When one twin waits after its turn, the other's turn, later, does nothing. */
  lemma TwinWaits(s: State, queue: seq<JobId>, now: int, lease: int, a: nat, b: nat)
    requires Inv(s) && Distinct(queue) && (forall k :: k in queue ==> k in s.jobs && s.jobs[k].state == Queued)
    requires a < b < |queue| && Twins(s.jobs[queue[a]], s.jobs[queue[b]])
    requires queue[a] in PlaceAll(s, queue[..b], now, lease).jobs && PlaceAll(s, queue[..b], now, lease).jobs[queue[a]].state == Queued
    ensures PlaceAll(s, queue[..b + 1], now, lease) == PlaceAll(s, queue[..b], now, lease)
    ensures queue[b] in PlaceAll(s, queue[..b], now, lease).jobs && PlaceAll(s, queue[..b], now, lease).jobs[queue[b]] == s.jobs[queue[b]]
  {
    hide PlaceAll, Inv, Passed, WithinQuota, Candidates, PlaceOne;
    var t := PlaceAll(s, queue[..b], now, lease);
    DistinctPrefix(queue, b);
    assert queue[a] in queue[..b] by { assert queue[..b][a] == queue[a]; }
    PlaceAllKeepsInv(s, queue[..b], now, lease);
    PlaceAllSettles(s, queue[..b], now, lease);
    PassExactly(s, queue[..b], now, lease);
    StillWaiting(s, t, Elements(queue[..b]), now, lease, queue[a]);
    NotServed(s, t, Elements(queue[..b]), now, lease, queue[b]);
    SameNeeds(t, t.jobs[queue[a]], t.jobs[queue[b]]);
    PlaceLast(s, queue[..b + 1], now, lease);
    TurnDoesNothing(t, queue[b], now, lease);
  }

  lemma TurnDoesNothing(t: State, id: JobId, now: int, lease: int)
    requires id in t.jobs && (WithinQuota(t, t.jobs[id]) ==> Candidates(t, t.jobs[id].request, now) == {})
    ensures PlaceOne(t, id, now, lease) == t
  {
    hide WithinQuota, Candidates;
  }

  lemma OrderFacts(s: State, queue: seq<JobId>)
    requires IsQueueOrder(s, queue)
    ensures Distinct(queue) && forall k :: k in queue ==> k in s.jobs && s.jobs[k].state == Queued
  {
    hide GoesBefore;
  }

  lemma LaterPlaces(queue: seq<JobId>, a: nat, b: nat)
    requires Distinct(queue) && a < b < |queue|
    ensures queue[a] !in queue[b..] && queue[b] !in queue[b + 1..]
  {
  }

  /** A pass never serves a job and leaves a more urgent one waiting that asks for the same on the same account. */
  lemma TwinsByUrgency(s: State, queue: seq<JobId>, now: int, lease: int, j: JobId, k: JobId)
    requires Inv(s) && IsQueueOrder(s, queue) && j in s.jobs && k in s.jobs
    requires s.jobs[j].state == Queued && s.jobs[k].state == Queued && Twins(s.jobs[j], s.jobs[k]) && MoreUrgent(s.jobs[j], s.jobs[k])
    ensures var r := PlaceAll(s, queue, now, lease);
            j in r.jobs && k in r.jobs && (r.jobs[k].state == Scheduled ==> r.jobs[j].state == Scheduled)
  {
    var a, b := UrgentComesFirst(s, queue, j, k);
    OrderFacts(s, queue);
    hide *;
    LaterPlaces(queue, a, b);
    var r, t := PlaceAll(s, queue, now, lease), PlaceAll(s, queue[..b], now, lease);
    PlaceAllKeepsInv(s, queue, now, lease);
    DistinctPrefix(queue, b);
    PlaceAllKeepsInv(s, queue[..b], now, lease);
    PassExactly(s, queue[..b], now, lease);
    StillWaiting(s, t, Elements(queue[..b]), now, lease, j);
    TurnsStand(s, queue, now, lease, b, j);
    if t.jobs[j].state == Queued {
      TwinWaits(s, queue, now, lease, a, b);
      TurnsStand(s, queue, now, lease, b + 1, k);
    }
  }

  // ---------- best fit ----------

  /** CPUs not allocated on a node. */
  ghost function IdleCpus(s: State, n: Inventory): int {
    |n.cpus| - |UsedCpus(s, n.id)|
  }

  ghost function IdleMemory(s: State, n: Inventory): int {
    n.memory - Total(MemoryOn(s, n.id))
  }

  /** The node is the tighter fit: fewer idle CPUs, then less idle memory, then the smaller id. */
  ghost predicate FitsTighter(s: State, n: Inventory, m: Inventory) {
    || IdleCpus(s, n) < IdleCpus(s, m)
    || (IdleCpus(s, n) == IdleCpus(s, m)
        && (IdleMemory(s, n) < IdleMemory(s, m) || (IdleMemory(s, n) == IdleMemory(s, m) && n.id <= m.id)))
  }

  /** A job's turn puts it on the tightest of all nodes with room for it, if its quota has room. */
  lemma TurnTakesTightest(s: State, id: JobId, now: int, lease: int) returns (best: Option<Inventory>)
    requires Inv(s) && id in s.jobs && s.jobs[id].state == Queued
    ensures var j := s.jobs[id];
            match best
            case None =>
              && PlaceOne(s, id, now, lease) == s
              && (QuotaHasRoom(s, j.project, j.request) ==> forall n :: n in s.nodes ==> !HasRoom(s, j.request, s.nodes[n], now))
            case Some(n) =>
              && PlaceOne(s, id, now, lease) == Reserve(s, j, n, now, lease)
              && QuotaHasRoom(s, j.project, j.request) && n.id in s.nodes && s.nodes[n.id] == n && HasRoom(s, j.request, n, now)
              && forall m :: m in s.nodes && HasRoom(s, j.request, s.nodes[m], now) ==> FitsTighter(s, n, s.nodes[m])
  {
    var j := s.jobs[id];
    JobIsItself(s, id);
    MemoryAsked(j);
    QuotaTest(s, j);
    CandidatesHaveRoom(s, j.request, now);
    hide WithinQuota, QuotaHasRoom, HasRoom, Candidates, Reserve, FitsTighter, Inv;
    var candidates := Candidates(s, j.request, now);
    if WithinQuota(s, j) && candidates != {} {
      var n := Best(s, j.request, candidates);
      NodeIsItself(s, n);
      best := Some(s.nodes[n]);
      forall m | m in s.nodes && HasRoom(s, j.request, s.nodes[m], now) ensures FitsTighter(s, s.nodes[n], s.nodes[m]) {
        TightestOf(s, j.request, candidates, n, m, now);
      }
    } else {
      best := None;
    }
  }

  lemma CandidatesHaveRoom(s: State, r: Request, now: int)
    requires r.memory >= 0
    ensures forall n :: n in Candidates(s, r, now) <==> n in s.nodes && HasRoom(s, r, s.nodes[n], now)
  {
    forall n | n in s.nodes ensures n in Candidates(s, r, now) <==> HasRoom(s, r, s.nodes[n], now) {
      RoomTest(s, r, s.nodes[n], now);
    }
    hide HasRoom, AvailableFit;
  }

  lemma TightestOf(s: State, r: Request, candidates: set<NodeId>, n: NodeId, m: NodeId, now: int)
    requires Inv(s) && candidates == Candidates(s, r, now) && candidates <= s.nodes.Keys && m in candidates && IsBest(s, r, candidates, n)
    ensures FitsTighter(s, s.nodes[n], s.nodes[m])
  {
    hide *;
    assert n in candidates by { BestIsMember(s, r, candidates, n); }
    CandidateFits(s, r, now, n);
    CandidateFits(s, r, now, m);
    PenaltyNeverApplies(s, r, s.nodes[n]);
    PenaltyNeverApplies(s, r, s.nodes[m]);
    MemoryIs(s, s.nodes[n].id);
    MemoryIs(s, s.nodes[m].id);
    ScoreOf(s, r, candidates, n, m);
  }

  lemma BestIsMember(s: State, r: Request, candidates: set<NodeId>, n: NodeId)
    requires candidates <= s.nodes.Keys && IsBest(s, r, candidates, n)
    ensures n in candidates
  {
    hide ScoresBelow;
  }

  lemma CandidateFits(s: State, r: Request, now: int, n: NodeId)
    requires Inv(s) && n in Candidates(s, r, now)
    ensures n in s.nodes && AvailableFit(s, r, s.nodes[n]) && ValidInventory(s.nodes[n])
  {
    hide AvailableFit, ValidInventory, Linked, Apart, Attempts, QuotasKept, LogOk, Replays;
  }

  lemma ScoreOf(s: State, r: Request, candidates: set<NodeId>, n: NodeId, m: NodeId)
    requires candidates <= s.nodes.Keys && IsBest(s, r, candidates, n) && m in candidates && n in candidates
    requires LocalGpuPenalty(s, r, s.nodes[n]) == 0 && LocalGpuPenalty(s, r, s.nodes[m]) == 0
    requires UsedMemory(s, s.nodes[n].id) == Total(MemoryOn(s, s.nodes[n].id)) && UsedMemory(s, s.nodes[m].id) == Total(MemoryOn(s, s.nodes[m].id))
    ensures FitsTighter(s, s.nodes[n], s.nodes[m])
  {
    hide LocalGpuPenalty, UsedMemory, MemoryOn, Total, UsedCpus;
  }
}
