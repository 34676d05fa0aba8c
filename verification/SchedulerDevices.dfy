/** Which CPUs and GPUs a job of lab 38 gets, and what a scheduling pass writes to the log. */
module SchedulerDevices {
  import opened Options
  import opened Sequences
  import opened Scheduler
  import opened SchedulerSafety
  import opened SchedulerRuns
  import opened SchedulerPlacement

  // ---------- the first that are free ----------

  /** Of the CPUs open to the request, the lowest are taken. */
  ghost predicate TakesLowestCpus(s: State, a: Allocation, r: Request, n: Inventory) {
    a.cpus <= OpenCpus(s, r, n) && forall x, y :: x in a.cpus && y in OpenCpus(s, r, n) - a.cpus ==> x < y
  }

  /** Of the GPUs open to the request, those listed first are taken. */
  ghost predicate TakesFirstGpus(s: State, a: Allocation, r: Request, n: Inventory) {
    && (forall g :: g in a.gpus ==> exists p :: p in OpenGpus(s, r, n) && n.gpus[p].id == g)
    && forall p, q :: p < q && p in OpenGpus(s, r, n) && q in OpenGpus(s, r, n) && n.gpus[q].id in a.gpus ==> n.gpus[p].id in a.gpus
  }

  /** The place of a kept element among the kept ones. */
  function Rank(gpus: seq<Gpu>, keep: Gpu -> bool, q: nat): nat
    requires q <= |gpus|
  {
    |Filter(gpus[..q], keep)|
  }

  lemma {:induction false} KeptAtRank(gpus: seq<Gpu>, keep: Gpu -> bool, q: nat)
    requires q < |gpus| && keep(gpus[q])
    ensures Rank(gpus, keep, q) < |Filter(gpus, keep)| && Filter(gpus, keep)[Rank(gpus, keep, q)] == gpus[q]
    decreases |gpus|
  {
    var n := |gpus| - 1;
    if q < n {
      KeptAtRank(gpus[..n], keep, q);
      assert gpus[..n][..q] == gpus[..q];
    }
  }

  lemma {:induction false} RankRises(gpus: seq<Gpu>, keep: Gpu -> bool, p: nat, q: nat)
    requires p < q <= |gpus| && keep(gpus[p])
    ensures Rank(gpus, keep, p) < Rank(gpus, keep, q)
  {
    assert gpus[..q][..p] == gpus[..p];
    KeptAtRank(gpus[..q], keep, p);
  }

  lemma KeptFrom(gpus: seq<Gpu>, keep: Gpu -> bool, i: nat) returns (x: nat)
    requires i < |Filter(gpus, keep)|
    ensures x < |gpus| && gpus[x] == Filter(gpus, keep)[i]
  {
    FilterMembers(gpus, keep);
    assert Filter(gpus, keep)[i] in gpus;
    x :| 0 <= x < |gpus| && gpus[x] == Filter(gpus, keep)[i];
  }

  lemma FirstKeptAreFirst(gpus: seq<Gpu>, keep: Gpu -> bool, k: nat, p: nat, q: nat)
    requires forall i, j :: 0 <= i < j < |gpus| ==> gpus[i].id != gpus[j].id
    requires p < q < |gpus| && keep(gpus[p]) && keep(gpus[q]) && gpus[q].id in FirstGpus(Filter(gpus, keep), k)
    ensures gpus[p].id in FirstGpus(Filter(gpus, keep), k)
  {
    var kept := Filter(gpus, keep);
    KeptAtRank(gpus, keep, p);
    KeptAtRank(gpus, keep, q);
    RankRises(gpus, keep, p, q);
    hide Filter, Rank;
    var i :| 0 <= i < |FirstGpus(kept, k)| && FirstGpus(kept, k)[i] == gpus[q].id;
    var x := KeptFrom(gpus, keep, i);
    assert x == q;
    SameRank(gpus, keep, q, i);
    assert FirstGpus(kept, k)[Rank(gpus, keep, p)] == gpus[p].id;
  }

  lemma {:induction false} SameRank(gpus: seq<Gpu>, keep: Gpu -> bool, q: nat, i: nat)
    requires forall i, j :: 0 <= i < j < |gpus| ==> gpus[i].id != gpus[j].id
    requires q < |gpus| && keep(gpus[q]) && i < |Filter(gpus, keep)| && Filter(gpus, keep)[i] == gpus[q]
    ensures i == Rank(gpus, keep, q)
    decreases |gpus|
  {
    var n := |gpus| - 1;
    FilterMembers(gpus[..n], keep);
    if q < n {
      assert gpus[..n][..q] == gpus[..q];
      assert gpus[n] != gpus[q];
      SameRank(gpus[..n], keep, q, i);
    } else if i < |Filter(gpus[..n], keep)| {
      assert Filter(gpus[..n], keep)[i] in gpus[..n];
      assert false;
    }
  }

  lemma OpenGpusAre(s: State, r: Request, n: Inventory)
    ensures FreeGpus(s, r, n) == Filter(n.gpus, Both(r, UsedGpus(s, n.id)))
    ensures forall p :: p in OpenGpus(s, r, n) <==> 0 <= p < |n.gpus| && Both(r, UsedGpus(s, n.id))(n.gpus[p])
  {
    var used := UsedGpus(s, n.id);
    forall g ensures g in used <==> GpuTaken(s, n.id, g) {
    }
    hide UsedGpus, GpuTaken;
    FilterBoth(n.gpus, Matching(r), NotIn(used), Both(r, used));
  }

  lemma ReservationTakesFirst(s: State, j: Job, n: Inventory, now: int, lease: int)
    requires ValidInventory(n)
    ensures var a := NewAllocation(s, j, n, now, lease); TakesLowestCpus(s, a, j.request, n) && TakesFirstGpus(s, a, j.request, n)
  {
    var a, r := NewAllocation(s, j, n, now, lease), j.request;
    var keep := Both(r, UsedGpus(s, n.id));
    OpenCpusAre(s, r, n);
    OpenGpusAre(s, r, n);
    hide FreeCpus, OpenCpus, FreeGpus, OpenGpus, UsedGpus, Both, Smallest, Filter;
    forall x, y | x in a.cpus && y in OpenCpus(s, r, n) - a.cpus ensures x < y {
      SmallestAreLeast(FreeCpus(s, r, n), Natural(r.cpuCores), x, y);
    }
    FilterMembers(n.gpus, keep);
    forall g | g in a.gpus ensures exists p :: p in OpenGpus(s, r, n) && n.gpus[p].id == g {
      var i :| 0 <= i < |a.gpus| && a.gpus[i] == g;
      assert FreeGpus(s, r, n)[i] in n.gpus;
      var p :| 0 <= p < |n.gpus| && n.gpus[p] == FreeGpus(s, r, n)[i];
      assert p in OpenGpus(s, r, n);
    }
    forall p, q | p < q && p in OpenGpus(s, r, n) && q in OpenGpus(s, r, n) && n.gpus[q].id in a.gpus ensures n.gpus[p].id in a.gpus {
      FirstKeptAreFirst(n.gpus, keep, Natural(r.gpuCount), p, q);
    }
  }

  /** A job's turn gives it, if anything, the lowest open CPUs and the first open GPUs of its node. */
  lemma TurnTakesFirst(s: State, id: JobId, now: int, lease: int, k: AllocationId)
    requires Inv(s) && id in s.jobs && s.jobs[id].state == Queued
    requires var r := PlaceOne(s, id, now, lease); k in r.allocations && k !in s.allocations
    ensures var a := PlaceOne(s, id, now, lease).allocations[k];
            && a.job == id && a.node in s.nodes
            && TakesLowestCpus(s, a, s.jobs[id].request, s.nodes[a.node]) && TakesFirstGpus(s, a, s.jobs[id].request, s.nodes[a.node])
  {
    hide *;
    JobIsItself(s, id);
    var best := Placement(s, id, now, lease);
    if best.Some? {
      var j, n := s.jobs[id], best.value;
      NodeIsItself(s, n.id);
      ReserveIs(s, j, n, now, lease);
      AllocationNames(s, j, n, now, lease);
      ReservationTakesFirst(s, j, n, now, lease);
    }
  }

  // ---------- the log of a pass ----------

  /** The new log entries tell of the new allocations, each under the revision that is its id. */
  ghost predicate Told(s: State, r: State) {
    && s.log <= r.log && r.term == s.term
    && (forall id :: id in s.allocations ==> id in r.allocations && r.allocations[id] == s.allocations[id])
    && (forall id :: id in r.allocations && id !in s.allocations ==> |s.log| < id <= |r.log|)
    && forall k :: |s.log| < k <= |r.log| ==>
         && k in r.allocations && k !in s.allocations
         && r.log[k - 1] == LogEntry(k, s.term, Reserved, r.allocations[k].job, Some(r.allocations[k].node))
  }

  lemma TurnIsTold(s: State, id: JobId, now: int, lease: int)
    requires Inv(s) && id in s.jobs && s.jobs[id].state == Queued
    ensures Told(s, PlaceOne(s, id, now, lease))
  {
    hide *;
    JobIsItself(s, id);
    NothingTold(s);
    var best := Placement(s, id, now, lease);
    if best.Some? {
      var j, n := s.jobs[id], best.value;
      FreshAllocation(s, j, n, now, lease);
      AllocationNames(s, j, n, now, lease);
      ReserveIs(s, j, n, now, lease);
      OneTold(s, Reserve(s, j, n, now, lease), NewAllocation(s, j, n, now, lease));
    }
  }

  lemma NothingTold(s: State)
    ensures Told(s, s)
  {
  }

  lemma OneTold(s: State, r: State, a: Allocation)
    requires a.id == |s.log| + 1 && a.id !in s.allocations && r.allocations == s.allocations[a.id := a] && r.term == s.term
    requires r.log == s.log + [LogEntry(|s.log| + 1, s.term, Reserved, a.job, Some(a.node))]
    ensures Told(s, r)
  {
  }

  lemma ToldTwice(s: State, t: State, r: State)
    requires Told(s, t) && Told(t, r)
    ensures Told(s, r)
  {
    forall k | |s.log| < k <= |r.log|
      ensures k in r.allocations && k !in s.allocations
      ensures r.log[k - 1] == LogEntry(k, s.term, Reserved, r.allocations[k].job, Some(r.allocations[k].node))
    {
      if k <= |t.log| {
        assert t.log[k - 1] == r.log[k - 1];
      }
    }
  }

  /** A pass logs every allocation it makes, and nothing else. */
  lemma {:induction false} PassIsTold(s: State, queue: seq<JobId>, now: int, lease: int)
    requires Inv(s) && Distinct(queue) && forall j :: j in queue ==> j in s.jobs && s.jobs[j].state == Queued
    ensures Told(s, PlaceAll(s, queue, now, lease))
  {
    hide *;
    if queue == [] {
      PlaceNone(s, now, lease);
      NothingTold(s);
    } else {
      var front, last := queue[..|queue| - 1], queue[|queue| - 1];
      DistinctFront(queue);
      var t := PlaceAll(s, front, now, lease);
      PlaceLast(s, queue, now, lease);
      PlaceAllKeepsInv(s, front, now, lease);
      PassIsTold(s, front, now, lease);
      TurnIsTold(t, last, now, lease);
      ToldTwice(s, t, PlaceAll(s, queue, now, lease));
    }
  }
}
