/** Leases of the resource scheduler (lab 38): exactly which allocations are given up when, and what becomes of their jobs. */
module SchedulerLeases {
  import opened Options
  import opened Sequences
  import opened Scheduler
  import opened SchedulerSafety

  /** The job of one of these allocations has run out of its lease by `now`. */
  ghost predicate RanOut(s: State, among: set<AllocationId>, job: JobId, now: int) {
    exists id :: id in among && Owns(s, id, job) && s.allocations[id].leaseExpiresAt <= now
  }

  /** A job whose lease ran out waits for another attempt if it has one left, and has failed otherwise. */
  ghost predicate GivenBack(j: Job, k: Job) {
    k == j.(state := if j.attempts < j.maxAttempts then Queued else Failed, lastError := Some("allocation lease expired"))
  }

  /** Of these allocations exactly those whose lease ended by `now` are gone, and exactly their jobs are given back. */
  ghost predicate ExpiredAmong(s: State, r: State, among: set<AllocationId>, now: int) {
    && r == s.(log := r.log, allocations := r.allocations, jobs := r.jobs) && r.jobs.Keys == s.jobs.Keys
    && (forall id :: id in r.allocations <==> id in s.allocations && (id in among ==> now < s.allocations[id].leaseExpiresAt))
    && (forall id :: id in r.allocations ==> r.allocations[id] == s.allocations[id])
    && forall j :: j in s.jobs ==> if RanOut(s, among, j, now) then GivenBack(s.jobs[j], r.jobs[j]) else r.jobs[j] == s.jobs[j]
  }

  lemma Holder(s: State, id: AllocationId)
    requires Inv(s) && id in s.allocations
    ensures var a := s.allocations[id];
            && a.id == id && a.job in s.jobs && s.jobs[a.job].id == a.job
            && forall x :: x in s.allocations && x != id ==> s.allocations[x].job != a.job
  {
    hide Apart, Attempts, QuotasKept, NodesOk, LogOk, Replays, Fills;
    assert AllocationOk(s, id);
  }

  lemma OneRunsOut(s: State, r: State, among: set<AllocationId>, id: AllocationId, now: int)
    requires Inv(s) && ExpiredAmong(s, r, among, now) && id in s.allocations && id !in among
    ensures ExpiredAmong(s, RecoverOne(r, id, now), among + {id}, now)
  {
    hide Inv, RanOut, GivenBack, RecoverOne;
    Holder(s, id);
    RanOutGrows(s, among, id, now);
    OneRecovered(s, r, among, id, now);
  }

  lemma RanOutGrows(s: State, among: set<AllocationId>, id: AllocationId, now: int)
    requires id in s.allocations && id !in among
    requires forall x :: x in s.allocations && x != id ==> s.allocations[x].job != s.allocations[id].job
    ensures !RanOut(s, among, s.allocations[id].job, now)
    ensures forall j :: RanOut(s, among + {id}, j, now) <==> RanOut(s, among, j, now) || (j == s.allocations[id].job && s.allocations[id].leaseExpiresAt <= now)
  {
    forall j ensures RanOut(s, among + {id}, j, now) <==> RanOut(s, among, j, now) || (j == s.allocations[id].job && s.allocations[id].leaseExpiresAt <= now) {
      if j == s.allocations[id].job && s.allocations[id].leaseExpiresAt <= now {
        assert Owns(s, id, j);
      }
    }
  }

  /** What one look at an allocation does. */
  lemma OneRecovered(s: State, r: State, among: set<AllocationId>, id: AllocationId, now: int)
    requires ExpiredAmong(s, r, among, now) && id in s.allocations && id !in among
    requires s.allocations[id].id == id && s.allocations[id].job in s.jobs && s.jobs[s.allocations[id].job].id == s.allocations[id].job
    requires !RanOut(s, among, s.allocations[id].job, now)
    requires forall j :: RanOut(s, among + {id}, j, now) <==> RanOut(s, among, j, now) || (j == s.allocations[id].job && s.allocations[id].leaseExpiresAt <= now)
    ensures ExpiredAmong(s, RecoverOne(r, id, now), among + {id}, now)
  {
    hide RanOut;
  }

  lemma {:induction false} RecoverRunsOut(s: State, ids: seq<AllocationId>, now: int)
    requires Inv(s) && Distinct(ids) && forall id :: id in ids ==> id in s.allocations
    ensures ExpiredAmong(s, Recover(s, ids, now), Elements(ids), now)
  {
    hide Inv, ExpiredAmong, RecoverOne;
    if ids == [] {
      NothingRunsOut(s, now);
    } else {
      var front, last := ids[..|ids| - 1], ids[|ids| - 1];
      assert ids == front + [last] && last !in front;
      RecoverRunsOut(s, front, now);
      OneRunsOut(s, Recover(s, front, now), Elements(front), last, now);
      assert Elements(ids) == Elements(front) + {last};
    }
  }

  lemma NothingRunsOut(s: State, now: int)
    ensures ExpiredAmong(s, s, {}, now) && Elements<AllocationId>([]) == {}
  {
  }

  // ---------- the log of a recovery ----------

  /** The new entries of the log are one for each of these allocations that ran out, naming its job and node. */
  ghost predicate LoggedAmong(s: State, r: State, among: set<AllocationId>, now: int) {
    && s.log <= r.log
    && |r.log| - |s.log| == |Gone(s, among, now)|
    && (forall i :: |s.log| <= i < |r.log| ==>
          exists id :: id in Gone(s, among, now)
            && r.log[i] == LogEntry(i + 1, s.term, LeaseExpired, s.allocations[id].job, Some(s.allocations[id].node)))
  }

  ghost function Gone(s: State, among: set<AllocationId>, now: int): set<AllocationId> {
    set id | id in among && id in s.allocations && s.allocations[id].leaseExpiresAt <= now
  }

  lemma OneIsLogged(s: State, r: State, among: set<AllocationId>, id: AllocationId, now: int)
    requires Inv(s) && ExpiredAmong(s, r, among, now) && LoggedAmong(s, r, among, now) && id in s.allocations && id !in among
    ensures LoggedAmong(s, RecoverOne(r, id, now), among + {id}, now)
  {
    hide Inv, RanOut, GivenBack, RecoverOne;
    Holder(s, id);
    RanOutGrows(s, among, id, now);
    LogOfOne(s, r, among, id, now);
    var t := RecoverOne(r, id, now);
    if s.allocations[id].leaseExpiresAt <= now {
      GoneMore(s, r, t, among, id, now);
    } else {
      assert Gone(s, among + {id}, now) == Gone(s, among, now);
    }
  }

  lemma LogOfOne(s: State, r: State, among: set<AllocationId>, id: AllocationId, now: int)
    requires ExpiredAmong(s, r, among, now) && id in s.allocations && id !in among
    requires s.allocations[id].job in s.jobs && s.jobs[s.allocations[id].job].id == s.allocations[id].job
    requires !RanOut(s, among, s.allocations[id].job, now)
    ensures RecoverOne(r, id, now).log
            == if s.allocations[id].leaseExpiresAt <= now
               then r.log + [LogEntry(|r.log| + 1, s.term, LeaseExpired, s.allocations[id].job, Some(s.allocations[id].node))] else r.log
  {
    hide RanOut;
  }

  lemma GoneMore(s: State, r: State, t: State, among: set<AllocationId>, id: AllocationId, now: int)
    requires LoggedAmong(s, r, among, now) && id in s.allocations && id !in among && s.allocations[id].leaseExpiresAt <= now
    requires t.log == r.log + [LogEntry(|r.log| + 1, s.term, LeaseExpired, s.allocations[id].job, Some(s.allocations[id].node))]
    ensures LoggedAmong(s, t, among + {id}, now)
  {
    var more := among + {id};
    assert Gone(s, more, now) == Gone(s, among, now) + {id};
    forall i | |s.log| <= i < |t.log|
      ensures exists x :: x in Gone(s, more, now)
                && t.log[i] == LogEntry(i + 1, s.term, LeaseExpired, s.allocations[x].job, Some(s.allocations[x].node))
    {
      if i < |r.log| {
        var x :| x in Gone(s, among, now) && r.log[i] == LogEntry(i + 1, s.term, LeaseExpired, s.allocations[x].job, Some(s.allocations[x].node));
        assert x in Gone(s, more, now);
      } else {
        assert id in Gone(s, more, now);
      }
    }
  }

  lemma {:induction false} RecoverLogs(s: State, ids: seq<AllocationId>, now: int)
    requires Inv(s) && Distinct(ids) && forall id :: id in ids ==> id in s.allocations
    ensures LoggedAmong(s, Recover(s, ids, now), Elements(ids), now)
  {
    hide Inv, ExpiredAmong, RecoverOne, LoggedAmong;
    if ids == [] {
      NothingLoggedYet(s, now);
    } else {
      var front, last := ids[..|ids| - 1], ids[|ids| - 1];
      assert ids == front + [last] && last !in front;
      RecoverLogs(s, front, now);
      RecoverRunsOut(s, front, now);
      OneIsLogged(s, Recover(s, front, now), Elements(front), last, now);
      assert Elements(ids) == Elements(front) + {last};
    }
  }

  lemma NothingLoggedYet(s: State, now: int)
    ensures LoggedAmong(s, s, {}, now) && Elements<AllocationId>([]) == {}
  {
    assert Gone(s, {}, now) == {};
  }

  // ---------- a whole recovery ----------

  /** What recovery leaves: exactly the leases that end after `now`, and exactly the jobs of all others given back. */
  ghost predicate Recovered(s: State, r: State, now: int) {
    && r == s.(log := r.log, allocations := r.allocations, jobs := r.jobs) && r.jobs.Keys == s.jobs.Keys
    && r.allocations == (map id | id in s.allocations && now < s.allocations[id].leaseExpiresAt :: s.allocations[id])
    && forall j :: j in s.jobs ==>
         if exists id :: Owns(s, id, j) && s.allocations[id].leaseExpiresAt <= now then GivenBack(s.jobs[j], r.jobs[j])
         else r.jobs[j] == s.jobs[j]
  }

  /** In whatever order the leases are looked at. */
  lemma RecoverExactly(s: State, ids: seq<AllocationId>, now: int)
    requires Inv(s) && IsEnumeration(s, ids)
    ensures Recovered(s, Recover(s, ids, now), now) && LoggedAmong(s, Recover(s, ids, now), s.allocations.Keys, now)
  {
    hide Inv, Recover, GivenBack, LoggedAmong;
    RecoverRunsOut(s, ids, now);
    RecoverLogs(s, ids, now);
    assert Elements(ids) == s.allocations.Keys;
    forall j ensures RanOut(s, Elements(ids), j, now) <==> exists id :: Owns(s, id, j) && s.allocations[id].leaseExpiresAt <= now {
      if id :| Owns(s, id, j) && s.allocations[id].leaseExpiresAt <= now {
        assert id in Elements(ids);
      }
    }
  }

  /** An accepted recovery at `now` gives up exactly the leases that have ended by then. */
  lemma RecoverExpiredExactly(s: State, caller: NodeId, now: int, expiry: seq<AllocationId>)
    requires Inv(s) && Fits(s, RecoverExpired(caller, now, expiry))
    ensures var (r, error) := Step(s, RecoverExpired(caller, now, expiry));
            if s.leader == Some(caller) then error == None && Recovered(s, r, now) && LoggedAmong(s, r, s.allocations.Keys, now)
            else error == Some(NotLeader) && r == s
  {
    RecoverExactly(s, expiry, now);
    hide Recover, Recovered, LoggedAmong;
  }
}
