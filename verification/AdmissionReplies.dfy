/** What the admission controller of lab 33 tells its callers, whatever the order of the times they give. */
module AdmissionReplies {
  import opened Admission

  /** No more in flight than there are workers, no more waiting than the queue holds. */
  ghost predicate Housed(k: Config, s: State) {
    ValidConfig(k) && |s.inflight| <= k.workers && |s.queue| <= k.queueLimit && (s.queue != [] ==> |s.inflight| == k.workers)
  }

  lemma CompleteKeepsHoused(k: Config, s: State)
    requires Housed(k, s) && s.inflight != []
    ensures Housed(k, CompleteOne(k, s))
    ensures |CompleteOne(k, s).queue| <= |s.queue| && CompleteOne(k, s).deepest == s.deepest
    ensures |CompleteOne(k, s).inflight| + |CompleteOne(k, s).queue| == |s.inflight| + |s.queue| - 1
  {
    hide Start;
  }

  /** Moving time leaves only work that is due later, and only shortens the queue. */
  lemma {:induction false} AdvanceKeepsHoused(k: Config, s: State, now: int)
    requires Housed(k, s)
    ensures var a := AdvanceTo(k, s, now);
            && Housed(k, a) && |a.queue| <= |s.queue| && a.deepest == s.deepest
            && forall i :: 0 <= i < |a.inflight| ==> now < a.inflight[i].completed
    decreases |s.inflight| + |s.queue|
  {
    hide CompleteOne, Housed;
    if s.inflight != [] && NextCompletion(s) <= now {
      CompleteKeepsHoused(k, s);
      AdvanceKeepsHoused(k, CompleteOne(k, s), now);
    }
  }

  lemma SubmitKeepsHoused(k: Config, s: State, id: nat, now: int)
    requires Housed(k, s) && |s.queue| <= s.deepest
    ensures var t := Submit(k, s, id, now).0;
            && Housed(k, t)
            && t.deepest == if |t.queue| > s.deepest then |t.queue| else s.deepest
  {
    hide AdvanceTo;
    AdvanceKeepsHoused(k, s, now);
  }

  /** The deepest queue reported is the longest there has been after any call. */
  lemma {:induction false} DeepestIsReached(k: Config, calls: seq<Call>)
    requires ValidConfig(k)
    ensures Housed(k, After(k, calls))
    ensures forall i :: 0 <= i <= |calls| ==> |After(k, calls[..i]).queue| <= After(k, calls).deepest
    ensures exists i :: 0 <= i <= |calls| && |After(k, calls[..i]).queue| == After(k, calls).deepest
  {
    hide Housed, Submit, AdvanceTo;
    assert calls[..|calls|] == calls;
    if calls == [] {
      IdleIsHoused(k);
    } else {
      var n := |calls| - 1;
      var front, last := calls[..n], calls[n];
      DeepestIsReached(k, front);
      assert forall i :: 0 <= i <= n ==> front[..i] == calls[..i];
      assert |After(k, front[..n]).queue| <= After(k, front).deepest;
      match last {
        case SubmitAt(id, now) => SubmitKeepsHoused(k, After(k, front), id, now);
        case AdvanceAt(now) => AdvanceKeepsHoused(k, After(k, front), now);
      }
      var i :| 0 <= i <= n && |After(k, front[..i]).queue| == After(k, front).deepest;
      assert |After(k, calls[..i]).queue| == After(k, front).deepest;
      assert |After(k, calls[..n + 1]).queue| == |After(k, calls).queue|;
    }
  }

  lemma IdleIsHoused(k: Config)
    requires ValidConfig(k)
    ensures Housed(k, IDLE)
  {
  }

  /** A worker is free at that time. */
  ghost predicate StartedNow(k: Config, t: State, id: nat, now: int) {
    && t.inflight != [] && t.inflight[|t.inflight| - 1] == Served(id, now, now, now + k.serviceTime)
    && t.queue == []
  }

  ghost predicate WaitsLast(k: Config, t: State, id: nat, now: int) {
    t.queue != [] && t.queue[|t.queue| - 1] == Queued(id, now) && |t.inflight| == k.workers
  }

  /** After `wait` more time units the next worker finishes, and no sooner. */
  ghost predicate NextIsDue(t: State, at: int) {
    && (exists i :: 0 <= i < |t.inflight| && t.inflight[i].completed == at)
    && (forall i :: 0 <= i < |t.inflight| ==> at <= t.inflight[i].completed)
  }

  /**
   * The decision tells what became of the request: started at once, last in the queue, or refused by a full house with the
   * time until the next completion; and how many wait after it.
   */
  lemma DecisionTells(k: Config, calls: seq<Call>, id: nat, now: int)
    requires ValidConfig(k)
    ensures var (t, d) := Submit(k, After(k, calls), id, now);
            && d.depth == |t.queue|
            && (d.accepted <==> !d.reason.QueueFull?)
            && (d.reason.Accepted? ==> StartedNow(k, t, id, now) && d.retryAfter == 0)
            && (d.reason.QueuedUp? ==> WaitsLast(k, t, id, now) && d.retryAfter == 0)
            && (d.reason.QueueFull? ==> Saturated(k, t) && NextIsDue(t, now + d.retryAfter) && d.retryAfter >= 1)
  {
    hide AdvanceTo, After;
    DeepestIsReached(k, calls);
    AdvanceKeepsHoused(k, After(k, calls), now);
  }

  lemma RetryWhenFull(k: Config, t: State, at: int, id: nat, later: int)
    requires Housed(k, t) && Saturated(k, t) && NextIsDue(t, at)
    ensures later < at ==> Submit(k, t, id, later) == (t, Decision(false, QueueFull, |t.queue|, at - later))
    ensures later >= at ==> Submit(k, t, id, later).1.accepted
  {
    assert NextCompletion(t) == at;
    hide CompleteOne, Soonest, NextIsDue;
    if later >= at {
      AdvanceMakesProgress(k, t, later);
      AdvanceKeepsHoused(k, t, later);
    }
  }

  lemma RefusalIsBare(k: Config, s: State, id: nat, now: int)
    requires ValidConfig(k) && !Submit(k, s, id, now).1.accepted
    ensures var (t, d) := Submit(k, s, id, now); d == Decision(false, QueueFull, |t.queue|, d.retryAfter)
  {
  }

  /** The time until retrying is exact: a refused caller is refused at any earlier time, and accepted then. */
  lemma RetryAfterIsExact(k: Config, calls: seq<Call>, id: nat, now: int, next: nat, later: int)
    requires ValidConfig(k)
    requires !Submit(k, After(k, calls), id, now).1.accepted && now <= later
    ensures var (t, d) := Submit(k, After(k, calls), id, now);
            && (later < now + d.retryAfter ==> Submit(k, t, next, later) == (t, d.(retryAfter := now + d.retryAfter - later)))
            && (later >= now + d.retryAfter ==> Submit(k, t, next, later).1.accepted)
  {
    hide Submit, After, NextIsDue;
    var (t, d) := Submit(k, After(k, calls), id, now);
    DecisionTells(k, calls, id, now);
    DeepestIsReached(k, calls + [SubmitAt(id, now)]);
    assert (calls + [SubmitAt(id, now)])[..|calls|] == calls;
    RefusalIsBare(k, After(k, calls), id, now);
    RetryWhenFull(k, t, now + d.retryAfter, next, later);
  }
}
