/** In what order the DAG engine (lab 30) starts and records attempts, and how many it runs at once at most. */
module DagOrder {
  import opened DagModel
  import opened DagRun
  import opened DagTimes

  // ---------- the peak is met ----------

  /** An attempt is in progress from its start until its end; one that takes no time, at its instant. */
  predicate InProgress(r: Record, time: nat) {
    r.started <= time && (time < r.finished || r.started == time)
  }

  function Open(records: seq<Record>, time: nat): nat {
    if records == [] then 0
    else Open(records[..|records| - 1], time) + (if InProgress(records[|records| - 1], time) then 1 else 0)
  }

  ghost predicate MetAt(s: Sim, time: nat) {
    && time <= s.now
    && s.peak <= Open(s.records, time) + |StartedBy(s.running, time)|
    && forall t :: t in s.running && s.running[t].started <= time ==> time < s.running[t].Finish() || s.running[t].started == time
  }

  ghost predicate PeakMet(s: Sim) {
    s.peak == 0 || exists time: nat :: MetAt(s, time)
  }

  /** Nothing in progress is over yet. */
  ghost predicate Undue(s: Sim) {
    forall t :: t in s.running ==> s.running[t].started <= s.now && (s.now < s.running[t].Finish() || s.running[t].started == s.now)
  }

  lemma StartMeetsPeak(s: Sim, t: Task, o: Outcome)
    requires PeakMet(s) && Undue(s) && t in s.counts && t !in s.running
    ensures PeakMet(StartOne(s, t, o)) && Undue(StartOne(s, t, o))
  {
    var r := StartOne(s, t, o);
    hide Open;
    if s.peak < |r.running| {
      assert StartedBy(r.running, s.now) == r.running.Keys;
      assert |r.running.Keys| == |r.running|;
      assert MetAt(r, s.now);
    } else {
      var time :| MetAt(s, time);
      assert StartedBy(s.running, time) <= StartedBy(r.running, time);
      MoreStarted(s.running, r.running, time);
      assert MetAt(r, time);
    }
  }

  lemma MoreStarted(a: map<Task, Attempt>, b: map<Task, Attempt>, time: nat)
    requires StartedBy(a, time) <= StartedBy(b, time)
    ensures |StartedBy(a, time)| <= |StartedBy(b, time)|
  {
    hide StartedBy;
    Sets.SubsetSize(StartedBy(a, time), StartedBy(b, time));
  }

  lemma OpenSnoc(records: seq<Record>, last: Record, time: nat)
    ensures Open(records + [last], time) == Open(records, time) + (if InProgress(last, time) then 1 else 0)
  {
    assert (records + [last])[..|records|] == records;
  }

  lemma LogMeetsPeak(s: Sim, r: Sim, t: Task)
    requires PeakMet(s) && Logs(s, r, t)
    ensures PeakMet(r)
  {
    if s.peak > 0 {
      var time :| MetAt(s, time);
      OpenSnoc(s.records, RecordOf(s, t), time);
      assert r.running.Keys == s.running.Keys - {t};
      if s.running[t].started <= time {
        assert StartedBy(r.running, time) == StartedBy(s.running, time) - {t};
      } else {
        assert StartedBy(r.running, time) == StartedBy(s.running, time);
      }
      assert MetAt(r, time);
    }
  }

  lemma AdvanceMeetsPeak(s: Sim, now: nat)
    requires PeakMet(s) && s.now <= now
    ensures PeakMet(s.(now := now))
  {
    if s.peak > 0 {
      var time :| MetAt(s, time);
      assert MetAt(s.(now := now), time);
    }
  }

  // ---------- records come in order ----------

  /** By the time they end; those that end together and took time, by task. */
  ghost predicate InEndOrder(records: seq<Record>) {
    && (forall i, j :: 0 <= i < j < |records| ==> records[i].finished <= records[j].finished)
    && forall i, j :: 0 <= i < j < |records| && records[i].finished == records[j].finished && TookTime(records[i]) && TookTime(records[j]) ==>
         records[i].task < records[j].task
  }

  predicate TookTime(r: Record) {
    r.started < r.finished
  }

  /** Of what has been recorded for this instant and took time, all tasks come before `t`. */
  ghost predicate ComesNext(s: Sim, t: Task)
    requires t in s.running
  {
    s.running[t].started < s.now ==>
      forall i :: 0 <= i < |s.records| && s.records[i].finished == s.now && TookTime(s.records[i]) ==> s.records[i].task < t
  }

  lemma LogInEndOrder(s: Sim, r: Sim, t: Task)
    requires InEndOrder(s.records) && Logs(s, r, t) && s.running[t].Finish() == s.now && ComesNext(s, t)
    requires forall i :: 0 <= i < |s.records| ==> s.records[i].finished <= s.now
    ensures InEndOrder(r.records)
  {
    assert r.records == s.records + [RecordOf(s, t)];
  }

  // ---------- nobody is overtaken ----------

  /** The `n`-th attempt of `t` began at `time`. */
  ghost predicate Began(records: seq<Record>, running: map<Task, Attempt>, t: Task, n: nat, time: nat) {
    || (exists i :: 0 <= i < |records| && records[i].task == t && records[i].attempt == n && records[i].started == time)
    || (t in running && running[t].number == n && running[t].started == time)
  }

  /** Something that the `n`-th attempt of `t` had to wait for ended at `time` or later: a dependency or its previous attempt. */
  ghost predicate HeldUntil(d: Dag, records: seq<Record>, t: Task, n: nat, time: nat) {
    exists i :: 0 <= i < |records| && time <= records[i].finished && Holds(d, records[i], t, n)
  }

  ghost predicate Holds(d: Dag, r: Record, t: Task, n: nat) {
    || (t in d.specs && r.task in d.specs[t].dependsOn && r.disposition == Success)
    || (r.task == t && r.attempt + 1 == n)
  }

  /** Of two attempts the one of the smaller task starts later only if it had to wait. */
  ghost predicate Fair(d: Dag, records: seq<Record>, running: map<Task, Attempt>) {
    forall t, n, a, u, m, b :: Began(records, running, t, n, a) && Began(records, running, u, m, b) && t < u && b < a ==>
      HeldUntil(d, records, t, n, b)
  }

  ghost predicate ReadyLate(d: Dag, s: Sim) {
    forall t, u, m, b :: t in s.ready && t in s.counts && t < u && Began(s.records, s.running, u, m, b) ==>
      HeldUntil(d, s.records, t, s.counts[t] + 1, b)
  }

  lemma StartIsFair(d: Dag, s: Sim, t: Task, o: Outcome)
    requires Fair(d, s.records, s.running) && ReadyLate(d, s) && IsLeast(s.ready, t) && t in s.counts && t !in s.running
    requires forall u, m: nat, b: nat :: Began(s.records, s.running, u, m, b) ==> b <= s.now
    ensures var r := StartOne(s, t, o); Fair(d, r.records, r.running) && ReadyLate(d, r)
  {
    var r := StartOne(s, t, o);
    forall u, m, b ensures Began(r.records, r.running, u, m, b) <==> Began(s.records, s.running, u, m, b) || (u == t && m == s.counts[t] + 1 && b == s.now) {
    }
    hide Began, HeldUntil;
  }

  lemma HeldLonger(d: Dag, records: seq<Record>, last: Record, t: Task, n: nat, time: nat)
    requires HeldUntil(d, records, t, n, time)
    ensures HeldUntil(d, records + [last], t, n, time)
  {
    var i :| 0 <= i < |records| && time <= records[i].finished && Holds(d, records[i], t, n);
    assert (records + [last])[i] == records[i];
  }

  lemma LogBegan(s: Sim, r: Sim, t: Task, u: Task, m: nat, b: nat)
    requires Logs(s, r, t)
    ensures Began(r.records, r.running, u, m, b) <==> Began(s.records, s.running, u, m, b)
  {
    var last := RecordOf(s, t);
    assert r.records[|s.records|] == last;
    if i :| 0 <= i < |s.records| && s.records[i].task == u && s.records[i].attempt == m && s.records[i].started == b {
      assert r.records[i] == s.records[i];
    }
    if i :| 0 <= i < |r.records| && r.records[i].task == u && r.records[i].attempt == m && r.records[i].started == b {
      assert i < |s.records| ==> r.records[i] == s.records[i];
    }
  }

  lemma LogIsFair(d: Dag, s: Sim, r: Sim, t: Task)
    requires Fair(d, s.records, s.running) && Logs(s, r, t)
    ensures Fair(d, r.records, r.running)
  {
    forall u, m, b ensures Began(r.records, r.running, u, m, b) <==> Began(s.records, s.running, u, m, b) {
      LogBegan(s, r, t, u, m, b);
    }
    assert r.records == s.records + [RecordOf(s, t)];
    hide Began, HeldUntil;
    forall u, n, a, v, m, b | Began(r.records, r.running, u, n, a) && Began(r.records, r.running, v, m, b) && u < v && b < a
      ensures HeldUntil(d, r.records, u, n, b)
    {
      HeldLonger(d, s.records, RecordOf(s, t), u, n, b);
    }
  }

  /** Whoever becomes ready when an attempt ends had to wait for that attempt. */
  lemma FinishReadyLate(d: Dag, s: Sim, t: Task)
    requires ReadyLate(d, s) && t in s.running && t in d.specs && s.running[t].Finish() == s.now && Keyed(d, s) && InOrder(d, s)
    requires s.running[t].number == s.counts[t]
    requires forall u, m: nat, b: nat :: Began(s.records, s.running, u, m, b) ==> b <= s.now
    ensures ReadyLate(d, FinishOne(d, s, t))
  {
    var r := FinishOne(d, s, t);
    FinishLogs(d, s, t);
    var last := RecordOf(s, t);
    forall u, m, b ensures Began(r.records, r.running, u, m, b) <==> Began(s.records, s.running, u, m, b) {
      LogBegan(s, r, t, u, m, b);
    }
    assert r.records == s.records + [last] && r.counts == s.counts;
    NewlyReady(d, s, t);
    hide Began, FinishOne;
    forall u, v, m, b | u in r.ready && u in r.counts && u < v && Began(r.records, r.running, v, m, b)
      ensures HeldUntil(d, r.records, u, r.counts[u] + 1, b)
    {
      if u in s.ready {
        HeldLonger(d, s.records, last, u, s.counts[u] + 1, b);
      } else {
        assert r.records[|s.records|] == last;
      }
    }
  }

  lemma NewlyReady(d: Dag, s: Sim, t: Task)
    requires t in s.running && t in d.specs && Keyed(d, s) && InOrder(d, s) && s.running[t].number == s.counts[t]
    ensures forall u :: u in FinishOne(d, s, t).ready && u !in s.ready && u in s.counts ==> Holds(d, RecordOf(s, t), u, s.counts[u] + 1)
  {
    forall u | u in FinishOne(d, s, t).ready && u !in s.ready && u in s.counts ensures Holds(d, RecordOf(s, t), u, s.counts[u] + 1) {
      if s.running[t].outcome.disposition == Success {
        assert u in Fresh(d, SucceedOne(d, s, t).(ready := s.ready, handed := s.handed));
        assert u !in s.handed && !(Deps(d, u) <= s.finished) && Deps(d, u) <= s.finished + {t};
        assert t in Deps(d, u);
      }
    }
  }

  // ---------- together ----------

  ghost predicate Exact(d: Dag, s: Sim) {
    PeakMet(s) && (s.records != [] ==> s.peak >= 1) && InEndOrder(s.records) && Fair(d, s.records, s.running) && ReadyLate(d, s)
  }

  lemma BeginIsExact(d: Dag)
    ensures Exact(d, Begin(d)) && Undue(Begin(d))
  {
  }

  lemma BeganByNow(plans: Plans, s: Sim)
    requires Timed(plans, s)
    ensures forall u, m: nat, b: nat :: Began(s.records, s.running, u, m, b) ==> b <= s.now
    ensures forall i :: 0 <= i < |s.records| ==> s.records[i].finished <= s.now
  {
  }

  lemma StartIsExact(d: Dag, plans: Plans, s: Sim, t: Task, o: Outcome)
    requires Exact(d, s) && Undue(s) && Timed(plans, s) && IsLeast(s.ready, t) && t in s.counts && t !in s.running
    ensures Exact(d, StartOne(s, t, o)) && Undue(StartOne(s, t, o))
  {
    hide PeakMet, Undue, Fair, ReadyLate, Timed, Began, InEndOrder;
    BeganByNow(plans, s);
    StartMeetsPeak(s, t, o);
    StartIsFair(d, s, t, o);
  }

  lemma AdvanceIsExact(d: Dag, s: Sim, now: nat)
    requires Exact(d, s) && s.now <= now
    ensures Exact(d, s.(now := now))
  {
    hide PeakMet, Fair, InEndOrder, Began, HeldUntil;
    AdvanceMeetsPeak(s, now);
  }

  lemma FinishIsExact(d: Dag, plans: Plans, s: Sim, t: Task)
    requires Exact(d, s) && Timed(plans, s) && Steady(d, plans, s) && t in s.running && t in d.specs && s.running[t].Finish() == s.now
    requires ComesNext(s, t) && s.peak >= 1
    ensures Exact(d, FinishOne(d, s, t))
  {
    assert OnTrackAt(d, plans, s, t);
    assert Keyed(d, s) && InOrder(d, s);
    hide PeakMet, Fair, ReadyLate, Timed, Began, InEndOrder, Steady, InOrder, Keyed, ComesNext, FinishOne;
    BeganByNow(plans, s);
    FinishLogs(d, s, t);
    LogMeetsPeak(s, FinishOne(d, s, t), t);
    LogInEndOrder(s, FinishOne(d, s, t), t);
    LogIsFair(d, s, FinishOne(d, s, t), t);
    FinishReadyLate(d, s, t);
  }

  // ---------- one round of the loop ----------

  /** The clock stands where an attempt ended, or at the start. */
  ghost predicate Stamped(s: Sim) {
    s.now == 0 || exists i :: 0 <= i < |s.records| && s.records[i].finished == s.now
  }

  lemma RoundBegins(plans: Plans, s: Sim, now: nat, t: Task)
    requires Timed(plans, s) && Undue(s) && s.now <= now && t in s.running && s.running[t].Finish() == now
    ensures ComesNext(s.(now := now), t)
  {
    hide AsPlanned;
  }

  lemma RoundGoesOn(d: Dag, s: Sim, t: Task, u: Task)
    requires t in s.running && t in d.specs && s.running[t].Finish() == s.now && u in s.running && t < u && ComesNext(s, u)
    ensures u in FinishOne(d, s, t).running && ComesNext(FinishOne(d, s, t), u) && Stamped(FinishOne(d, s, t))
  {
    FinishLogs(d, s, t);
    FinishStamps(d, s, t);
    hide FinishOne;
    var r := FinishOne(d, s, t);
    assert r.records == s.records + [RecordOf(s, t)];
  }

  lemma FinishStamps(d: Dag, s: Sim, t: Task)
    requires t in s.running && t in d.specs && s.running[t].Finish() == s.now
    ensures Stamped(FinishOne(d, s, t))
  {
    FinishLogs(d, s, t);
    hide FinishOne;
    var r := FinishOne(d, s, t);
    assert r.records[|s.records|] == RecordOf(s, t);
  }

  lemma RoundEnds(plans: Plans, s: Sim)
    requires Timed(plans, s) && forall t :: t in s.running ==> s.running[t].Finish() != s.now
    ensures Undue(s)
  {
    hide AsPlanned;
  }

  lemma NothingTakesNoTime(records: seq<Record>, time: nat)
    requires forall i :: 0 <= i < |records| ==> TookTime(records[i])
    ensures Open(records, time) == Overlap(records, time)
  {
  }

  lemma AllOverAt(s: Sim, time: nat)
    requires MetAt(s, time) && s.running == map[]
    ensures s.peak <= Open(s.records, time)
  {
    assert StartedBy(s.running, time) == {};
  }

  lemma AllOver(s: Sim)
    requires PeakMet(s) && s.running == map[]
    ensures s.peak == 0 || exists time: nat :: s.peak <= Open(s.records, time)
  {
    hide MetAt, Open;
    if s.peak != 0 {
      var time: nat :| MetAt(s, time);
      AllOverAt(s, time);
    }
  }

  lemma RunningShowsInPeak(d: Dag, s: Sim, t: Task)
    requires Narrow(d, s) && t in s.running
    ensures s.peak >= 1
  {
    hide Overlap, StartedBy;
    assert |s.running| == |s.running.Keys| && t in s.running.Keys;
  }

  /** What holds of the records when nothing runs any more. */
  lemma EndIsExact(d: Dag, s: Sim)
    requires Exact(d, s) && Stamped(s) && s.running == map[]
    ensures s.peak == 0 || exists time: nat :: s.peak <= Open(s.records, time)
    ensures s.now == 0 || exists i :: 0 <= i < |s.records| && s.records[i].finished == s.now
    ensures InEndOrder(s.records) && Fair(d, s.records, map[]) && (s.records != [] ==> s.peak >= 1)
  {
    AllOver(s);
    hide PeakMet, InEndOrder, Fair, ReadyLate, Open;
  }
}
