/** What the attempts of a run keep in the DAG engine (lab 30): their numbers, times, order and overlap. */
module DagTimes {
  import opened Options
  import opened DagModel
  import opened DagRun

  // ---------- numbers and times ----------

  function RecordsOf(records: seq<Record>, t: Task): nat {
    if records == [] then 0
    else RecordsOf(records[..|records| - 1], t) + (if records[|records| - 1].task == t then 1 else 0)
  }

  /** An attempt took what its plan says. */
  ghost predicate AsPlanned(plans: Plans, r: Record) {
    && 1 <= r.attempt
    && var planned := Planned(plans, r.task, r.attempt);
    && planned.Some? && planned.value.disposition == r.disposition
    && r.finished == r.started + planned.value.duration
  }

  /** The attempts of each task are numbered from one, in the order they are recorded. */
  ghost predicate Numbered(records: seq<Record>) {
    forall i :: 0 <= i < |records| ==> records[i].attempt == RecordsOf(records[..i], records[i].task) + 1
  }

  ghost predicate Counted(s: Sim) {
    && s.running.Keys <= s.counts.Keys
    && Numbered(s.records)
    && forall t :: t in s.counts ==> s.counts[t] == RecordsOf(s.records, t) + (if t in s.running then 1 else 0)
  }

  ghost predicate Timed(plans: Plans, s: Sim) {
    && (forall i :: 0 <= i < |s.records| ==> AsPlanned(plans, s.records[i]) && s.records[i].finished <= s.now)
    && (forall t :: t in s.running ==> s.running[t].started <= s.now <= s.running[t].Finish())
  }

  // ---------- order ----------

  /** `t` has succeeded at `time` or before. */
  ghost predicate DoneBy(records: seq<Record>, t: Task, time: nat) {
    exists i :: 0 <= i < |records| && records[i].task == t && records[i].disposition == Success && records[i].finished <= time
  }

  ghost predicate ReadyAt(d: Dag, records: seq<Record>, t: Task, time: nat) {
    t in d.specs && forall u :: u in d.specs[t].dependsOn ==> DoneBy(records, u, time)
  }

  /** No attempt starts before every dependency of its task has succeeded. */
  ghost predicate DependenciesFirst(d: Dag, records: seq<Record>) {
    forall i :: 0 <= i < |records| ==> ReadyAt(d, records, records[i].task, records[i].started)
  }

  ghost predicate Waited(d: Dag, s: Sim) {
    && DependenciesFirst(d, s.records)
    && (forall t :: t in s.running ==> ReadyAt(d, s.records, t, s.running[t].started))
    && (forall t :: t in s.finished ==> DoneBy(s.records, t, s.now))
  }

  // ---------- overlap ----------

  /** How many recorded attempts were in progress at an instant. */
  function Overlap(records: seq<Record>, time: nat): nat {
    if records == [] then 0
    else
      var last := records[|records| - 1];
      Overlap(records[..|records| - 1], time) + (if last.started <= time < last.finished then 1 else 0)
  }

  ghost function StartedBy(running: map<Task, Attempt>, time: nat): set<Task> {
    set t | t in running && running[t].started <= time
  }

  ghost predicate Narrow(d: Dag, s: Sim) {
    && |s.running| <= s.peak <= d.maxParallel
    && forall time :: 0 <= time < s.now ==> Overlap(s.records, time) + |StartedBy(s.running, time)| <= s.peak
  }

  // ---------- together ----------

  ghost predicate Orderly(d: Dag, plans: Plans, s: Sim) {
    Counted(s) && Timed(plans, s) && Waited(d, s)
  }

  lemma BeginIsOrderly(d: Dag, plans: Plans)
    ensures Orderly(d, plans, Begin(d)) && Narrow(d, Begin(d))
  {
  }

  lemma StartIsCounted(s: Sim, t: Task, o: Outcome)
    requires Counted(s) && t in s.counts && t !in s.running
    ensures Counted(StartOne(s, t, o))
  {
    hide RecordsOf;
  }

  lemma StartIsTimed(plans: Plans, s: Sim, t: Task, o: Outcome)
    requires Timed(plans, s) && t in s.counts
    ensures Timed(plans, StartOne(s, t, o))
  {
    hide AsPlanned;
  }

  lemma StartIsWaited(d: Dag, s: Sim, t: Task, o: Outcome)
    requires Waited(d, s) && t in s.counts && t in d.specs && Deps(d, t) <= s.finished
    ensures Waited(d, StartOne(s, t, o))
  {
    hide DoneBy;
    assert ReadyAt(d, s.records, t, s.now);
  }

  lemma StartIsOrderly(d: Dag, plans: Plans, s: Sim, t: Task, o: Outcome)
    requires Steady(d, plans, s) && Orderly(d, plans, s) && t in s.ready
    ensures Orderly(d, plans, StartOne(s, t, o))
  {
    hide OnTrack, Allowed, Counted, Timed, Waited, StartOne;
    assert PlacedAt(s, t);
    StartIsCounted(s, t, o);
    StartIsTimed(plans, s, t, o);
    StartIsWaited(d, s, t, o);
  }

  lemma StartedLater(running: map<Task, Attempt>, t: Task, a: Attempt, time: nat)
    requires t !in running && time < a.started
    ensures StartedBy(running[t := a], time) == StartedBy(running, time)
  {
  }

  lemma OneMoreRunning(running: map<Task, Attempt>, t: Task, a: Attempt)
    requires t !in running
    ensures |running[t := a]| == |running| + 1
  {
    assert running[t := a].Keys == running.Keys + {t};
  }

  lemma StartIsNarrow(d: Dag, s: Sim, t: Task, o: Outcome)
    requires Narrow(d, s) && t in s.counts && t !in s.running && |s.running| < d.maxParallel
    ensures Narrow(d, StartOne(s, t, o))
  {
    hide Overlap, StartedBy;
    var r := StartOne(s, t, o);
    var a := r.running[t];
    OneMoreRunning(s.running, t, a);
    forall time | 0 <= time < r.now ensures Overlap(r.records, time) + |StartedBy(r.running, time)| <= r.peak {
      StartedLater(s.running, t, a, time);
    }
  }

  /** Time moves to the end of the attempt that ends first. */
  lemma AdvanceIsOrderly(d: Dag, plans: Plans, s: Sim, now: nat)
    requires Orderly(d, plans, s) && s.now <= now && forall t :: t in s.running ==> now <= s.running[t].Finish()
    ensures Orderly(d, plans, s.(now := now))
  {
    hide AsPlanned, ReadyAt, RecordsOf;
  }

  lemma QuietLater(records: seq<Record>, time: nat)
    requires forall i :: 0 <= i < |records| ==> records[i].finished <= time
    ensures Overlap(records, time) == 0
  {
  }

  lemma AdvanceIsNarrow(d: Dag, plans: Plans, s: Sim, now: nat)
    requires Timed(plans, s) && Narrow(d, s) && s.now <= now
    ensures Narrow(d, s.(now := now))
  {
    hide Overlap, AsPlanned;
    forall time | s.now <= time < now ensures Overlap(s.records, time) + |StartedBy(s.running, time)| <= s.peak {
      QuietLater(s.records, time);
      assert StartedBy(s.running, time) == s.running.Keys;
    }
  }

  function RecordOf(s: Sim, t: Task): Record
    requires t in s.running
  {
    var a := s.running[t];
    Record(t, a.number, a.outcome.disposition, a.started, a.Finish())
  }

  /** All that finishing an attempt does to the clock side of the state. */
  ghost predicate Logs(s: Sim, r: Sim, t: Task) {
    && t in s.running
    && r.running == s.running - {t} && r.records == s.records + [RecordOf(s, t)]
    && r.now == s.now && r.peak == s.peak && r.counts == s.counts
    && s.finished <= r.finished <= s.finished + {t}
    && (t in r.finished && t !in s.finished ==> s.running[t].outcome.disposition == Success)
  }

  lemma FinishLogs(d: Dag, s: Sim, t: Task)
    requires t in s.running && t in d.specs
    ensures Logs(s, FinishOne(d, s, t), t)
  {
  }

  lemma LogIsCounted(s: Sim, r: Sim, t: Task)
    requires Counted(s) && Logs(s, r, t) && s.running[t].number == s.counts[t]
    ensures Counted(r)
  {
    assert r.records[..|s.records|] == s.records;
    var last := r.records[|s.records|];
    assert last.attempt == RecordsOf(s.records, t) + 1 && last.task == t;
    NumberedSnoc(s.records, last);
    hide Numbered;
    forall u | u in r.counts ensures r.counts[u] == RecordsOf(r.records, u) + (if u in r.running then 1 else 0) {
      RecordsSnoc(s.records, last, u);
    }
  }

  lemma RecordsSnoc(records: seq<Record>, last: Record, u: Task)
    ensures RecordsOf(records + [last], u) == RecordsOf(records, u) + (if last.task == u then 1 else 0)
  {
    assert (records + [last])[..|records|] == records;
  }

  lemma NumberedSnoc(records: seq<Record>, last: Record)
    requires Numbered(records) && last.attempt == RecordsOf(records, last.task) + 1
    ensures Numbered(records + [last])
  {
    var more := records + [last];
    hide RecordsOf;
    forall i | 0 <= i < |more| ensures more[i].attempt == RecordsOf(more[..i], more[i].task) + 1 {
      assert more[..i] == records[..i];
    }
  }

  lemma LogIsTimed(plans: Plans, s: Sim, r: Sim, t: Task)
    requires Timed(plans, s) && Logs(s, r, t) && s.running[t].Finish() == s.now
    requires s.running[t].number >= 1 && Planned(plans, t, s.running[t].number) == Some(s.running[t].outcome)
    ensures Timed(plans, r)
  {
    assert AsPlanned(plans, RecordOf(s, t));
  }

  lemma DoneStays(records: seq<Record>, last: Record, t: Task, time: nat)
    requires DoneBy(records, t, time)
    ensures DoneBy(records + [last], t, time)
  {
    var i :| 0 <= i < |records| && records[i].task == t && records[i].disposition == Success && records[i].finished <= time;
    assert (records + [last])[i] == records[i];
  }

  lemma ReadyStays(d: Dag, records: seq<Record>, last: Record, t: Task, time: nat)
    requires ReadyAt(d, records, t, time)
    ensures ReadyAt(d, records + [last], t, time)
  {
    forall u | u in d.specs[t].dependsOn ensures DoneBy(records + [last], u, time) {
      DoneStays(records, last, u, time);
    }
  }

  lemma LogIsWaited(d: Dag, s: Sim, r: Sim, t: Task)
    requires Waited(d, s) && Logs(s, r, t) && s.running[t].Finish() == s.now
    ensures Waited(d, r)
  {
    hide ReadyAt;
    var last := RecordOf(s, t);
    forall i | 0 <= i < |r.records| ensures ReadyAt(d, r.records, r.records[i].task, r.records[i].started) {
      ReadyStays(d, s.records, last, r.records[i].task, r.records[i].started);
    }
    forall x | x in r.running ensures ReadyAt(d, r.records, x, r.running[x].started) {
      ReadyStays(d, s.records, last, x, r.running[x].started);
    }
    forall x | x in r.finished ensures DoneBy(r.records, x, r.now) {
      if x in s.finished {
        DoneStays(s.records, last, x, s.now);
      } else {
        assert r.records[|s.records|] == last;
      }
    }
  }

  lemma FinishIsOrderly(d: Dag, plans: Plans, s: Sim, t: Task)
    requires Steady(d, plans, s) && Orderly(d, plans, s) && t in s.running && s.running[t].Finish() == s.now
    ensures t in d.specs && Orderly(d, plans, FinishOne(d, s, t))
  {
    hide Placed, InOrder, Allowed, Counted, Timed, Waited, Logs, FinishOne, Planned, Fate;
    assert OnTrackAt(d, plans, s, t);
    var r := FinishOne(d, s, t);
    FinishLogs(d, s, t);
    LogIsCounted(s, r, t);
    LogIsTimed(plans, s, r, t);
    LogIsWaited(d, s, r, t);
  }

  lemma LogIsNarrow(d: Dag, s: Sim, r: Sim, t: Task)
    requires Narrow(d, s) && Logs(s, r, t) && s.running[t].Finish() == s.now
    ensures Narrow(d, r)
  {
    assert r.running.Keys == s.running.Keys - {t};
    assert r.records[..|s.records|] == s.records;
    forall time | 0 <= time < r.now ensures Overlap(r.records, time) + |StartedBy(r.running, time)| <= r.peak {
      assert StartedBy(r.running, time) == StartedBy(s.running, time) - {t};
    }
  }

  /** At no instant do more attempts overlap than the peak says. */
  lemma NarrowThroughout(d: Dag, plans: Plans, s: Sim, time: nat)
    requires Timed(plans, s) && Narrow(d, s)
    ensures Overlap(s.records, time) <= s.peak
  {
    if s.now <= time {
      QuietLater(s.records, time);
    }
  }
}
