/** What a replica's counter and history are (lab 22), told from the calls alone. */
module CausalityCounters {
  import opened Clocks
  import opened Causality

  // ---------- the counter ----------

  /** Call `b` comes after `a` on the same replica, or observes the update that `a` recorded. */
  predicate Follows(run: seq<Event>, a: nat, b: nat) {
    a < b < |run| && (run[a].node == run[b].node || (run[b].Observed? && run[b].update == a))
  }

  /** Calls, each of which follows the one before it. */
  ghost predicate Chain(run: seq<Event>, chain: seq<nat>) {
    && (forall i :: 0 <= i < |chain| ==> chain[i] < |run|)
    && forall i :: 0 <= i < |chain| - 1 ==> Follows(run, chain[i], chain[i + 1])
  }

  /** The counter of its replica right after a call. */
  function CounterAfter(run: seq<Event>, i: nat): nat
    requires ValidRun(run) && i < |run|
  {
    At(run, run[i].node, i + 1).counter
  }

  lemma CounterStep(run: seq<Event>, i: nat)
    requires ValidRun(run) && i < |run|
    ensures var before := At(run, run[i].node, i).counter;
            CounterAfter(run, i)
            == if run[i].Observed? then Larger(before, CounterAfter(run, run[i].update)) + 1 else before + 1
  {
    if run[i].Observed? {
      StampIsCounter(run, run[i].update);
    }
  }

  lemma StampIsCounter(run: seq<Event>, u: nat)
    requires ValidRun(run) && u < |run| && run[u].Recorded?
    ensures UpdateAt(run, u).lamport.counter == CounterAfter(run, u)
  {
  }

  /** The last call of a replica before `t`, if it made any; its counter has stayed since. */
  lemma {:induction false} LastCall(run: seq<Event>, n: Node, t: nat) returns (last: nat)
    requires ValidRun(run) && t <= |run| && exists i :: 0 <= i < t && run[i].node == n
    ensures last < t && run[last].node == n && At(run, n, t).counter == CounterAfter(run, last)
    ensures forall i :: last < i < t ==> run[i].node != n
  {
    if run[t - 1].node == n {
      last := t - 1;
    } else {
      last := LastCall(run, n, t - 1);
    }
  }

  lemma {:induction false} NoCall(run: seq<Event>, n: Node, t: nat)
    requires ValidRun(run) && t <= |run| && forall i :: 0 <= i < t ==> run[i].node != n
    ensures At(run, n, t).counter == 0
  {
    if t > 0 {
      NoCall(run, n, t - 1);
    }
  }

  /** No chain that ends with a call is longer than the counter after it. */
  lemma {:induction false} ChainsAreShort(run: seq<Event>, chain: seq<nat>)
    requires ValidRun(run) && Chain(run, chain) && chain != []
    ensures |chain| <= CounterAfter(run, chain[|chain| - 1])
    decreases |chain|
  {
    var n := |chain| - 1;
    var i := chain[n];
    CounterStep(run, i);
    hide At;
    if n > 0 {
      ChainsAreShort(run, chain[..n]);
      var a := chain[n - 1];
      assert Follows(run, a, i);
      if run[a].node == run[i].node {
        CounterGrows(run, run[i].node, a + 1, i);
      }
    }
  }

  /** Some chain that ends with a call is as long as the counter after it. */
  lemma {:induction false} SomeChainIsLong(run: seq<Event>, i: nat) returns (chain: seq<nat>)
    requires ValidRun(run) && i < |run|
    ensures Chain(run, chain) && chain != [] && chain[|chain| - 1] == i && |chain| == CounterAfter(run, i)
    decreases i
  {
    CounterStep(run, i);
    hide At;
    var n := run[i].node;
    if run[i].Observed? && (CounterAfter(run, run[i].update) >= At(run, n, i).counter) {
      var before := SomeChainIsLong(run, run[i].update);
      chain := before + [i];
    } else if exists k :: 0 <= k < i && run[k].node == n {
      var last := LastCall(run, n, i);
      var before := SomeChainIsLong(run, last);
      chain := before + [i];
    } else {
      NoCall(run, n, i);
      chain := [i];
    }
  }

  /**
   * A Lamport counter is the length of the longest chain of calls that lead to it: those of the replica itself, refused ones
   * included, and those of others through the updates it observed.
   */
  lemma CounterIsLongestChain(run: seq<Event>, u: nat)
    requires ValidRun(run) && u < |run| && run[u].Recorded?
    ensures UpdateAt(run, u).lamport.node == run[u].node
    ensures forall chain :: Chain(run, chain) && chain != [] && chain[|chain| - 1] == u ==> |chain| <= UpdateAt(run, u).lamport.counter
    ensures exists chain :: Chain(run, chain) && chain != [] && chain[|chain| - 1] == u && |chain| == UpdateAt(run, u).lamport.counter
  {
    StampIsCounter(run, u);
    hide CounterAfter, UpdateAt, Chain;
    forall chain | Chain(run, chain) && chain != [] && chain[|chain| - 1] == u ensures |chain| <= UpdateAt(run, u).lamport.counter {
      ChainsAreShort(run, chain);
    }
    var chain := SomeChainIsLong(run, u);
    StampNode(run, u);
  }

  lemma StampNode(run: seq<Event>, u: nat)
    requires ValidRun(run) && u < |run| && run[u].Recorded?
    ensures UpdateAt(run, u).lamport.node == run[u].node
  {
  }

  // ---------- the history ----------

  /** The call shows its replica an update of the task: it records or observes one. */
  predicate ShowsTask(run: seq<Event>, n: Node, task: TaskId, i: nat)
    requires ValidRun(run)
  {
    && i < |run| && run[i].node == n
    && (if run[i].Recorded? then run[i].task == task
        else run[i].Observed? && run[run[i].update].task == task)
  }

  /** The position of the call that recorded the update that this call shows. */
  function Origin(run: seq<Event>, i: nat): nat
    requires i < |run|
  {
    if run[i].Observed? then run[i].update else i
  }

  /** The calls before `t` that show the replica updates of the task, in order. */
  function Showings(run: seq<Event>, n: Node, task: TaskId, t: nat): seq<nat>
    requires ValidRun(run) && t <= |run|
  {
    if t == 0 then []
    else Showings(run, n, task, t - 1) + (if ShowsTask(run, n, task, t - 1) then [t - 1] else [])
  }

  /** These are exactly the calls that show the replica updates of the task, each once, in the order they were made. */
  lemma {:induction false} ShowingsAreAll(run: seq<Event>, n: Node, task: TaskId, t: nat)
    requires ValidRun(run) && t <= |run|
    ensures forall i :: i in Showings(run, n, task, t) <==> 0 <= i < t && ShowsTask(run, n, task, i)
    ensures forall j, k :: 0 <= j < k < |Showings(run, n, task, t)| ==> Showings(run, n, task, t)[j] < Showings(run, n, task, t)[k]
  {
    if t > 0 {
      ShowingsAreAll(run, n, task, t - 1);
      var before := Showings(run, n, task, t - 1);
      forall j | 0 <= j < |before| ensures before[j] < t - 1 {
        assert before[j] in before;
      }
    }
  }

  /** Update by update, the history is what the listed calls show. */
  ghost predicate Lists(run: seq<Event>, history: seq<Update>, shown: seq<nat>)
    requires ValidRun(run)
  {
    && |history| == |shown|
    && forall k :: 0 <= k < |shown| ==>
         && shown[k] < |run| && run[Origin(run, shown[k])].Recorded?
         && history[k] == UpdateAt(run, Origin(run, shown[k]))
  }

  lemma ListsOneMore(run: seq<Event>, history: seq<Update>, shown: seq<nat>, i: nat)
    requires ValidRun(run) && Lists(run, history, shown) && i < |run| && run[Origin(run, i)].Recorded?
    ensures Lists(run, history + [UpdateAt(run, Origin(run, i))], shown + [i])
  {
    hide UpdateAt, Origin, ValidRun;
  }

  /** A replica's history of a task is the updates it was shown, in order, its own and others', repeats included. */
  lemma {:induction false} HistoryIsWhatWasShown(run: seq<Event>, n: Node, task: TaskId, t: nat)
    requires ValidRun(run) && t <= |run|
    ensures Lists(run, HistoryOf(At(run, n, t), task), Showings(run, n, task, t))
  {
    hide UpdateAt, ValidRun, ShowsTask, Lists, Origin;
    if t == 0 {
      NothingListed(run, n, task);
    } else {
      HistoryIsWhatWasShown(run, n, task, t - 1);
      hide At, HistoryOf;
      HistoryStep(run, n, task, t - 1);
      var history, shown := HistoryOf(At(run, n, t - 1), task), Showings(run, n, task, t - 1);
      if ShowsTask(run, n, task, t - 1) {
        ListsOneMore(run, history, shown, t - 1);
      } else {
        assert history + [] == history && shown + [] == shown;
      }
    }
  }

  lemma NothingListed(run: seq<Event>, n: Node, task: TaskId)
    requires ValidRun(run)
    ensures Lists(run, HistoryOf(At(run, n, 0), task), Showings(run, n, task, 0))
  {
  }

  lemma HistoryStep(run: seq<Event>, n: Node, task: TaskId, i: nat)
    requires ValidRun(run) && i < |run|
    ensures ShowsTask(run, n, task, i) ==> run[Origin(run, i)].Recorded?
    ensures HistoryOf(At(run, n, i + 1), task)
            == HistoryOf(At(run, n, i), task) + (if ShowsTask(run, n, task, i) then [UpdateAt(run, Origin(run, i))] else [])
  {
    if run[i].Observed? {
      UpdateSaysWho(run, run[i].update);
    }
  }

  /** An update carries the task, replica and words of the call that recorded it. */
  lemma UpdateSaysWho(run: seq<Event>, u: nat)
    requires ValidRun(run) && u < |run| && run[u].Recorded?
    ensures var x := UpdateAt(run, u); x.task == run[u].task && x.actor == run[u].node && x.detail == run[u].detail
  {
  }

  /** The logical order is by counter, and of equal counters by node, ascending. */
  lemma OrderIsByStamp(updates: seq<Update>, ordered: seq<Update>, i: nat, j: nat)
    requires LogicalOrder(updates, ordered) && i < j < |ordered|
    ensures ordered[i].lamport.counter <= ordered[j].lamport.counter
    ensures ordered[i].lamport.counter == ordered[j].lamport.counter ==> ordered[i].lamport.node <= ordered[j].lamport.node
  {
  }
}
