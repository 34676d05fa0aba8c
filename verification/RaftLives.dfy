/** Crashing and restarting nodes (lab 25): who is up, whom others reach, and what a restart gives back. */
module RaftLives {
  import opened Options
  import opened Sequences
  import opened RelayTasks
  import opened RaftNode
  import opened RaftCluster
  import opened RaftCommits

  // ---------- whom a node reaches ----------

  ghost predicate Together(groups: seq<set<NodeId>>, m: NodeId, n: NodeId) {
    exists i :: 0 <= i < |groups| && m in groups[i] && n in groups[i]
  }

  lemma {:induction false} GroupsApart(groups: seq<set<NodeId>>, known: set<NodeId>, seen: set<NodeId>, i: nat, n: NodeId)
    requires ValidGroups(groups, known, seen) && i < |groups| && n in groups[i]
    ensures n !in seen && n in Covered(groups) && GroupOf(groups, n) == groups[i]
    decreases |groups|
  {
    if i > 0 {
      GroupsApart(groups[1..], known, seen + groups[0], i - 1, n);
    }
  }

  /** A node's peers are the other running nodes that share a partition group with it, each once, in cluster order. */
  lemma ReachableExactly(c: Cluster, m: NodeId)
    requires WellFormed(c) && m in c.nodes
    ensures forall p :: p in ReachablePeers(c, m) <==> p in c.nodes && p != m && c.nodes[p].running && Together(c.groups, m, p)
    ensures Distinct(ReachablePeers(c, m))
    ensures InOrderOf(c.order, ReachablePeers(c, m))
  {
    ValidGroupsCover(c.groups, c.nodes.Keys, {});
    var g := GroupOf(c.groups, m);
    assert g in c.groups;
    var k :| 0 <= k < |c.groups| && c.groups[k] == g;
    forall p ensures p in g <==> Together(c.groups, m, p) {
      if Together(c.groups, m, p) {
        var i :| 0 <= i < |c.groups| && m in c.groups[i] && p in c.groups[i];
        GroupsApart(c.groups, c.nodes.Keys, {}, i, m);
      }
    }
    PeersInOrder(c, m, c.order, g);
    assert ReachablePeers(c, m) == PeersIn(c, m, c.order, g);
    hide Together, ValidGroups, GroupOf, ReachablePeers, InOrderOf;
  }

  ghost predicate ComesBefore(ids: seq<NodeId>, a: NodeId, b: NodeId) {
    exists i, j :: 0 <= i < j < |ids| && ids[i] == a && ids[j] == b
  }

  ghost predicate InOrderOf(ids: seq<NodeId>, some: seq<NodeId>) {
    forall i, j :: 0 <= i < j < |some| ==> ComesBefore(ids, some[i], some[j])
  }

  lemma LaterStill(front: seq<NodeId>, last: NodeId, a: NodeId, b: NodeId)
    ensures ComesBefore(front, a, b) ==> ComesBefore(front + [last], a, b)
    ensures a in front ==> ComesBefore(front + [last], a, last)
  {
    var ids := front + [last];
    if ComesBefore(front, a, b) {
      var i, j :| 0 <= i < j < |front| && front[i] == a && front[j] == b;
      assert ids[i] == a && ids[j] == b;
    }
    if a in front {
      var i :| 0 <= i < |front| && front[i] == a;
      assert ids[i] == a && ids[|front|] == last;
    }
  }

  lemma {:induction false} PeersInOrder(c: Cluster, n: NodeId, ids: seq<NodeId>, group: set<NodeId>)
    requires Distinct(ids) && forall p :: p in ids ==> p in c.nodes
    ensures InOrderOf(ids, PeersIn(c, n, ids, group))
  {
    if ids != [] {
      var k := |ids| - 1;
      var front, last := ids[..k], ids[k];
      assert ids == front + [last];
      PeersInOrder(c, n, front, group);
      var before, peers := PeersIn(c, n, front, group), PeersIn(c, n, ids, group);
      hide ComesBefore;
      forall i, j | 0 <= i < j < |peers| ensures ComesBefore(ids, peers[i], peers[j]) {
        assert before[i] in before;
        LaterStill(front, last, peers[i], peers[j]);
      }
    }
  }

  /** The groups split the nodes: none is empty, no two overlap, and together they are all nodes and nothing else. */
  ghost predicate Splits(groups: seq<set<NodeId>>, seen: set<NodeId>, known: set<NodeId>) {
    && (forall i :: 0 <= i < |groups| ==> groups[i] != {} && groups[i] !! seen)
    && (forall i, j :: 0 <= i < j < |groups| ==> groups[i] !! groups[j])
    && forall n :: n in known <==> n in seen || exists i :: 0 <= i < |groups| && n in groups[i]
  }

  lemma SplitsFirst(group: set<NodeId>, rest: seq<set<NodeId>>, seen: set<NodeId>, known: set<NodeId>)
    ensures Splits([group] + rest, seen, known) <==> group != {} && group <= known && group !! seen && Splits(rest, seen + group, known)
  {
    var groups := [group] + rest;
    assert groups[0] == group && forall i :: 0 <= i < |rest| ==> rest[i] == groups[i + 1];
    forall n ensures (exists i :: 0 <= i < |groups| && n in groups[i]) <==> n in group || exists i :: 0 <= i < |rest| && n in rest[i] {
      if i :| 0 <= i < |groups| && n in groups[i] {
        assert i > 0 ==> n in rest[i - 1];
      }
      if i :| 0 <= i < |rest| && n in rest[i] {
        assert n in groups[i + 1];
      }
    }
    if Splits(groups, seen, known) {
      forall i | 0 <= i < |rest| ensures rest[i] != {} && rest[i] !! seen + group {
        assert groups[0] !! groups[i + 1] && groups[i + 1] !! seen;
      }
    }
  }

  /** The checks of a partition, group by group, accept exactly the groups that split the nodes. */
  lemma {:induction false} GroupsAccepted(groups: seq<set<NodeId>>, known: set<NodeId>, seen: set<NodeId>)
    ensures ValidGroups(groups, known, seen) <==> Splits(groups, seen, known)
  {
    if groups != [] {
      hide Splits;
      GroupsAccepted(groups[1..], known, seen + groups[0]);
      SplitsFirst(groups[0], groups[1..], seen, known);
      assert [groups[0]] + groups[1..] == groups;
    }
  }

  /** A partition cuts the nodes off from each other along its groups, and healing reconnects all; neither changes a node. */
  lemma PartitionTakesEffect(c: Cluster, groups: seq<set<NodeId>>, m: NodeId)
    requires WellFormed(c) && m in c.nodes
    ensures var d := Step(c, SetPartition(groups));
            WellFormed(d) &&
            if Splits(groups, {}, c.nodes.Keys) then
              && d == c.(groups := groups)
              && forall p :: p in ReachablePeers(d, m) <==> p in c.nodes && p != m && c.nodes[p].running && Together(groups, m, p)
            else d == c
    ensures var d := Step(c, Heal);
            && WellFormed(d) && d == c.(groups := d.groups)
            && forall p :: p in ReachablePeers(d, m) <==> p in c.nodes && p != m && c.nodes[p].running
  {
    hide WellFormed, Splits, Together;
    GroupsAccepted(groups, c.nodes.Keys, {});
    StepKeepsWellFormed(c, SetPartition(groups));
    ReachableExactly(Step(c, SetPartition(groups)), m);
    StepKeepsWellFormed(c, Heal);
    ReachableExactly(Step(c, Heal), m);
    forall p | p in c.nodes ensures Together([c.nodes.Keys], m, p) {
      AllTogether(c.nodes.Keys, m, p);
    }
  }

  lemma AllTogether(all: set<NodeId>, m: NodeId, p: NodeId)
    requires m in all && p in all
    ensures Together([all], m, p)
  {
    assert m in [all][0] && p in [all][0];
  }

  // ---------- a crash and a restart ----------

  /** The part of a node's state that outlives a crash. */
  ghost predicate SameDurable(s: NodeState, t: NodeState) {
    t.term == s.term && t.votedFor == s.votedFor && t.log == s.log && t.commit == s.commit
  }

  /** A node that is down: nobody reaches it, and every call to it is refused as crashed and changes nothing. */
  ghost predicate Down(c: Cluster, n: NodeId)
    requires WellFormed(c) && n in c.nodes
  {
    && (forall m :: m in c.nodes ==> n !in ReachablePeers(c, m))
    && TriggerTimeout(c, n) == (c, Err(NodeCrashed))
    && (forall command :: SubmitCommand(c, n, command) == (c, Err(NodeCrashed)))
    && ReplicateFromLeader(c, n) == (c, Err(NodeCrashed))
  }

  /** A node that is up: its group reaches it, and calls to it are not refused as crashed. */
  ghost predicate Reached(c: Cluster, n: NodeId)
    requires WellFormed(c) && n in c.nodes
  {
    && (forall m :: m in c.nodes && m != n ==> (n in ReachablePeers(c, m) <==> Together(c.groups, m, n)))
    && TriggerTimeout(c, n).1 != Err(NodeCrashed)
    && (forall command :: SubmitCommand(c, n, command).1 != Err(NodeCrashed))
    && ReplicateFromLeader(c, n).1 != Err(NodeCrashed)
  }

  /** Being up or down shows in whom the others reach and in how every call is answered. */
  lemma RunningShows(c: Cluster, n: NodeId)
    requires WellFormed(c) && n in c.nodes
    ensures !c.nodes[n].running ==> Down(c, n)
    ensures c.nodes[n].running ==> Reached(c, n)
  {
    forall m | m in c.nodes
      ensures n in ReachablePeers(c, m) <==> n != m && c.nodes[n].running && Together(c.groups, m, n)
    {
      ReachableExactly(c, m);
    }
    hide *;
    forall command
      ensures if c.nodes[n].running then SubmitCommand(c, n, command).1 != Err(NodeCrashed)
              else SubmitCommand(c, n, command) == (c, Err(NodeCrashed))
    {
      SubmitWhenDown(c, n, command);
    }
    OtherCallsWhenDown(c, n);
    if c.nodes[n].running {
      ReachedIntro(c, n);
    } else {
      DownIntro(c, n);
    }
  }

  lemma DownIntro(c: Cluster, n: NodeId)
    requires WellFormed(c) && n in c.nodes && (forall m :: m in c.nodes ==> n !in ReachablePeers(c, m))
    requires TriggerTimeout(c, n) == (c, Err(NodeCrashed)) && ReplicateFromLeader(c, n) == (c, Err(NodeCrashed))
    requires forall command :: SubmitCommand(c, n, command) == (c, Err(NodeCrashed))
    ensures Down(c, n)
  {
    hide WellFormed, ReachablePeers, TriggerTimeout, ReplicateFromLeader, SubmitCommand;
  }

  lemma ReachedIntro(c: Cluster, n: NodeId)
    requires WellFormed(c) && n in c.nodes
    requires forall m :: m in c.nodes && m != n ==> (n in ReachablePeers(c, m) <==> Together(c.groups, m, n))
    requires TriggerTimeout(c, n).1 != Err(NodeCrashed) && ReplicateFromLeader(c, n).1 != Err(NodeCrashed)
    requires forall command :: SubmitCommand(c, n, command).1 != Err(NodeCrashed)
    ensures Reached(c, n)
  {
    hide WellFormed, ReachablePeers, TriggerTimeout, ReplicateFromLeader, SubmitCommand, Together;
  }

  lemma OtherCallsWhenDown(c: Cluster, n: NodeId)
    requires WellFormed(c) && n in c.nodes
    ensures if c.nodes[n].running then TriggerTimeout(c, n).1 != Err(NodeCrashed) && ReplicateFromLeader(c, n).1 != Err(NodeCrashed)
            else TriggerTimeout(c, n) == (c, Err(NodeCrashed)) && ReplicateFromLeader(c, n) == (c, Err(NodeCrashed))
  {
    hide WellFormed, TimeoutRound, ReplicateFrom;
  }

  lemma SubmitWhenDown(c: Cluster, n: NodeId, command: Command)
    requires WellFormed(c) && n in c.nodes
    ensures if c.nodes[n].running then SubmitCommand(c, n, command).1 != Err(NodeCrashed)
            else SubmitCommand(c, n, command) == (c, Err(NodeCrashed))
  {
    hide *;
    SubmitCommandUnfolds(c, n, command);
    ErrorOf(c, n);
    if LeaderError(c, n) == None {
      SentOnceIs(c, n, command);
      SentOnceKeepsRunning(c, n, command, n);
      SettleNotCrashed(SentOnce(c, n, command), n);
    }
  }

  lemma ErrorOf(c: Cluster, n: NodeId)
    requires n in c.nodes
    ensures LeaderError(c, n) == if !c.nodes[n].running then Some(NodeCrashed) else if c.nodes[n].role != Leader then Some(NotLeader) else None
  {
  }

  lemma SettleNotCrashed(s: Cluster, n: NodeId)
    requires WellFormed(s) && n in s.nodes && s.nodes[n].running
    ensures Settle(s, n).1 != Some(NodeCrashed)
  {
    SaneSender(s, n);
    AdvancedSender(s, n);
    hide WellFormed, AdvanceAt, ReplicateFrom, CommitCandidate;
  }

  /** After a crash the node is down, with nothing durable lost, and no other node is touched. */
  lemma CrashTakesDown(c: Cluster, n: NodeId)
    requires WellFormed(c) && n in c.nodes
    ensures var d := Step(c, CrashNode(n));
            && WellFormed(d) && d == c.(nodes := c.nodes[n := d.nodes[n]])
            && !d.nodes[n].running && Down(d, n)
            && d.nodes[n].role == Follower && d.nodes[n].leaderId == None && d.nodes[n].matchIndex == map[] && SameDurable(c.nodes[n], d.nodes[n])
  {
    hide *;
    StepKeepsWellFormed(c, CrashNode(n));
    LifeSteps(c, n);
    CrashLeaves(c.nodes[n]);
    RunningShows(Step(c, CrashNode(n)), n);
  }

  lemma LifeSteps(c: Cluster, n: NodeId)
    requires WellFormed(c) && n in c.nodes
    ensures c.nodes[n].commit <= |c.nodes[n].log|
    ensures Step(c, CrashNode(n)) == c.(nodes := c.nodes[n := Crash(c.nodes[n])])
    ensures Step(c, RestartNode(n)) == c.(nodes := c.nodes[n := Restart(c.nodes[n])])
  {
    hide TriggerTimeout, SubmitCommand, ReplicateFromLeader, Restart;
  }

  lemma CrashLeaves(s: NodeState)
    ensures var t := Crash(s);
            !t.running && t.role == Follower && t.leaderId == None && t.matchIndex == map[] && SameDurable(s, t)
  {
  }

  /**
   * After a restart, whatever went before, the node is up as a follower of nobody, with nothing durable lost, and has
   * applied what is committed; no other node is touched.
   */
  lemma RestartBringsUp(c: Cluster, n: NodeId)
    requires WellFormed(c) && n in c.nodes
    ensures var d := Step(c, RestartNode(n));
            && WellFormed(d) && d == c.(nodes := c.nodes[n := d.nodes[n]])
            && d.nodes[n].running && Reached(d, n)
            && d.nodes[n].role == Follower && d.nodes[n].leaderId == None && d.nodes[n].matchIndex == map[] && SameDurable(c.nodes[n], d.nodes[n])
            && d.nodes[n].lastApplied == d.nodes[n].commit && Consistent(d.nodes[n])
  {
    hide *;
    StepKeepsWellFormed(c, RestartNode(n));
    LifeSteps(c, n);
    RestartRebuilds(c.nodes[n]);
    RunningShows(Step(c, RestartNode(n)), n);
  }

  lemma RestartRebuilds(s: NodeState)
    requires s.commit <= |s.log|
    ensures var t := Restart(s);
            && t.running && t.role == Follower && t.leaderId == None && t.matchIndex == map[] && SameDurable(s, t)
            && t.lastApplied == t.commit && Consistent(t)
  {
    RebuildReplays(s.(running := true, role := Follower, leaderId := None, matchIndex := map[]));
    hide Rebuild, Consistent;
  }

  // ---------- runs ----------

  /** Whether the last crash or restart of the node in these calls, if any, is a restart. */
  ghost function LastRestarted(events: seq<Event>, n: NodeId): bool {
    if events == [] then true
    else
      match events[|events| - 1]
      case CrashNode(m) => if m == n then false else LastRestarted(events[..|events| - 1], n)
      case RestartNode(m) => if m == n then true else LastRestarted(events[..|events| - 1], n)
      case _ => LastRestarted(events[..|events| - 1], n)
  }

  lemma SubmitKeepsRunning(c: Cluster, n: NodeId, command: Command, p: NodeId)
    requires WellFormed(c) && p in c.nodes
    ensures p in SubmitCommand(c, n, command).0.nodes && SubmitCommand(c, n, command).0.nodes[p].running == c.nodes[p].running
  {
    hide *;
    SubmitCommandUnfolds(c, n, command);
    if LeaderError(c, n) == None {
      LeaderIsNode(c, n);
      SubmitParts(c, n, command);
      SentOnceKeepsRunning(c, n, command, p);
      SettleKeepsRunning(SentOnce(c, n, command), n, p);
    }
  }

  lemma LeaderIsNode(c: Cluster, n: NodeId)
    requires LeaderError(c, n) == None
    ensures n in c.nodes
  {
  }

  lemma SentOnceKeepsRunning(c: Cluster, n: NodeId, command: Command, p: NodeId)
    requires WellFormed(c) && n in c.nodes && p in c.nodes
    ensures p in SentOnce(c, n, command).nodes && SentOnce(c, n, command).nodes[p].running == c.nodes[p].running
  {
    var c1 := AppendAt(c, n, command);
    FrameKeepsWellFormed(c, c1);
    hide WellFormed, ReplicateFrom;
    ReplicatedCommit(c1, n, p);
  }

  lemma SettleKeepsRunning(s: Cluster, n: NodeId, p: NodeId)
    requires WellFormed(s) && n in s.nodes && p in s.nodes
    ensures p in Settle(s, n).0.nodes && Settle(s, n).0.nodes[p].running == s.nodes[p].running
  {
    hide *;
    SaneSender(s, n);
    var (d, moved) := AdvanceAt(s, n);
    FrameKeepsWellFormed(s, d);
    AdvancedSender(s, n);
    SettleParts(s, n, d, moved);
    ReplicateDelivers(d, n);
    ReplicatedCommit(d, n, p);
  }

  lemma {:induction false} VotesKeepRunning(c: Cluster, n: NodeId, request: VoteRequest, peers: seq<NodeId>, granted: set<NodeId>, p: NodeId)
    requires n in c.nodes && p in c.nodes && forall q :: q in peers ==> q in c.nodes
    ensures VoteRound(c, n, request, peers, granted).cluster.nodes[p].running == c.nodes[p].running
    decreases |peers|
  {
    if peers == [] {
      VoteRoundNil(c, n, request, granted);
    } else {
      VoteRoundCons(c, n, request, peers, granted);
      var q := peers[0];
      var (s, response) := ReceiveVote(c.nodes[q], q, request);
      var c1 := c.(nodes := c.nodes[q := s]);
      hide VoteRound;
      if response.term <= c1.nodes[n].term {
        VotesKeepRunning(c1, n, request, peers[1..], if response.granted then granted + {q} else granted, p);
      }
    }
  }

  lemma TimeoutKeepsRunning(c: Cluster, n: NodeId, p: NodeId)
    requires WellFormed(c) && p in c.nodes
    ensures p in TriggerTimeout(c, n).0.nodes && TriggerTimeout(c, n).0.nodes[p].running == c.nodes[p].running
  {
    hide WellFormed, ReachablePeers, VoteRound;
    if IsRunning(c, n) {
      var candidate := StartElection(c.nodes[n], n);
      VotesKeepRunning(WithNode(c, n, candidate), n, VoteRequestOf(candidate, n), ReachablePeers(c, n), {n}, p);
      hide StartElection, VoteRequestOf;
    }
  }

  /** Nothing but a crash or a restart of the node itself takes it down or brings it up. */
  lemma StepRuns(c: Cluster, e: Event, p: NodeId)
    requires WellFormed(c) && p in c.nodes
    ensures p in Step(c, e).nodes
    ensures Step(c, e).nodes[p].running == if e == CrashNode(p) then false else if e == RestartNode(p) then true else c.nodes[p].running
  {
    hide WellFormed, TriggerTimeout, SubmitCommand, ReplicateFrom, Restart, SameFrame;
    match e {
      case SetPartition(_) =>
      case Heal =>
      case CrashNode(n) =>
      case RestartNode(n) =>
        if n in c.nodes {
          RestartRuns(c.nodes[n]);
        }
      case TriggerTimeoutOf(n) => TimeoutKeepsRunning(c, n, p);
      case SubmitTo(n, command) => SubmitKeepsRunning(c, n, command, p);
      case ReplicateOf(n) =>
        if LeaderError(c, n) == None {
          ReplicateDelivers(c, n);
          ReplicatedCommit(c, n, p);
        }
    }
  }

  lemma RestartRuns(s: NodeState)
    ensures Restart(s).running
  {
    RebuildReplays(s.(running := true, role := Follower, leaderId := None, matchIndex := map[]));
  }

  /** In any run, a node is up if and only if its last crash or restart so far, if any, is a restart. */
  lemma {:induction false} RunningExactly(ids: seq<NodeId>, events: seq<Event>, states: seq<Cluster>, i: nat, n: NodeId)
    requires AnyRun(ids, events, states) && i <= |events| && n in states[i].nodes
    ensures states[i].nodes[n].running <==> LastRestarted(events[..i], n)
  {
    hide WellFormed, Step, Init;
    if i == 0 {
      FreshRuns(ids, states[0], n);
    } else {
      var k := i - 1;
      assert Follows(states[k], events[k], states[k + 1]);
      assert events[..i][..k] == events[..k] && events[..i][k] == events[k];
      StepKeepsWellFormed(states[k], events[k]);
      RunningExactly(ids, events, states, k, n);
      StepRuns(states[k], events[k], n);
    }
  }

  lemma FreshRuns(ids: seq<NodeId>, c: Cluster, n: NodeId)
    requires Init(ids) == Ok(c) && n in c.nodes
    ensures c.nodes[n].running
  {
  }
}
