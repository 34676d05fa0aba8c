/** Exactly when a node's commit index falls (lab 25). */
module RaftCommits {
  import opened Options
  import opened Sequences
  import opened RelayTasks
  import opened RaftNode
  import opened RaftCluster

  /** The commit index after a request is the sender's, cut to the log it sends; it may be lower than before. */
  lemma CommitFallsExactly(s: NodeState, id: NodeId, q: AppendRequest)
    ensures ReceiveAppend(s, id, q).0.commit < s.commit <==> s.term <= q.term && Min(q.leaderCommit, |q.entries|) < s.commit
    ensures s.term <= q.term ==>
              ReceiveAppend(s, id, q).0.commit == Min(q.leaderCommit, |q.entries|) && ReceiveAppend(s, id, q).0.term == q.term
    ensures ReceiveAppend(s, id, q).0.running == s.running
  {
    if s.term <= q.term {
      var s1 := ObserveHigherTerm(s, q.term).(role := Follower, leaderId := Some(q.leader));
      RebuildReplays(s1.(log := q.entries, commit := Min(s1.commit, |q.entries|)));
      var s2 := ReplaceLog(s1, q.entries);
      ApplyCommittedKeepsLog(s2.(commit := Min(q.leaderCommit, |s2.log|)));
    }
  }

  // ---------- one round of replication ----------

  /** What a round leaves of its sender: commit index and log as before, and the term too while it still leads. */
  ghost predicate SenderKept(s: NodeState, t: NodeState) {
    && t.commit == s.commit && t.log == s.log && t.running == s.running
    && t.machine == s.machine && t.lastApplied == s.lastApplied && t.rejections == s.rejections
    && s.term <= t.term && (t.role == Leader ==> s.role == Leader && t.term == s.term)
  }

  /** The first delivery of a round. */
  lemma FirstDelivery(c: Cluster, n: NodeId, request: AppendRequest, peers: seq<NodeId>, responses: seq<AppendResponse>)
    returns (d: Cluster, more: seq<AppendResponse>)
    requires WellIndexed(request.entries) && n in c.nodes && peers != [] && peers[0] != n && forall p :: p in peers ==> p in c.nodes
    ensures d.nodes.Keys == c.nodes.Keys
    ensures AppendRound(c, n, request, peers, responses) == AppendRound(d, n, request, peers[1..], more)
    ensures d.nodes[peers[0]] == ReceiveAppend(c.nodes[peers[0]], peers[0], request).0 && SenderKept(c.nodes[n], d.nodes[n])
    ensures forall p :: p in c.nodes && p != n && p != peers[0] ==> d.nodes[p] == c.nodes[p]
  {
    AppendRoundCons(c, n, request, peers, responses);
    hide AppendRound, ReceiveAppend, WellIndexed;
    var first := peers[0];
    var (s, response) := ReceiveAppend(c.nodes[first], first, request);
    var c1 := c.(nodes := c.nodes[first := s]);
    d := c1.(nodes := c1.nodes[n := Noted(c1.nodes[n], first, response)]);
    more := responses + [response];
  }

  lemma {:induction false} RoundDelivers(c: Cluster, n: NodeId, request: AppendRequest, peers: seq<NodeId>, responses: seq<AppendResponse>)
    requires WellIndexed(request.entries) && n in c.nodes && Distinct(peers)
    requires forall p :: p in peers ==> p in c.nodes && p != n
    ensures var d := AppendRound(c, n, request, peers, responses).cluster;
            && d.nodes.Keys == c.nodes.Keys
            && SenderKept(c.nodes[n], d.nodes[n])
            && forall p :: p in c.nodes && p != n ==>
                 d.nodes[p] == if p in peers then ReceiveAppend(c.nodes[p], p, request).0 else c.nodes[p]
    decreases |peers|
  {
    hide ReceiveAppend, AppendRound, WellIndexed;
    if peers == [] {
      AppendRoundNil(c, n, request, responses);
    } else {
      var first, rest := peers[0], peers[1..];
      assert Distinct(rest) && first !in rest;
      assert forall p :: p in peers <==> p == first || p in rest;
      hide Distinct;
      var d, more := FirstDelivery(c, n, request, peers, responses);
      RoundDelivers(d, n, request, rest, more);
    }
  }

  /** A whole replication, in terms of the state before it. */
  lemma ReplicateDelivers(c: Cluster, n: NodeId)
    requires WellFormed(c) && n in c.nodes
    ensures var d := ReplicateFrom(c, n).cluster;
            && d.nodes.Keys == c.nodes.Keys && d.groups == c.groups && d.order == c.order
            && SenderKept(c.nodes[n], d.nodes[n])
            && forall p :: p in c.nodes && p != n ==>
                 d.nodes[p] == if p in ReachablePeers(c, n) then ReceiveAppend(c.nodes[p], p, AppendRequestOf(c.nodes[n], n)).0 else c.nodes[p]
  {
    assert WellIndexed(AppendRequestOf(c.nodes[n], n).entries);
    hide WellFormed, ReachablePeers, AppendRound, ReceiveAppend, WellIndexed;
    RoundDelivers(c, n, AppendRequestOf(c.nodes[n], n), ReachablePeers(c, n), []);
  }

  /** Whether a request of `n` reaches `p` and is accepted. */
  ghost predicate Accepts(c: Cluster, n: NodeId, p: NodeId)
    requires WellFormed(c) && n in c.nodes
  {
    p in ReachablePeers(c, n) && c.nodes[p].term <= c.nodes[n].term
  }

  lemma ReplicatedCommit(c: Cluster, n: NodeId, p: NodeId)
    requires WellFormed(c) && n in c.nodes && p in c.nodes
    ensures var d := ReplicateFrom(c, n).cluster;
            && d.nodes[p].commit == (if Accepts(c, n, p) then c.nodes[n].commit else c.nodes[p].commit)
            && d.nodes[p].running == c.nodes[p].running
            && (Accepts(c, n, p) ==> d.nodes[p].term == c.nodes[n].term)
            && (p != n && !Accepts(c, n, p) ==> d.nodes[p] == c.nodes[p])
            && SenderKept(c.nodes[n], d.nodes[n])
  {
    assert c.nodes[n].commit <= |c.nodes[n].log|;
    hide WellFormed, ReachablePeers, ReplicateFrom, ReceiveAppend;
    ReplicateDelivers(c, n);
    if p != n && p in ReachablePeers(c, n) {
      CommitFallsExactly(c.nodes[p], p, AppendRequestOf(c.nodes[n], n));
      if c.nodes[p].term > c.nodes[n].term {
        StaleRequest(c.nodes[p], p, AppendRequestOf(c.nodes[n], n));
      }
    }
  }

  lemma StaleRequest(s: NodeState, id: NodeId, q: AppendRequest)
    requires q.term < s.term
    ensures ReceiveAppend(s, id, q).0 == s
  {
  }

  // ---------- a submit ----------

  /** The state after the entry was appended and sent out once. */
  ghost function SentOnce(c: Cluster, n: NodeId, command: Command): (d: Cluster)
    requires WellFormed(c) && n in c.nodes
    ensures WellFormed(d) && n in d.nodes
  {
    var c1 := AppendAt(c, n, command);
    FrameKeepsWellFormed(c, c1);
    FrameKeepsWellFormed(c1, ReplicateFrom(c1, n).cluster);
    ReplicateFrom(c1, n).cluster
  }

  /** The commit index a submit leaves with the followers it reaches. */
  ghost function CommitSent(c: Cluster, n: NodeId, command: Command): nat
    requires WellFormed(c) && n in c.nodes
  {
    var s := SentOnce(c, n, command).nodes[n];
    if s.role == Leader then CommitCandidate(s, Majority(c), |s.log|) else s.commit
  }

  lemma SentOnceFacts(c: Cluster, n: NodeId, p: NodeId, command: Command)
    requires WellFormed(c) && n in c.nodes && p in c.nodes && p != n
    ensures var s := SentOnce(c, n, command);
            && s.nodes.Keys == c.nodes.Keys && s.groups == c.groups && s.order == c.order
            && s.nodes[n].commit == c.nodes[n].commit && s.nodes[n].running == c.nodes[n].running
            && (s.nodes[n].role == Leader ==> s.nodes[n].term == c.nodes[n].term)
            && (if Accepts(c, n, p) then s.nodes[p].commit == c.nodes[n].commit && s.nodes[p].term == c.nodes[n].term
                else s.nodes[p] == c.nodes[p])
            && ReachablePeers(s, n) == ReachablePeers(c, n)
  {
    var c1 := AppendAt(c, n, command);
    FrameKeepsWellFormed(c, c1);
    SamePeers(c, c1, n);
    hide WellFormed, ReachablePeers, ReplicateFrom;
    ReplicatedCommit(c1, n, p);
    ReplicateDelivers(c1, n);
    var s := ReplicateFrom(c1, n).cluster;
    forall q | q in c1.nodes ensures s.nodes[q].running == c1.nodes[q].running {
      ReplicatedCommit(c1, n, q);
    }
    SamePeers(c1, s, n);
  }

  /** Who can be reached depends on partition and liveness only. */
  lemma SamePeers(c: Cluster, d: Cluster, n: NodeId)
    requires WellFormed(c) && WellFormed(d) && n in c.nodes
    requires d.order == c.order && d.groups == c.groups && d.nodes.Keys == c.nodes.Keys
    requires forall q :: q in c.nodes ==> d.nodes[q].running == c.nodes[q].running
    ensures ReachablePeers(d, n) == ReachablePeers(c, n)
  {
    ValidGroupsCover(c.groups, c.nodes.Keys, {});
    SamePeersIn(c, d, n, c.order, GroupOf(c.groups, n));
  }

  lemma {:induction false} SamePeersIn(c: Cluster, d: Cluster, n: NodeId, ids: seq<NodeId>, group: set<NodeId>)
    requires Distinct(ids) && forall p :: p in ids ==> p in c.nodes && p in d.nodes && d.nodes[p].running == c.nodes[p].running
    ensures PeersIn(d, n, ids, group) == PeersIn(c, n, ids, group)
  {
    if ids != [] {
      SamePeersIn(c, d, n, ids[..|ids| - 1], group);
    }
  }

  /** A submit leaves a follower that accepts it with the commit index sent last, and any other where it was. */
  lemma SubmittedCommit(c: Cluster, n: NodeId, p: NodeId, command: Command)
    requires WellFormed(c) && n in c.nodes && p in c.nodes && p != n && LeaderError(c, n) == None
    ensures SubmitCommand(c, n, command).0.nodes[p].commit == if Accepts(c, n, p) then CommitSent(c, n, command) else c.nodes[p].commit
  {
    hide WellFormed, ReachablePeers, ReplicateFrom, AppendAt;
    SentOnceFacts(c, n, p, command);
    SubmitCommandUnfolds(c, n, command);
    var s := SentOnce(c, n, command);
    SettledCommit(s, n, p);
  }

  lemma SettledCommit(s: Cluster, n: NodeId, p: NodeId)
    requires WellFormed(s) && n in s.nodes && p in s.nodes && p != n
    ensures var leads := s.nodes[n].running && s.nodes[n].role == Leader;
            var sent := CommitCandidate(s.nodes[n], Majority(s), |s.nodes[n].log|);
            Settle(s, n).0.nodes[p].commit == if leads && sent != s.nodes[n].commit && Accepts(s, n, p) then sent else s.nodes[p].commit
  {
    hide *;
    SaneSender(s, n);
    var (d, moved) := AdvanceAt(s, n);
    FrameKeepsWellFormed(s, d);
    AdvancedSender(s, n);
    SamePeers(s, d, n);
    SettleParts(s, n, d, moved);
    AcceptsAlike(s, d, n, p);
    if moved && LeaderError(d, n) == None {
      ReplicatedCommit(d, n, p);
    }
  }

  lemma AcceptsAlike(s: Cluster, d: Cluster, n: NodeId, p: NodeId)
    requires WellFormed(s) && WellFormed(d) && n in s.nodes && n in d.nodes && p in s.nodes && p in d.nodes
    requires ReachablePeers(d, n) == ReachablePeers(s, n) && d.nodes[n].term == s.nodes[n].term && d.nodes[p].term == s.nodes[p].term
    ensures Accepts(d, n, p) == Accepts(s, n, p)
  {
  }

  /** The two outcomes of the commit step. */
  lemma SettleParts(s: Cluster, n: NodeId, d: Cluster, moved: bool)
    requires WellFormed(s) && n in s.nodes && s.nodes[n].commit <= |s.nodes[n].log| && AdvanceAt(s, n) == (d, moved) && WellFormed(d)
    requires n in d.nodes && d.nodes[n].role == s.nodes[n].role && d.nodes[n].running == s.nodes[n].running
    ensures LeaderError(d, n) == None <==> s.nodes[n].running && s.nodes[n].role == Leader
    ensures Settle(s, n).0 == if moved && LeaderError(d, n) == None then ReplicateFrom(d, n).cluster else d
  {
    hide WellFormed, ReplicateFrom, AdvanceAt;
  }

  lemma AdvancedSender(s: Cluster, n: NodeId)
    requires n in s.nodes && s.nodes[n].commit <= |s.nodes[n].log|
    ensures var (d, moved) := AdvanceAt(s, n);
            var sent := CommitCandidate(s.nodes[n], Majority(s), |s.nodes[n].log|);
            && moved == (sent != s.nodes[n].commit) && d.nodes[n].commit == sent
            && d.nodes[n].role == s.nodes[n].role && d.nodes[n].running == s.nodes[n].running && d.nodes[n].term == s.nodes[n].term
            && d.nodes[n].log == s.nodes[n].log && d.nodes[n].matchIndex == s.nodes[n].matchIndex
            && d == s.(nodes := s.nodes[n := d.nodes[n]]) && d.nodes.Keys == s.nodes.Keys
  {
    var t := s.nodes[n];
    ApplyCommittedKeepsLog(t.(commit := CommitCandidate(t, Majority(s), |t.log|)));
    hide ApplyCommitted, Qualifies, Sane;
  }

  // ---------- every call ----------

  /** Read off the state before a call: it will leave `p` with a lower commit index. */
  ghost predicate CommitWillFall(c: Cluster, e: Event, p: NodeId)
    requires WellFormed(c) && p in c.nodes
  {
    match e
    case ReplicateOf(n) => LeaderError(c, n) == None && Accepts(c, n, p) && c.nodes[n].commit < c.nodes[p].commit
    case SubmitTo(n, command) => LeaderError(c, n) == None && Accepts(c, n, p) && CommitSent(c, n, command) < c.nodes[p].commit
    case _ => false
  }

  /** Nothing but replication lowers a commit index. */
  lemma OtherStepsKeepCommit(c: Cluster, e: Event, p: NodeId)
    requires WellFormed(c) && p in c.nodes && !e.ReplicateOf? && !e.SubmitTo?
    ensures p in Step(c, e).nodes && Step(c, e).nodes[p].commit == c.nodes[p].commit
  {
    hide WellFormed, TriggerTimeout, Restart;
    match e {
      case SetPartition(_) =>
      case Heal =>
      case CrashNode(_) =>
      case RestartNode(n) =>
        if n in c.nodes {
          RestartKeepsCommit(c, n);
        }
      case TriggerTimeoutOf(n) => TimeoutKeepsCommit(c, n, p);
    }
  }

  lemma ReplicateStep(c: Cluster, n: NodeId, p: NodeId)
    requires WellFormed(c) && p in c.nodes
    ensures p in Step(c, ReplicateOf(n)).nodes
    ensures Step(c, ReplicateOf(n)).nodes[p].commit < c.nodes[p].commit <==> CommitWillFall(c, ReplicateOf(n), p)
  {
    hide WellFormed, ReachablePeers, ReplicateFrom, Accepts;
    if LeaderError(c, n) == None {
      ReplicatedCommit(c, n, p);
    }
  }

  /** A node's commit index falls in a call exactly when the call brings it a request of a leader that knows a smaller one. */
  lemma StepCommitFallsExactly(c: Cluster, e: Event, p: NodeId)
    requires WellFormed(c) && p in c.nodes
    ensures p in Step(c, e).nodes && (Step(c, e).nodes[p].commit < c.nodes[p].commit <==> CommitWillFall(c, e, p))
  {
    hide WellFormed, LeaderError, SubmitCommand, ReplicateFromLeader, TriggerTimeout, CommitSent, Accepts;
    if e.ReplicateOf? {
      ReplicateStep(c, e.node, p);
    } else if e.SubmitTo? {
      SubmitCommitExactly(c, e.node, p, e.command);
    } else {
      OtherStepsKeepCommit(c, e, p);
    }
  }

  lemma RestartKeepsCommit(c: Cluster, n: NodeId)
    requires WellFormed(c) && n in c.nodes
    ensures Restart(c.nodes[n]).commit == c.nodes[n].commit
  {
    RebuildReplays(c.nodes[n].(running := true, role := Follower, leaderId := None, matchIndex := map[]));
  }

  lemma SubmitCommitExactly(c: Cluster, n: NodeId, p: NodeId, command: Command)
    requires WellFormed(c) && p in c.nodes
    ensures p in SubmitCommand(c, n, command).0.nodes
    ensures SubmitCommand(c, n, command).0.nodes[p].commit < c.nodes[p].commit
            <==> LeaderError(c, n) == None && Accepts(c, n, p) && CommitSent(c, n, command) < c.nodes[p].commit
  {
    hide WellFormed, ReachablePeers, SubmitCommand, CommitSent, Accepts;
    SubmitCommandUnfolds(c, n, command);
    if LeaderError(c, n) == None {
      if p == n {
        SubmitRaisesOwn(c, n, command);
      } else {
        SubmittedCommit(c, n, p, command);
      }
    }
  }

  lemma SubmitRaisesOwn(c: Cluster, n: NodeId, command: Command)
    requires WellFormed(c) && n in c.nodes && LeaderError(c, n) == None
    ensures SubmitCommand(c, n, command).0.nodes[n].commit >= c.nodes[n].commit && !Accepts(c, n, n)
  {
    hide *;
    NotItself(c, n);
    OwnCommitStays(c, n, command);
    var s := SentOnce(c, n, command);
    SubmitParts(c, n, command);
    SaneSender(s, n);
    var (d, moved) := AdvanceAt(s, n);
    FrameKeepsWellFormed(s, d);
    AdvancedSender(s, n);
    SettleParts(s, n, d, moved);
    NotItself(d, n);
    if moved && LeaderError(d, n) == None {
      ReplicatedCommit(d, n, n);
    }
  }

  lemma NotItself(c: Cluster, n: NodeId)
    requires WellFormed(c) && n in c.nodes
    ensures !Accepts(c, n, n)
  {
  }

  lemma SubmitParts(c: Cluster, n: NodeId, command: Command)
    requires WellFormed(c) && n in c.nodes && LeaderError(c, n) == None
    ensures SubmitCommand(c, n, command).0 == Settle(SentOnce(c, n, command), n).0
  {
    hide WellFormed, ReplicateFrom, AppendAt, Settle;
    SubmitCommandUnfolds(c, n, command);
  }

  lemma AppendsAlone(c: Cluster, n: NodeId, command: Command)
    requires WellFormed(c) && LeaderError(c, n) == None
    ensures n in c.nodes
    ensures var s, c1 := AppendLocal(c.nodes[n], n, command), AppendAt(c, n, command);
            && c1 == c.(nodes := c.nodes[n := s]) && WellFormed(c1) && Majority(c1) == Majority(c)
            && ReachablePeers(c1, n) == ReachablePeers(c, n)
            && s.commit <= |s.log| && s.running && s.role == Leader && n in s.matchIndex && s.matchIndex[n] == |s.log|
  {
    var c1 := AppendAt(c, n, command);
    FrameKeepsWellFormed(c, c1);
    SamePeers(c, c1, n);
    assert c1.nodes.Keys == c.nodes.Keys;
    assert |c1.nodes| == |c1.nodes.Keys| && |c.nodes| == |c.nodes.Keys|;
    hide ReachablePeers;
  }

  lemma SentOnceIs(c: Cluster, n: NodeId, command: Command)
    requires WellFormed(c) && n in c.nodes && WellFormed(AppendAt(c, n, command))
    ensures SentOnce(c, n, command) == ReplicateFrom(AppendAt(c, n, command), n).cluster
  {
    hide WellFormed, ReplicateFrom, AppendAt;
  }

  lemma SaneSender(s: Cluster, n: NodeId)
    requires WellFormed(s) && n in s.nodes
    ensures s.nodes[n].commit <= |s.nodes[n].log|
  {
  }

  lemma OwnCommitStays(c: Cluster, n: NodeId, command: Command)
    requires WellFormed(c) && n in c.nodes
    ensures SentOnce(c, n, command).nodes[n].commit == c.nodes[n].commit
  {
    var c1 := AppendAt(c, n, command);
    FrameKeepsWellFormed(c, c1);
    hide WellFormed, ReachablePeers, ReplicateFrom;
    ReplicatedCommit(c1, n, n);
  }

  lemma {:induction false} VotesKeepCommit(c: Cluster, n: NodeId, request: VoteRequest, peers: seq<NodeId>, granted: set<NodeId>, p: NodeId)
    requires n in c.nodes && p in c.nodes && forall q :: q in peers ==> q in c.nodes
    ensures VoteRound(c, n, request, peers, granted).cluster.nodes[p].commit == c.nodes[p].commit
    decreases |peers|
  {
    if peers == [] {
      VoteRoundNil(c, n, request, granted);
    } else {
      VoteRoundCons(c, n, request, peers, granted);
      var q := peers[0];
      var (s, response) := ReceiveVote(c.nodes[q], q, request);
      var c1 := c.(nodes := c.nodes[q := s]);
      hide VoteRound;
      if response.term <= c1.nodes[n].term {
        VotesKeepCommit(c1, n, request, peers[1..], if response.granted then granted + {q} else granted, p);
      }
    }
  }

  lemma TimeoutKeepsCommit(c: Cluster, n: NodeId, p: NodeId)
    requires WellFormed(c) && p in c.nodes
    ensures TriggerTimeout(c, n).0.nodes.Keys == c.nodes.Keys && TriggerTimeout(c, n).0.nodes[p].commit == c.nodes[p].commit
  {
    hide WellFormed, ReachablePeers, VoteRound;
    if IsRunning(c, n) {
      var candidate := StartElection(c.nodes[n], n);
      VotesKeepCommit(WithNode(c, n, candidate), n, VoteRequestOf(candidate, n), ReachablePeers(c, n), {n}, p);
      hide StartElection, VoteRequestOf, BecomeLeader;
      PromoteKeepsCommit(TimeoutRound(c, n).cluster, n, p);
    }
  }

  lemma PromoteKeepsCommit(c: Cluster, n: NodeId, p: NodeId)
    requires n in c.nodes && p in c.nodes
    ensures Promote(c, n).0.nodes.Keys == c.nodes.Keys && Promote(c, n).0.nodes[p].commit == c.nodes[p].commit
  {
  }
}
