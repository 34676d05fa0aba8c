/** When a submit commits, and what it says the machine made of the command (lab 25). */
module RaftReports {
  import opened Options
  import opened Sets
  import opened Sequences
  import opened RelayTasks
  import opened RaftNode
  import opened RaftCluster
  import opened RaftHistory
  import opened RaftReplicate
  import opened RaftSteps
  import opened RaftSafety
  import opened RaftCommits
  import opened RaftProgress

  // ---------- when it does not commit ----------

  lemma NotedRises(s: NodeState, p: NodeId, response: AppendResponse)
    ensures Noted(s, p, response).term == if response.term > s.term then response.term else s.term
  {
  }

  /** A peer in a later term takes the sender along. */
  lemma {:induction false} LaterPeerDeposes(c: Cluster, n: NodeId, request: AppendRequest, peers: seq<NodeId>, responses: seq<AppendResponse>, term: nat)
    requires WellIndexed(request.entries) && n in c.nodes && Distinct(peers) && request.term <= term
    requires forall p :: p in peers ==> p in c.nodes && p != n
    requires c.nodes[n].term > term || exists p :: p in peers && c.nodes[p].term > term
    ensures AppendRound(c, n, request, peers, responses).cluster.nodes[n].term > term
    decreases |peers|
  {
    hide ReceiveAppend, AppendRound, WellIndexed, Noted;
    if peers == [] {
      AppendRoundNil(c, n, request, responses);
    } else {
      var p, rest := peers[0], peers[1..];
      assert p !in rest && Distinct(rest);
      assert forall q :: q in peers <==> q == p || q in rest;
      hide Distinct;
      var d, response := DeliverOne(c, n, request, peers, responses);
      Answer(c.nodes[p], p, request);
      NotedRises(c.nodes[n], p, response);
      LaterPeerDeposes(d, n, request, rest, responses + [response], term);
    }
  }

  ghost predicate NobodyLater(c: Cluster, n: NodeId)
    requires WellFormed(c) && n in c.nodes
  {
    forall p :: p in ReachablePeers(c, n) ==> c.nodes[p].term <= c.nodes[n].term
  }

  lemma DeposedBySend(c: Cluster, n: NodeId)
    requires WellFormed(c) && n in c.nodes && !NobodyLater(c, n)
    ensures n in ReplicateFrom(c, n).cluster.nodes && ReplicateFrom(c, n).cluster.nodes[n].term > c.nodes[n].term
  {
    hide WellFormed, ReachablePeers, AppendRound;
    SaneLog(c, n);
    LaterPeerDeposes(c, n, AppendRequestOf(c.nodes[n], n), ReachablePeers(c, n), [], c.nodes[n].term);
  }

  /** Nobody but those reached has acknowledged the new entry, so fewer than a majority hold it. */
  lemma TooFewHolders(s: NodeState, n: NodeId, peers: seq<NodeId>, majority: nat)
    requires s.log != [] && Distinct(peers) && n !in peers && |peers| + 1 < majority
    requires forall p :: p in s.matchIndex && p !in peers && p != n ==> s.matchIndex[p] < |s.log|
    requires s.commit < |s.log|
    ensures CommitCandidate(s, majority, |s.log|) < |s.log|
  {
    DistinctSize(peers);
    assert Holders(s, |s.log|) <= {n} + Elements(peers);
    assert |{n} + Elements(peers)| == |peers| + 1;
    SubsetSize(Holders(s, |s.log|), {n} + Elements(peers));
  }

  lemma KnownHoldings(c: Cluster, h: History, n: NodeId)
    requires n in c.nodes && Inv(c, h) && c.nodes[n].role == Leader
    ensures forall p :: p in c.nodes[n].matchIndex ==> c.nodes[n].matchIndex[p] <= |c.nodes[n].log|
    ensures n in c.nodes[n].matchIndex
  {
    hide Complete, CommitsOk, LogsOk, VotesOk, ElectedOk, NodesOk;
    assert LeaderOk(c, h, n);
    var s := c.nodes[n];
    forall p | p in s.matchIndex ensures s.matchIndex[p] <= |s.log| {
      assert (s.term, p) in h.acks ==> h.acks[(s.term, p)] <= |h.logs[s.term]|;
    }
  }

  lemma AppendedMatch(s: NodeState, n: NodeId, command: Command)
    ensures AppendLocal(s, n, command).matchIndex == s.matchIndex[n := |s.log| + 1] && AppendLocal(s, n, command).log == Longer(s, command)
  {
  }

  /** Reached by too few, the leader's candidate index stays below the new entry. */
  lemma TooFewReached(c: Cluster, h: History, n: NodeId, command: Command)
    requires WellFormed(c) && Inv(c, h) && LeaderError(c, n) == None && n in c.nodes
    requires NobodyLater(c, n) && |ReachablePeers(c, n)| + 1 < Majority(c)
    ensures var s := SentOnce(c, n, command);
            s.nodes[n].commit < |s.nodes[n].log| == |c.nodes[n].log| + 1
            && CommitCandidate(s.nodes[n], Majority(s), |s.nodes[n].log|) <= |c.nodes[n].log|
  {
    hide *;
    LeaderFacts(c, n);
    AppendsAlone(c, n, command);
    SentOnceIs(c, n, command);
    AppendedState(c, n, command);
    LongerFacts(c.nodes[n], command);
    AppendedTerms(c, n, command);
    NobodyLaterMeans(c, n);
    ReplicateAccepted(AppendAt(c, n, command), n);
    KnownHoldings(c, h, n);
    AppendedMatch(c.nodes[n], n, command);
    var p := Another(c, n);
    SentOnceFacts(c, n, p, command);
    var s := SentOnce(c, n, command);
    SameMajority(c, s);
    NotAmongPeers(c, n);
    PeersAreElements(ReachablePeers(c, n));
    TooFewHolders(s.nodes[n], n, ReachablePeers(c, n), Majority(s));
  }

  lemma NobodyLaterMeans(c: Cluster, n: NodeId)
    requires WellFormed(c) && n in c.nodes
    ensures NobodyLater(c, n) <==> forall p :: p in ReachablePeers(c, n) ==> c.nodes[p].term <= c.nodes[n].term
  {
  }

  /** Told of a later term during the first round, the leader commits nothing. */
  lemma DeposedFirst(c: Cluster, h: History, n: NodeId, command: Command)
    requires WellFormed(c) && Inv(c, h) && LeaderError(c, n) == None && n in c.nodes && !NobodyLater(c, n)
    ensures var s := SentOnce(c, n, command);
            n in s.nodes && s.nodes[n].commit == c.nodes[n].commit <= |c.nodes[n].log| < |s.nodes[n].log|
            && s.nodes[n].role != Leader
  {
    hide *;
    LeaderFacts(c, n);
    AppendsAlone(c, n, command);
    SentOnceIs(c, n, command);
    AppendedState(c, n, command);
    LongerFacts(c.nodes[n], command);
    AppendedTerms(c, n, command);
    NobodyLaterMeans(c, n);
    NobodyLaterMeans(AppendAt(c, n, command), n);
    DeposedBySend(AppendAt(c, n, command), n);
    ReplicateDelivers(AppendAt(c, n, command), n);
    KeptOrDeposed(AppendAt(c, n, command).nodes[n], SentOnce(c, n, command).nodes[n]);
  }

  lemma KeptOrDeposed(s: NodeState, t: NodeState)
    requires SenderKept(s, t)
    ensures t.commit == s.commit && t.log == s.log && t.running == s.running && t.lastApplied == s.lastApplied && t.rejections == s.rejections
    ensures t.role == Leader ==> t.term == s.term
  {
  }

  // ---------- exactly when it commits ----------

  lemma SentOnceInv(c: Cluster, h: History, n: NodeId, command: Command) returns (g: History)
    requires WellFormed(c) && Inv(c, h) && LeaderError(c, n) == None && n in c.nodes
    ensures Inv(SentOnce(c, n, command), g) && LeadsOrMovedOn(SentOnce(c, n, command).nodes[n])
  {
    hide *;
    LeaderFacts(c, n);
    AppendKeepsInv(c, h, n, command);
    AppendedIs(c, n, command);
    AppendsAlone(c, n, command);
    SentOnceIs(c, n, command);
    g := ReplicateKeepsInv(AppendAt(c, n, command), AppendedHistory(c, h, n, command), n);
  }

  lemma AppendedIs(c: Cluster, n: NodeId, command: Command)
    requires n in c.nodes
    ensures Appended(c, n, command) == AppendAt(c, n, command)
  {
  }

  lemma SettleQuiet(s: Cluster, n: NodeId)
    requires WellFormed(s) && n in s.nodes && s.nodes[n].commit <= |s.nodes[n].log| && !AdvanceAt(s, n).1
    ensures Settle(s, n).1 == None
  {
    hide WellFormed, AdvanceAt;
  }

  /** In any state a clean run reaches, the rest of a submit succeeds and leaves the leader at its candidate index. */
  lemma SettlesAt(s: Cluster, h: History, n: NodeId)
    requires WellFormed(s) && n in s.nodes && Inv(s, h) && LeadsOrMovedOn(s.nodes[n]) && s.nodes[n].running
    requires s.nodes[n].commit <= |s.nodes[n].log|
    ensures var (d, error) := Settle(s, n);
            && error == None && n in d.nodes
            && d.nodes[n].commit == CommitCandidate(s.nodes[n], Majority(s), |s.nodes[n].log|)
            && (s.nodes[n].role != Leader ==> d.nodes[n].commit == s.nodes[n].commit)
            && d.nodes[n].log == s.nodes[n].log
            && d.nodes[n].lastApplied == (if d.nodes[n].commit > s.nodes[n].commit then Max(s.nodes[n].lastApplied, d.nodes[n].commit) else s.nodes[n].lastApplied)
  {
    hide *;
    var (d, moved) := AdvanceAt(s, n);
    FrameKeepsWellFormed(s, d);
    AdvancedSender(s, n);
    AdvanceKeepsInv(s, h, n);
    InvAt(s, h, n);
    AdvancedApplied(s, n);
    SettleParts(s, n, d, moved);
    SettledWell(s, n, d, moved);
    if moved {
      ReplicateDelivers(d, n);
      KeptOrDeposed(d.nodes[n], ReplicateFrom(d, n).cluster.nodes[n]);
    } else {
      SettleQuiet(s, n);
    }
  }

  lemma AdvancedApplied(s: Cluster, n: NodeId)
    requires n in s.nodes && NodeOk(s.nodes[n]) && s.nodes[n].commit <= |s.nodes[n].log|
    ensures var t := AdvanceAt(s, n).0.nodes[n];
            t.lastApplied == if t.commit > s.nodes[n].commit then Max(s.nodes[n].lastApplied, t.commit) else s.nodes[n].lastApplied
  {
    hide LogOk, Replay, CommitCandidate, SameFrame, ApplyCommitted;
    var x := s.nodes[n];
    ApplyCommittedReplays(x.(commit := CommitCandidate(x, Majority(s), |x.log|)));
  }

  lemma SubmitCommitsExactlyAt(c: Cluster, h: History, n: NodeId, command: Command)
    requires WellFormed(c) && Inv(c, h) && LeaderError(c, n) == None
    ensures n in c.nodes && SubmitCommand(c, n, command).1.Ok?
    ensures SubmitCommand(c, n, command).1.value.committed
            <==> NobodyLater(c, n) && |ReachablePeers(c, n)| + 1 >= Majority(c)
  {
    hide *;
    LeaderFacts(c, n);
    var s := SentOnce(c, n, command);
    var g := SentOnceInv(c, h, n, command);
    SentRunningItself(c, n, command);
    SaneSender(s, n);
    SettlesAt(s, g, n);
    SubmitParts(c, n, command);
    SubmitAnswers(c, n, command);
    if !NobodyLater(c, n) {
      DeposedFirst(c, h, n, command);
    } else if |ReachablePeers(c, n)| + 1 < Majority(c) {
      TooFewReached(c, h, n, command);
    } else {
      NobodyLaterMeans(c, n);
      FirstSend(c, n, command);
      LongerFacts(c.nodes[n], command);
    }
  }

  lemma SentRunningItself(c: Cluster, n: NodeId, command: Command)
    requires WellFormed(c) && LeaderError(c, n) == None && n in c.nodes
    ensures SentOnce(c, n, command).nodes[n].running && SentOnce(c, n, command).nodes[n].log == Longer(c.nodes[n], command)
    ensures SentOnce(c, n, command).nodes[n].lastApplied == c.nodes[n].lastApplied
  {
    hide *;
    LeaderFacts(c, n);
    AppendsAlone(c, n, command);
    SentOnceIs(c, n, command);
    AppendedState(c, n, command);
    ReplicateDelivers(AppendAt(c, n, command), n);
    KeptOrDeposed(AppendAt(c, n, command).nodes[n], SentOnce(c, n, command).nodes[n]);
  }

  /**
   * After a clean run, a submit to a running leader is answered, and reports the command as committed if and only if no node
   * in reach is in a later term and they make a majority with the leader.
   */
  lemma SubmitCommitsExactly(ids: seq<NodeId>, events: seq<Event>, states: seq<Cluster>, n: NodeId, command: Command)
    requires CleanRun(ids, events, states) && WellFormed(states[|events|]) && LeaderError(states[|events|], n) == None
    ensures var c := states[|events|];
            && n in c.nodes && SubmitCommand(c, n, command).1.Ok?
            && (SubmitCommand(c, n, command).1.value.committed
                <==> NobodyLater(c, n) && |ReachablePeers(c, n)| + 1 >= Majority(c))
  {
    hide Inv, SubmitCommand, WellFormed, NobodyLater, ReachablePeers, FollowsCleanly, Init;
    var h, _ := InvAtBoth(ids, events, states, |events|, |events|);
    SubmitCommitsExactlyAt(states[|events|], h, n, command);
  }

  // ---------- what the machine said ----------

  function Commands(log: seq<Entry>): seq<Command> {
    seq(|log|, i requires 0 <= i < |log| => log[i].command)
  }

  /** What the machine, having run the commands before, says to a command. */
  function Verdict(before: seq<Command>, command: Command): Option<Rejection> {
    match Apply(Run(before), command)
    case Ok(_) => None
    case Err(why) => Some(why)
  }

  /** Replaying a log runs its commands; rejections are kept for entries of the log only. */
  lemma {:induction false} ReplayRuns(log: seq<Entry>)
    requires WellIndexed(log)
    ensures Replay(log).machine == Run(Commands(log))
    ensures forall k :: k in Replay(log).rejections ==> 1 <= k <= |log|
  {
    if log != [] {
      var front := log[..|log| - 1];
      ReplayRuns(front);
      assert Commands(log)[..|log| - 1] == Commands(front);
    }
  }

  lemma ReplayLonger(s: NodeState, command: Command)
    requires WellIndexed(s.log)
    ensures var r, k := Replay(Longer(s, command)).rejections, |s.log| + 1;
            (if k in r then Some(r[k]) else None) == Verdict(Commands(s.log), command)
  {
    ReplayRuns(s.log);
    assert Longer(s, command)[..|s.log|] == s.log;
  }

  /** The machine's words about the new entry, once all of the log is applied; before that there are none. */
  lemma RejectionAt(s: NodeState, t: NodeState, command: Command)
    requires WellIndexed(s.log) && t.log == Longer(s, command) && Consistent(t)
    requires t.lastApplied == |t.log| || t.lastApplied <= |s.log|
    ensures var k := |s.log| + 1;
            (if k in t.rejections then Some(t.rejections[k]) else None)
            == if t.lastApplied == |t.log| then Verdict(Commands(s.log), command) else None
  {
    if t.lastApplied == |t.log| {
      assert t.log[..t.lastApplied] == t.log;
      ReplayLonger(s, command);
    } else {
      var applied := t.log[..t.lastApplied];
      assert WellIndexed(applied);
      ReplayRuns(applied);
    }
  }

  lemma RejectionIsTheMachinesAt(c: Cluster, h: History, n: NodeId, command: Command)
    requires WellFormed(c) && Inv(c, h) && LeaderError(c, n) == None
    ensures n in c.nodes && SubmitCommand(c, n, command).1.Ok?
    ensures var r := SubmitCommand(c, n, command).1.value;
            r.rejection == if r.committed then Verdict(Commands(c.nodes[n].log), command) else None
  {
    hide *;
    LeaderFacts(c, n);
    var s := SentOnce(c, n, command);
    var g := SentOnceInv(c, h, n, command);
    SentRunningItself(c, n, command);
    SaneSender(s, n);
    SettlesAt(s, g, n);
    SubmitParts(c, n, command);
    SubmitAnswers(c, n, command);
    var g3 := SubmitKeepsInv(c, h, n, command);
    var d := SubmitCommand(c, n, command).0;
    InvAt(d, g3, n);
    InvAt(c, h, n);
    NodeFacts(c.nodes[n]);
    NodeFacts(d.nodes[n]);
    LongerFacts(c.nodes[n], command);
    AppendsAlone(c, n, command);
    SentCommit(c, n, command);
    MaxFacts(c.nodes[n].lastApplied, d.nodes[n].commit);
    RejectionAt(c.nodes[n], d.nodes[n], command);
  }

  lemma MaxFacts(a: nat, b: nat)
    ensures Max(a, b) == if a < b then b else a
  {
  }

  lemma SentCommit(c: Cluster, n: NodeId, command: Command)
    requires WellFormed(c) && n in c.nodes
    ensures SentOnce(c, n, command).nodes[n].commit == c.nodes[n].commit
  {
    OwnCommitStays(c, n, command);
  }

  lemma NodeFacts(s: NodeState)
    requires NodeOk(s)
    ensures WellIndexed(s.log) && s.commit <= |s.log| && Consistent(s) && s.lastApplied <= |s.log|
  {
    hide Replay;
  }

  /**
   * After a clean run, a submit reports the rejection with which the machine, having run the commands before it in the log,
   * answers the command; and none while the command is not committed.
   */
  lemma RejectionIsTheMachines(ids: seq<NodeId>, events: seq<Event>, states: seq<Cluster>, n: NodeId, command: Command)
    requires CleanRun(ids, events, states) && WellFormed(states[|events|]) && LeaderError(states[|events|], n) == None
    ensures var c := states[|events|];
            && n in c.nodes && SubmitCommand(c, n, command).1.Ok?
            && var r := SubmitCommand(c, n, command).1.value;
            r.rejection == if r.committed then Verdict(Commands(c.nodes[n].log), command) else None
  {
    hide Inv, SubmitCommand, WellFormed, FollowsCleanly, Init, Verdict;
    var h, _ := InvAtBoth(ids, events, states, |events|, |events|);
    RejectionIsTheMachinesAt(states[|events|], h, n, command);
  }
}
