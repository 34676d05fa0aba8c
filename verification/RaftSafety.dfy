/** Safety of the replicated log over whole runs, and exactly where the clean-round hypothesis is needed. */
module RaftSafety {
  import opened Options
  import opened RelayTasks
  import opened RaftNode
  import opened RaftCluster
  import opened RaftHistory
  import opened RaftPreserve
  import opened RaftReplicate
  import opened RaftSteps

  lemma StepOf(ids: seq<NodeId>, events: seq<Event>, states: seq<Cluster>, i: nat)
    requires CleanRun(ids, events, states) && i < |events|
    ensures WellFormed(states[i]) && CleanStep(states[i], events[i]) && states[i + 1] == Step(states[i], events[i])
    ensures WellFormed(states[i + 1]) && states[i + 1].nodes.Keys == states[i].nodes.Keys
  {
    assert FollowsCleanly(states[i], events[i], states[i + 1]);
    StepKeepsWellFormed(states[i], events[i]);
    hide Step, WellFormed, CleanStep;
  }

  lemma {:induction false} InvOnward(ids: seq<NodeId>, events: seq<Event>, states: seq<Cluster>, i: nat, j: nat, h: History)
    returns (g: History)
    requires CleanRun(ids, events, states) && i <= j <= |events|
    requires Inv(states[i], h)
    ensures Inv(states[j], g) && Extends(h, g) && states[i].nodes.Keys == states[j].nodes.Keys
    decreases j - i
  {
    hide Inv, Step;
    if i == j {
      g := h;
      ExtendsItself(h);
    } else {
      StepOf(ids, events, states, i);
      var m := StepKeepsInv(states[i], h, events[i]);
      g := InvOnward(ids, events, states, i + 1, j, m);
      ExtendsIsTransitive(h, m, g);
    }
  }

  /** The invariant at two moments of one run, with the record growing in between. */
  lemma InvAtBoth(ids: seq<NodeId>, events: seq<Event>, states: seq<Cluster>, i: nat, j: nat) returns (h: History, g: History)
    requires CleanRun(ids, events, states) && i <= j <= |events|
    ensures Inv(states[i], h) && Inv(states[j], g) && Extends(h, g) && states[i].nodes.Keys == states[j].nodes.Keys
  {
    InitialInv(ids);
    hide Inv;
    h := InvOnward(ids, events, states, 0, i, EMPTY_HISTORY);
    g := InvOnward(ids, events, states, i, j, h);
  }

  // ---------- main results ----------

  /**
   * Leader completeness: what any node ever had committed is at the same place in the log of every
   * leader, then or later, whose term is not below that node's term.
   */
  lemma LeaderCompleteness(ids: seq<NodeId>, events: seq<Event>, states: seq<Cluster>, i: nat, j: nat, n: NodeId, leader: NodeId)
    requires CleanRun(ids, events, states) && i <= j <= |events|
    requires n in states[i].nodes && leader in states[j].nodes
    requires states[j].nodes[leader].role == Leader
    requires states[i].nodes[n].term <= states[j].nodes[leader].term
    ensures var s := states[i].nodes[n];
            s.commit <= |s.log| && s.log[..s.commit] <= states[j].nodes[leader].log
  {
    hide Inv;
    var h, g := InvAtBoth(ids, events, states, i, j);
    var c, d := states[i], states[j];
    var s, l := c.nodes[n], d.nodes[leader];
    InvAt(c, h, n);
    InvAt(d, g, leader);
    CommittedGrows(h, g, c.nodes.Keys, s.log[..s.commit], s.term, s.term);
    InvIsComplete(d, g);
    CommittedIsInLaterLogs(d, g, s.log[..s.commit], s.term, l.term);
  }

  lemma InvIsComplete(c: Cluster, h: History)
    requires Inv(c, h)
    ensures Complete(c, h) && LogsOk(c, h) && ElectedOk(c, h)
  {
  }

  /** State machine safety: what any two nodes ever applied, at any two moments, is one log read to two depths. */
  lemma AppliedPrefixesAgree(ids: seq<NodeId>, events: seq<Event>, states: seq<Cluster>, i: nat, j: nat, n: NodeId, m: NodeId)
    requires CleanRun(ids, events, states) && i <= j <= |events|
    requires n in states[i].nodes && m in states[j].nodes
    ensures var s, t := states[i].nodes[n], states[j].nodes[m];
            && s.lastApplied <= |s.log| && t.lastApplied <= |t.log|
            && (s.log[..s.lastApplied] <= t.log[..t.lastApplied] || t.log[..t.lastApplied] <= s.log[..s.lastApplied])
  {
    hide Inv;
    var h, g := InvAtBoth(ids, events, states, i, j);
    var c, d := states[i], states[j];
    var s, t := c.nodes[n], d.nodes[m];
    InvAt(c, h, n);
    InvAt(d, g, m);
    CommittedGrows(h, g, c.nodes.Keys, s.log[..s.lastApplied], s.term, s.term);
    InvIsComplete(d, g);
    CommittedPrefixesAgree(d, g, s.log[..s.lastApplied], t.log[..t.lastApplied], s.term, t.term);
  }

  /** Committed prefixes of any two nodes, at any two moments, agree in the same way. */
  lemma CommittedPrefixesNeverFork(ids: seq<NodeId>, events: seq<Event>, states: seq<Cluster>, i: nat, j: nat, n: NodeId, m: NodeId)
    requires CleanRun(ids, events, states) && i <= j <= |events|
    requires n in states[i].nodes && m in states[j].nodes
    ensures var s, t := states[i].nodes[n], states[j].nodes[m];
            && s.commit <= |s.log| && t.commit <= |t.log|
            && (s.log[..s.commit] <= t.log[..t.commit] || t.log[..t.commit] <= s.log[..s.commit])
  {
    hide Inv;
    var h, g := InvAtBoth(ids, events, states, i, j);
    var c, d := states[i], states[j];
    var s, t := c.nodes[n], d.nodes[m];
    InvAt(c, h, n);
    InvAt(d, g, m);
    CommittedGrows(h, g, c.nodes.Keys, s.log[..s.commit], s.term, s.term);
    InvIsComplete(d, g);
    CommittedPrefixesAgree(d, g, s.log[..s.commit], t.log[..t.commit], s.term, t.term);
  }

  /** Tasks, history and rejections of every node are at all times a fresh replay of its applied prefix. */
  lemma AppliedStateIsReplay(ids: seq<NodeId>, events: seq<Event>, states: seq<Cluster>, i: nat, n: NodeId)
    requires CleanRun(ids, events, states) && i <= |events|
    requires n in states[i].nodes
    ensures var s := states[i].nodes[n];
            s.lastApplied <= |s.log| && Applied(s.machine, s.rejections) == Replay(s.log[..s.lastApplied])
  {
    hide Inv;
    var h, _ := InvAtBoth(ids, events, states, i, i);
    InvAt(states[i], h, n);
  }

  lemma SourcedLogsMatch(h: History, g: History, a: seq<Entry>, b: seq<Entry>, k: nat)
    requires Sourced(h, a) && Sourced(g, b) && Extends(h, g)
    requires k < |a| && k < |b| && a[k].term == b[k].term
    ensures a[..k + 1] == b[..k + 1]
  {
    SourcedGrows(h, g, a);
    var source := g.logs[a[k].term];
    assert a[..k + 1] <= source && b[..k + 1] <= source;
    assert a[..k + 1] == source[..k + 1] && b[..k + 1] == source[..k + 1];
  }

  /** Log matching: entries of equal index and term, in any logs of the run, have equal logs up to and including them. */
  lemma LogMatching(ids: seq<NodeId>, events: seq<Event>, states: seq<Cluster>, i: nat, j: nat, n: NodeId, m: NodeId, k: nat)
    requires CleanRun(ids, events, states) && i <= j <= |events|
    requires n in states[i].nodes && m in states[j].nodes
    requires k < |states[i].nodes[n].log| && k < |states[j].nodes[m].log|
    requires states[i].nodes[n].log[k].term == states[j].nodes[m].log[k].term
    ensures states[i].nodes[n].log[..k + 1] == states[j].nodes[m].log[..k + 1]
  {
    hide Inv;
    var h, g := InvAtBoth(ids, events, states, i, j);
    var c, d := states[i], states[j];
    InvIsComplete(c, h);
    InvIsComplete(d, g);
    var a, b := c.nodes[n].log, d.nodes[m].log;
    assert Sourced(h, a) && Sourced(g, b);
    hide LogsOk, Complete, ElectedOk;
    SourcedLogsMatch(h, g, a, b, k);
  }

  /** Election safety: over a whole run at most one node ever leads a term, and the cluster never reports a conflict. */
  lemma ElectionSafety(ids: seq<NodeId>, events: seq<Event>, states: seq<Cluster>, i: nat, j: nat, n: NodeId, m: NodeId)
    requires CleanRun(ids, events, states) && i <= j <= |events|
    requires n in states[i].nodes && m in states[j].nodes
    requires states[i].nodes[n].role == Leader && states[j].nodes[m].role == Leader
    requires states[i].nodes[n].term == states[j].nodes[m].term
    ensures n == m
  {
    hide Inv;
    var h, g := InvAtBoth(ids, events, states, i, j);
    var c, d := states[i], states[j];
    InvAt(c, h, n);
    InvAt(d, g, m);
    SameWinner(c, h, d, g, c.nodes[n].term);
  }

  /** A recorded leader stays the recorded leader of its term. */
  lemma SameWinner(c: Cluster, h: History, d: Cluster, g: History, term: nat)
    requires Inv(c, h) && Inv(d, g) && Extends(h, g) && d.nodes.Keys == c.nodes.Keys && term in c.leaderByTerm
    ensures term in d.leaderByTerm && d.leaderByTerm[term] == c.leaderByTerm[term]
  {
    InvIsComplete(c, h);
    InvIsComplete(d, g);
    hide Inv;
    var all := c.nodes.Keys;
    var p := QuorumsMeet(all, Voters(h, all, term, c.leaderByTerm[term]), Voters(g, all, term, d.leaderByTerm[term]));
  }

  lemma NoLeadershipConflict(ids: seq<NodeId>, events: seq<Event>, states: seq<Cluster>, i: nat, n: NodeId)
    requires CleanRun(ids, events, states) && i < |events| && events[i] == TriggerTimeoutOf(n) && WellFormed(states[i])
    ensures TriggerTimeout(states[i], n).1 != Err(LeadershipConflict)
  {
    hide Inv, TriggerTimeout;
    var h, _ := InvAtBoth(ids, events, states, i, i);
    StepOf(ids, events, states, i);
    var _ := TimeoutKeepsInv(states[i], h, n);
  }

  /** Right after a submit reported as committed, the entry is in the committed prefix of the node it was sent to. */
  lemma SubmitLeavesEntry(ids: seq<NodeId>, events: seq<Event>, states: seq<Cluster>, i: nat, n: NodeId, command: Command)
    requires CleanRun(ids, events, states) && i < |events| && events[i] == SubmitTo(n, command) && WellFormed(states[i])
    requires var result := SubmitCommand(states[i], n, command).1; result.Ok? && result.value.committed
    ensures n in states[i + 1].nodes
    ensures var result := SubmitCommand(states[i], n, command).1.value;
            var s := states[i + 1].nodes[n];
            1 <= result.index <= s.commit <= |s.log| && s.log[result.index - 1] == Entry(result.index, result.term, command)
  {
    hide Inv, SubmitCommand, WellFormed, FollowsCleanly, Init, Step;
    var h, _ := InvAtBoth(ids, events, states, i, i);
    StepOf(ids, events, states, i);
    SubmitIs(states[i], n, command);
    SubmitLeavesEntryAt(states[i], h, n, command);
  }

  lemma SubmitIs(c: Cluster, n: NodeId, command: Command)
    requires WellFormed(c)
    ensures Step(c, SubmitTo(n, command)) == SubmitCommand(c, n, command).0
  {
    hide WellFormed, SubmitCommand;
  }

  lemma SubmitLeavesEntryAt(c: Cluster, h: History, n: NodeId, command: Command)
    requires WellFormed(c) && Inv(c, h)
    requires var result := SubmitCommand(c, n, command).1; result.Ok? && result.value.committed
    ensures var (d, result) := SubmitCommand(c, n, command);
            && n in d.nodes
            && var s := d.nodes[n];
            1 <= result.value.index <= s.commit <= |s.log|
            && s.log[result.value.index - 1] == Entry(result.value.index, result.value.term, command)
  {
    hide *;
    var d := SubmitCommand(c, n, command).0;
    var g := SubmitKeepsInv(c, h, n, command);
    SubmitReports(c, n, command);
    InvAt(d, g, n);
    CommitInLog(d.nodes[n]);
    AppendedLast(c.nodes[n], n, command);
  }

  lemma CommitInLog(s: NodeState)
    requires NodeOk(s)
    ensures s.commit <= |s.log|
  {
  }

  lemma AppendedLast(s: NodeState, n: NodeId, command: Command)
    ensures AppendLocal(s, n, command).log == s.log + [Entry(|s.log| + 1, s.term, command)]
  {
  }

  /** A command reported as committed stays: every later leader holds it at the reported index. */
  lemma CommittedCommandSurvives(ids: seq<NodeId>, events: seq<Event>, states: seq<Cluster>, i: nat, j: nat, n: NodeId, command: Command, leader: NodeId)
    requires CleanRun(ids, events, states) && i < j <= |events| && events[i] == SubmitTo(n, command) && WellFormed(states[i])
    requires var result := SubmitCommand(states[i], n, command).1; result.Ok? && result.value.committed
    requires leader in states[j].nodes && states[j].nodes[leader].role == Leader && n in states[i + 1].nodes
    requires states[i + 1].nodes[n].term <= states[j].nodes[leader].term
    ensures var result := SubmitCommand(states[i], n, command).1.value;
            var log := states[j].nodes[leader].log;
            1 <= result.index <= |log| && log[result.index - 1] == Entry(result.index, result.term, command)
  {
    hide Inv, SubmitCommand, WellFormed, FollowsCleanly, Init;
    SubmitLeavesEntry(ids, events, states, i, n, command);
    LeaderCompleteness(ids, events, states, i + 1, j, n, leader);
    var s := states[i + 1].nodes[n];
    var log := states[j].nodes[leader].log;
    var index := SubmitCommand(states[i], n, command).1.value.index;
    assert log[..s.commit] == s.log[..s.commit];
    assert s.log[..s.commit][index - 1] == s.log[index - 1];
  }

  lemma SubmitReports(c: Cluster, n: NodeId, command: Command)
    requires WellFormed(c) && SubmitCommand(c, n, command).1.Ok?
    ensures var (d, result) := SubmitCommand(c, n, command);
            && LeaderError(c, n) == None && n in c.nodes && n in d.nodes
            && result.value.index == |c.nodes[n].log| + 1 && result.value.term == c.nodes[n].term
            && (result.value.committed <==> result.value.index <= d.nodes[n].commit)
  {
    hide Settle, ReplicateFrom, WellFormed;
  }

  // ---------- without the hypothesis ----------

  /** The term never falls, and within a term a vote once given is never given to somebody else. */
  ghost predicate VoteStands(s: NodeState, t: NodeState) {
    s.term <= t.term && (s.term == t.term && s.votedFor != None ==> t.votedFor == s.votedFor)
  }

  ghost predicate VotesStand(c: Cluster, d: Cluster) {
    d.nodes.Keys == c.nodes.Keys && forall n :: n in c.nodes ==> VoteStands(c.nodes[n], d.nodes[n])
  }

  lemma AppendVoteStands(s: NodeState, id: NodeId, request: AppendRequest)
    ensures VoteStands(s, ReceiveAppend(s, id, request).0)
  {
    if s.term <= request.term {
      var s1 := ObserveHigherTerm(s, request.term).(role := Follower, leaderId := Some(request.leader));
      RebuildReplays(s1.(log := request.entries, commit := Min(s1.commit, |request.entries|)));
      var s2 := ReplaceLog(s1, request.entries);
      ApplyCommittedKeepsLog(s2.(commit := Min(request.leaderCommit, |s2.log|)));
    }
  }

  lemma {:induction false} VoteRoundVotesStand(c: Cluster, n: NodeId, request: VoteRequest, peers: seq<NodeId>, granted: set<NodeId>)
    requires n in c.nodes && forall p :: p in peers ==> p in c.nodes
    ensures VotesStand(c, VoteRound(c, n, request, peers, granted).cluster)
    decreases |peers|
  {
    hide Sane;
    if peers != [] {
      var p := peers[0];
      var (s, response) := ReceiveVote(c.nodes[p], p, request);
      VoteAnswer(c.nodes[p], p, request);
      var c1 := WithNode(c, p, s);
      if response.term <= c1.nodes[n].term {
        VoteRoundVotesStand(c1, n, request, peers[1..], if response.granted then granted + {p} else granted);
      }
    }
  }

  lemma {:induction false} AppendRoundVotesStand(c: Cluster, n: NodeId, request: AppendRequest, peers: seq<NodeId>, responses: seq<AppendResponse>)
    requires WellIndexed(request.entries) && n in c.nodes && forall p :: p in peers ==> p in c.nodes
    ensures VotesStand(c, AppendRound(c, n, request, peers, responses).cluster)
    decreases |peers|
  {
    hide *;
    if peers == [] {
      AppendRoundNil(c, n, request, responses);
      VotesStandStill(c);
    } else {
      var d, response := DeliveryVotesStand(c, n, request, peers, responses);
      VotesStandKeys(c, d);
      AppendRoundVotesStand(d, n, request, peers[1..], responses + [response]);
      VotesStandChain(c, d, AppendRound(c, n, request, peers, responses).cluster);
    }
  }

  lemma DeliveryVotesStand(c: Cluster, n: NodeId, request: AppendRequest, peers: seq<NodeId>, responses: seq<AppendResponse>)
    returns (d: Cluster, response: AppendResponse)
    requires WellIndexed(request.entries) && n in c.nodes && peers != [] && forall p :: p in peers ==> p in c.nodes
    ensures VotesStand(c, d) && n in d.nodes && forall p :: p in peers ==> p in d.nodes
    ensures AppendRound(c, n, request, peers, responses) == AppendRound(d, n, request, peers[1..], responses + [response])
  {
    AppendRoundCons(c, n, request, peers, responses);
    hide AppendRound, ReceiveAppend, WellIndexed;
    var p := peers[0];
    var (s, answer) := ReceiveAppend(c.nodes[p], p, request);
    AppendVoteStands(c.nodes[p], p, request);
    var c1 := c.(nodes := c.nodes[p := s]);
    d, response := c1.(nodes := c1.nodes[n := Noted(c1.nodes[n], p, answer)]), answer;
  }

  lemma VotesStandStill(c: Cluster)
    ensures VotesStand(c, c)
  {
  }

  lemma VotesStandKeys(c: Cluster, d: Cluster)
    requires VotesStand(c, d)
    ensures d.nodes.Keys == c.nodes.Keys
  {
  }

  lemma VotesStandChain(c: Cluster, d: Cluster, e: Cluster)
    requires VotesStand(c, d) && VotesStand(d, e)
    ensures VotesStand(c, e)
  {
    forall n | n in c.nodes ensures VoteStands(c.nodes[n], e.nodes[n]) {
      assert VoteStands(c.nodes[n], d.nodes[n]);
    }
  }

  lemma ReplicateVotesStand(c: Cluster, n: NodeId)
    requires WellFormed(c) && n in c.nodes
    ensures VotesStand(c, ReplicateFrom(c, n).cluster)
  {
    hide AppendRound, ReachablePeers;
    AppendRoundVotesStand(c, n, AppendRequestOf(c.nodes[n], n), ReachablePeers(c, n), []);
  }

  lemma AdvanceVotesStand(c: Cluster, n: NodeId)
    requires n in c.nodes && c.nodes[n].commit <= |c.nodes[n].log|
    ensures VotesStand(c, AdvanceAt(c, n).0)
  {
    var s := c.nodes[n];
    ApplyCommittedKeepsLog(s.(commit := CommitCandidate(s, Majority(c), |s.log|)));
  }

  lemma SaneAt(c: Cluster, n: NodeId)
    requires WellFormed(c) && n in c.nodes
    ensures Sane(c.nodes[n])
  {
  }

  lemma SettleVotesStand(c: Cluster, n: NodeId)
    requires WellFormed(c) && n in c.nodes
    ensures VotesStand(c, Settle(c, n).0)
  {
    hide AdvanceAt, ReplicateFrom, WellFormed;
    SaneAt(c, n);
    AdvanceVotesStand(c, n);
    var (d, moved) := AdvanceAt(c, n);
    FrameKeepsWellFormed(c, d);
    if moved && LeaderError(d, n) == None {
      ReplicateVotesStand(d, n);
    }
  }

  lemma SubmitVotesStand(c: Cluster, n: NodeId, command: Command)
    requires WellFormed(c)
    ensures VotesStand(c, SubmitCommand(c, n, command).0)
  {
    hide Settle, ReplicateFrom, WellFormed;
    if LeaderError(c, n) == None {
      var c1 := AppendAt(c, n, command);
      FrameKeepsWellFormed(c, c1);
      var c2 := ReplicateFrom(c1, n).cluster;
      FrameKeepsWellFormed(c1, c2);
      ReplicateVotesStand(c1, n);
      SettleVotesStand(c2, n);
    }
  }

  lemma TimeoutVotesStand(c: Cluster, n: NodeId)
    requires WellFormed(c)
    ensures VotesStand(c, TriggerTimeout(c, n).0)
  {
    hide VoteRound, ReachablePeers, WellFormed;
    if IsRunning(c, n) {
      var candidate := StartElection(c.nodes[n], n);
      VoteRoundVotesStand(WithNode(c, n, candidate), n, VoteRequestOf(candidate, n), ReachablePeers(c, n), {n});
    }
  }

  /** On every call at all, clean or not. */
  lemma StepVotesStand(c: Cluster, e: Event)
    requires WellFormed(c)
    ensures VotesStand(c, Step(c, e))
  {
    hide TriggerTimeout, SubmitCommand, ReplicateFrom, WellFormed;
    match e
    case SetPartition(_) =>
    case Heal =>
    case CrashNode(_) =>
    case RestartNode(n) =>
      if n in c.nodes {
        RebuildReplays(c.nodes[n].(running := true, role := Follower, leaderId := None, matchIndex := map[]));
      }
    case TriggerTimeoutOf(n) => TimeoutVotesStand(c, n);
    case SubmitTo(n, command) => SubmitVotesStand(c, n, command);
    case ReplicateOf(n) => if LeaderError(c, n) == None { ReplicateVotesStand(c, n); }
  }

  /** Over any run, with no hypothesis on timeouts: terms never fall and each node votes at most once in a term. */
  lemma {:induction false} OneVotePerTerm(ids: seq<NodeId>, events: seq<Event>, states: seq<Cluster>, i: nat, j: nat, n: NodeId)
    requires AnyRun(ids, events, states) && i <= j <= |events| && n in states[i].nodes
    ensures n in states[j].nodes && VoteStands(states[i].nodes[n], states[j].nodes[n])
    decreases j - i
  {
    hide Step, WellFormed, VotesStand, VoteStands, Init;
    if i < j {
      assert Follows(states[i], events[i], states[i + 1]);
      StepVotesStand(states[i], events[i]);
      VotesStandAt(states[i], states[i + 1], n);
      OneVotePerTerm(ids, events, states, i + 1, j, n);
      VoteStandsIsTransitive(states[i].nodes[n], states[i + 1].nodes[n], states[j].nodes[n]);
    } else {
      VoteStandsItself(states[i].nodes[n]);
    }
  }

  lemma VotesStandAt(c: Cluster, d: Cluster, n: NodeId)
    requires VotesStand(c, d) && n in c.nodes
    ensures n in d.nodes && VoteStands(c.nodes[n], d.nodes[n])
  {
  }

  lemma VoteStandsIsTransitive(s: NodeState, t: NodeState, u: NodeState)
    requires VoteStands(s, t) && VoteStands(t, u)
    ensures VoteStands(s, u)
  {
  }

  lemma VoteStandsItself(s: NodeState)
    ensures VoteStands(s, s)
  {
  }

  // ---------- where the hypothesis is needed ----------

  /**
   * In every state a clean run reaches, a timeout reports the leadership conflict exactly when its round breaks off after
   * a majority on a peer in a term that somebody has led.
   */
  lemma ConflictExactlyAfterCleanRun(ids: seq<NodeId>, events: seq<Event>, states: seq<Cluster>, n: NodeId)
    requires CleanRun(ids, events, states) && WellFormed(states[|events|]) && IsRunning(states[|events|], n)
    ensures var c := states[|events|];
            TriggerTimeout(c, n).1 == Err(LeadershipConflict)
            <==> exists i :: 0 <= i < |ReachablePeers(c, n)| && BreaksAfterMajority(c, n, i) && c.nodes[ReachablePeers(c, n)[i]].term in c.leaderByTerm
  {
    hide Inv, TriggerTimeout, BreaksAfterMajority, WellFormed;
    var h, _ := InvAtBoth(ids, events, states, |events|, |events|);
    ConflictNeedsDirtyRound(states[|events|], h, n);
  }

  /** Every sitting leader holds its own vote in its term. */
  ghost predicate LeadersHoldTheirVote(c: Cluster) {
    forall n :: n in c.nodes && c.nodes[n].role == Leader ==> c.nodes[n].votedFor == Some(n)
  }

  /**
   * In every state a clean run reaches, a timeout leaves all leaders with their own vote exactly when its
   * round is clean: a dirty round seats a leader in a term in which it has voted for nobody.
   */
  lemma TimeoutIsSafeExactlyWhenClean(ids: seq<NodeId>, events: seq<Event>, states: seq<Cluster>, n: NodeId)
    requires CleanRun(ids, events, states) && WellFormed(states[|events|]) && IsRunning(states[|events|], n)
    ensures LeadersHoldTheirVote(TriggerTimeout(states[|events|], n).0)
            <==> CleanRound(states[|events|], n)
  {
    hide Inv, TimeoutRound, CleanRound, WellFormed, VotesOk, CommitOk, NodeOk;
    var c := states[|events|];
    var h, _ := InvAtBoth(ids, events, states, |events|, |events|);
    CleanRoundIsExact(c, n);
    if CleanRound(c, n) {
      var g := TimeoutKeepsInv(c, h, n);
      var d := TriggerTimeout(c, n).0;
      forall m | m in d.nodes && d.nodes[m].role == Leader
        ensures d.nodes[m].votedFor == Some(m)
      {
        InvAt(d, g, m);
      }
    } else {
      var d := TriggerTimeout(c, n).0;
      assert d.nodes[n].role == Leader && d.nodes[n].votedFor == None;
    }
  }
}
