/** A concrete clean run in which a node's commit index falls (lab 25). */
module RaftRegress {
  import opened Options
  import opened RelayTasks
  import opened RaftNode
  import opened RaftCluster
  import opened RaftCommits
  import opened RaftScenarios

  const CUT: seq<set<NodeId>> := [{1}, {2, 3}]

  const PAIR: seq<set<NodeId>> := [{1, 3}, {2}]

  const COMMAND := EnqueueTask("task", "queue", 0)

  const FIRST := Entry(1, 1, COMMAND)

  const SECOND := Entry(2, 1, COMMAND)

  /**
   * Node 1 leads term 1, appends alone, sends the entry to node 3 without committing, and commits it alone with its next
   * submit; node 3, elected in term 2, knows of no commit and tells node 1 so.
   */
  const EVENTS: seq<Event> := [
    TriggerTimeoutOf(1), SetPartition(CUT), SubmitTo(1, COMMAND), SetPartition(PAIR), ReplicateOf(1),
    SetPartition(CUT), SubmitTo(1, COMMAND), TriggerTimeoutOf(3), Heal, ReplicateOf(3)]

  // ---------- three running nodes ----------

  predicate Known(groups: seq<set<NodeId>>) {
    groups == TOGETHER || groups == CUT || groups == PAIR
  }

  ghost predicate Three(c: Cluster, groups: seq<set<NodeId>>) {
    && c.order == [1, 2, 3] && c.nodes.Keys == {1, 2, 3} && c.groups == groups && Known(groups)
    && Up(c.nodes[1]) && Up(c.nodes[2]) && Up(c.nodes[3])
  }

  ghost predicate Up(s: NodeState) {
    s.running && Sane(s)
  }

  lemma KnownIsValid(groups: seq<set<NodeId>>)
    requires Known(groups)
    ensures ValidGroups(groups, {1, 2, 3}, {})
  {
    TogetherIsValid();
    assert CUT[1..] == [{2, 3}] && CUT[1..][1..] == [] && {} + {1} == {1} && {1} + {2, 3} == {1, 2, 3};
    assert PAIR[1..] == [{2}] && PAIR[1..][1..] == [] && {} + {1, 3} == {1, 3} && {1, 3} + {2} == {1, 2, 3};
  }

  lemma ThreeIsWellFormed(c: Cluster, groups: seq<set<NodeId>>)
    requires Three(c, groups)
    ensures WellFormed(c) && Majority(c) == 2
  {
    KnownIsValid(groups);
    hide ValidGroups, Known, Sane;
    assert |c.nodes| == |c.nodes.Keys|;
    assert forall n :: n in c.nodes ==> n == 1 || n == 2 || n == 3;
  }

  function ReachedBy(groups: seq<set<NodeId>>, n: NodeId): set<NodeId> {
    if groups == TOGETHER then {1, 2, 3}
    else if groups == CUT then if n == 1 then {1} else {2, 3}
    else if n == 2 then {2} else {1, 3}
  }

  lemma GroupIs(groups: seq<set<NodeId>>, n: NodeId)
    requires Known(groups) && n in {1, 2, 3} && n in Covered(groups)
    ensures GroupOf(groups, n) == ReachedBy(groups, n)
  {
    assert CUT[1..] == [{2, 3}] && PAIR[1..] == [{2}];
  }

  lemma PeersAre(c: Cluster, groups: seq<set<NodeId>>, n: NodeId)
    requires Three(c, groups) && WellFormed(c) && n in c.nodes
    ensures var g := ReachedBy(groups, n);
            ReachablePeers(c, n) == (if 1 in g && n != 1 then [1] else []) + (if 2 in g && n != 2 then [2] else [])
                                    + (if 3 in g && n != 3 then [3] else [])
  {
    ValidGroupsCover(c.groups, c.nodes.Keys, {});
    GroupIs(groups, n);
    NoneRepeats();
    PeersOfThree(c, n, ReachedBy(groups, n));
    hide WellFormed, PeersIn, GroupOf, ReachedBy;
  }

  lemma Regroup(c: Cluster, groups: seq<set<NodeId>>, other: seq<set<NodeId>>)
    requires Three(c, groups) && Known(other) && WellFormed(c)
    ensures Step(c, SetPartition(other)) == c.(groups := other) && Step(c, Heal) == c.(groups := TOGETHER)
    ensures Three(c.(groups := other), other) && Three(c.(groups := TOGETHER), TOGETHER)
  {
    KnownIsValid(other);
    hide ValidGroups, Known, Sane;
  }

  // ---------- a leader alone ----------

  /** A leader after a commit step: all but what it applied is as before, with this commit index. */
  ghost predicate Leads(s: NodeState, t: NodeState, commit: nat) {
    t.log == s.log && t.term == s.term && t.role == Leader && t.running && t.matchIndex == s.matchIndex && t.commit == commit
  }

  lemma LonelyReplicate(c: Cluster, n: NodeId)
    requires WellFormed(c) && n in c.nodes && ReachablePeers(c, n) == []
    requires n in c.nodes[n].matchIndex && c.nodes[n].matchIndex[n] == |c.nodes[n].log|
    ensures ReplicateFrom(c, n).cluster == c
  {
    var s := c.nodes[n];
    assert WellIndexed(s.log);
    assert s.matchIndex[n := |s.log|] == s.matchIndex;
    hide WellFormed, ReachablePeers;
    AppendRoundNil(c, n, AppendRequestOf(s, n), []);
    assert c.nodes[n := s] == c.nodes;
  }

  lemma LonelySettle(c: Cluster, n: NodeId)
    requires WellFormed(c) && n in c.nodes && ReachablePeers(c, n) == [] && c.nodes[n].running && c.nodes[n].role == Leader
    requires n in c.nodes[n].matchIndex && c.nodes[n].matchIndex[n] == |c.nodes[n].log| && c.nodes[n].commit <= |c.nodes[n].log|
    ensures var s, d := c.nodes[n], Settle(c, n).0;
            n in d.nodes && d == c.(nodes := c.nodes[n := d.nodes[n]]) && Leads(s, d.nodes[n], CommitCandidate(s, Majority(c), |s.log|))
  {
    var (d, moved) := AdvanceAt(c, n);
    FrameKeepsWellFormed(c, d);
    hide *;
    AdvancedSender(c, n);
    SamePeers(c, d, n);
    SettleParts(c, n, d, moved);
    LonelyReplicate(d, n);
    LeadsIntro(c.nodes[n], d.nodes[n]);
  }

  lemma LeadsIntro(s: NodeState, t: NodeState)
    requires t.log == s.log && t.term == s.term && t.role == Leader && t.running && t.matchIndex == s.matchIndex
    ensures Leads(s, t, t.commit)
  {
  }

  /** With nobody in reach a submit only appends, and commits what enough nodes are known to hold. */
  lemma LonelySubmit(c: Cluster, n: NodeId, command: Command)
    requires WellFormed(c) && LeaderError(c, n) == None && ReachablePeers(c, n) == []
    ensures n in c.nodes && AppendLocal(c.nodes[n], n, command).commit <= |AppendLocal(c.nodes[n], n, command).log|
    ensures var s := AppendLocal(c.nodes[n], n, command);
            var d := SubmitCommand(c, n, command).0;
            n in d.nodes && d == c.(nodes := c.nodes[n := d.nodes[n]]) && Leads(s, d.nodes[n], CommitCandidate(s, Majority(c), |s.log|))
  {
    hide *;
    AppendsAlone(c, n, command);
    var c1 := AppendAt(c, n, command);
    SentOnceIs(c, n, command);
    SubmitParts(c, n, command);
    LonelyReplicate(c1, n);
    LonelySettle(c1, n);
  }

  // ---------- the steps of the run ----------

  /** Node 1's state while it leads: its log, its commit index, and what it knows node 3 to hold. */
  ghost predicate LeaderOne(s: NodeState, log: seq<Entry>, commit: nat, third: nat) {
    && s.term == 1 && s.role == Leader && s.running && s.log == log && s.commit == commit
    && s.matchIndex == map[1 := |log|, 2 := 0, 3 := third]
  }

  ghost predicate Stage(c: Cluster, groups: seq<set<NodeId>>, log: seq<Entry>, commit: nat, third: nat) {
    Three(c, groups) && LeaderOne(c.nodes[1], log, commit, third) && c.nodes[2] == Voter(1, 1) && c.leaderByTerm == map[1 := 1]
  }

  /** Node 1 wins the first election with all votes. */
  lemma FirstElection(c: Cluster)
    requires Three(c, TOGETHER) && c.leaderByTerm == map[] && c.nodes[1] == c.nodes[2] == c.nodes[3] == INITIAL
    ensures WellFormed(c) && CleanRound(c, 1)
    ensures var d := TriggerTimeout(c, 1).0; Stage(d, TOGETHER, [], 0, 0) && d.nodes[3] == Voter(1, 1)
  {
    hide *;
    FreshThree(c);
    NobodyAhead(c, 1);
    FirstRound(c);
    MajorityPromotes(c, 1, [2, 3]);
    assert |{1 as NodeId, 2, 3}| == 3;
    FirstPromotion(TimeoutRound(c, 1).cluster);
  }

  lemma FreshThree(c: Cluster)
    requires Three(c, TOGETHER) && c.leaderByTerm == map[] && c.nodes[1] == c.nodes[2] == c.nodes[3] == INITIAL
    ensures WellFormed(c) && Majority(c) == 2 && IsRunning(c, 1) && ReachablePeers(c, 1) == [2, 3]
    ensures forall p :: p in ReachablePeers(c, 1) ==> p in c.nodes && c.nodes[p].term <= c.nodes[1].term + 1
    ensures c.order == [1, 2, 3] && c.nodes.Keys == {1, 2, 3} && c.groups == TOGETHER
  {
    ThreeIsWellFormed(c, TOGETHER);
    FirstHears(c);
    hide WellFormed, ReachablePeers, Majority, Known, Sane, INITIAL;
  }

  lemma FirstHears(c: Cluster)
    requires Three(c, TOGETHER) && WellFormed(c)
    ensures ReachablePeers(c, 1) == [2, 3]
  {
    PeersAre(c, TOGETHER, 1);
    hide WellFormed, ReachablePeers, Three;
  }

  lemma FirstRound(c: Cluster)
    requires Three(c, TOGETHER) && c.nodes[1] == c.nodes[2] == c.nodes[3] == INITIAL
    ensures var candidate := StartElection(INITIAL, 1);
            var r := VoteRound(WithNode(c, 1, candidate), 1, VoteRequestOf(candidate, 1), [2, 3], {1});
            r.granted == {1, 2, 3} && r.cluster == c.(nodes := c.nodes[1 := candidate][2 := Voter(1, 1)][3 := Voter(1, 1)])
  {
    var candidate := StartElection(INITIAL, 1);
    var request := VoteRequestOf(candidate, 1);
    var c1 := WithNode(c, 1, candidate);
    var c2 := c1.(nodes := c1.nodes[2 := Voter(1, 1)]);
    var c3 := c2.(nodes := c2.nodes[3 := Voter(1, 1)]);
    assert ReceiveVote(INITIAL, 2, request) == (Voter(1, 1), VoteResponse(1, 2, true));
    assert ReceiveVote(INITIAL, 3, request) == (Voter(1, 1), VoteResponse(1, 3, true));
    hide ReceiveVote, VoteRound, Three;
    assert [2, 3][1..] == [3] && [3][1..] == [];
    assert {1} + {2} + {3} == {1, 2, 3};
    VoteRoundCons(c1, 1, request, [2, 3], {1});
    VoteRoundCons(c2, 1, request, [3], {1} + {2});
    VoteRoundNil(c3, 1, request, {1} + {2} + {3});
  }

  lemma FirstPromotion(e: Cluster)
    requires e.order == [1, 2, 3] && e.nodes.Keys == {1, 2, 3} && e.groups == TOGETHER && e.leaderByTerm == map[]
    requires e.nodes[1] == StartElection(INITIAL, 1) && e.nodes[2] == e.nodes[3] == Voter(1, 1)
    ensures var d := Promote(e, 1).0; Stage(d, TOGETHER, [], 0, 0) && d.nodes[3] == Voter(1, 1)
  {
  }

  lemma StageFacts(c: Cluster, groups: seq<set<NodeId>>, log: seq<Entry>, commit: nat, third: nat)
    requires Stage(c, groups, log, commit, third)
    ensures WellFormed(c) && Majority(c) == 2 && LeaderError(c, 1) == None
    ensures groups == CUT ==> ReachablePeers(c, 1) == []
    ensures groups == PAIR ==> ReachablePeers(c, 1) == [3]
  {
    ThreeIsWellFormed(c, groups);
    PeersAre(c, groups, 1);
    hide WellFormed, ReachablePeers, Sane;
  }

  lemma StageRegroups(c: Cluster, groups: seq<set<NodeId>>, other: seq<set<NodeId>>, log: seq<Entry>, commit: nat, third: nat)
    requires Stage(c, groups, log, commit, third) && Known(other)
    ensures WellFormed(c) && Step(c, SetPartition(other)) == c.(groups := other)
    ensures Stage(c.(groups := other), other, log, commit, third)
  {
    StageFacts(c, groups, log, commit, third);
    hide WellFormed, LeaderOne;
    Regroup(c, groups, other);
  }

  /** Alone, node 1 appends: with `third` entries known at node 3, it commits that many. */
  lemma AppendAlone(c: Cluster, log: seq<Entry>, third: nat)
    requires Stage(c, CUT, log, 0, third) && |log| == third <= 1 && forall i :: 0 <= i < |log| ==> log[i].term == 1
    ensures WellFormed(c)
    ensures var d := Step(c, SubmitTo(1, COMMAND));
            Stage(d, CUT, log + [Entry(|log| + 1, 1, COMMAND)], third, third) && d.nodes[3] == c.nodes[3]
  {
    hide *;
    StageFacts(c, CUT, log, 0, third);
    StageOne(c, CUT, log, 0, third);
    AppendedOne(c.nodes[1], log, third);
    LonelySubmit(c, 1, COMMAND);
    SubmitStep(c, 1, COMMAND);
    StageMoves(c, SubmitCommand(c, 1, COMMAND).0, log, third, AppendLocal(c.nodes[1], 1, COMMAND));
  }

  lemma StageOne(c: Cluster, groups: seq<set<NodeId>>, log: seq<Entry>, commit: nat, third: nat)
    requires Stage(c, groups, log, commit, third)
    ensures 1 in c.nodes && LeaderOne(c.nodes[1], log, commit, third) && Sane(c.nodes[1]) && (groups == CUT ==> c.groups == CUT)
  {
    hide Sane;
  }

  lemma AppendedOne(s: NodeState, log: seq<Entry>, third: nat)
    requires LeaderOne(s, log, 0, third) && Sane(s) && |log| == third <= 1 && forall i :: 0 <= i < |log| ==> log[i].term == 1
    ensures var t := AppendLocal(s, 1, COMMAND);
            && LeaderOne(t, log + [Entry(|log| + 1, 1, COMMAND)], 0, third) && WellIndexed(t.log)
            && |t.log| == |log| + 1 && CommitCandidate(t, 2, |t.log|) == third
  {
    var t := AppendLocal(s, 1, COMMAND);
    assert LeaderOne(t, log + [Entry(|log| + 1, 1, COMMAND)], 0, third);
    hide CommitCandidate;
    CountsHolders(t, |log| + 1, third);
  }

  lemma StageMoves(c: Cluster, d: Cluster, log: seq<Entry>, third: nat, s: NodeState)
    requires Stage(c, CUT, log, 0, third) && 1 in d.nodes && d == c.(nodes := c.nodes[1 := d.nodes[1]])
    requires LeaderOne(s, log + [Entry(|log| + 1, 1, COMMAND)], 0, third) && WellIndexed(s.log) && |s.log| == |log| + 1 && |log| == third
    requires Leads(s, d.nodes[1], third)
    ensures Stage(d, CUT, log + [Entry(|log| + 1, 1, COMMAND)], third, third) && d.nodes[3] == c.nodes[3]
  {
    LeadsSanely(s, d.nodes[1], third);
    hide Known, Sane, WellIndexed;
    assert d.nodes.Keys == {1, 2, 3};
  }

  lemma LeadsSanely(s: NodeState, t: NodeState, commit: nat)
    requires Leads(s, t, commit) && WellIndexed(s.log) && commit <= |s.log|
    ensures Sane(t)
  {
  }

  /** Two of three nodes hold what node 3 is known to hold, and only the leader holds more. */
  lemma CountsHolders(s: NodeState, length: nat, third: nat)
    requires s.term == 1 && |s.log| == length && s.commit == 0 && s.matchIndex == map[1 := length, 2 := 0, 3 := third]
    requires third + 1 == length <= 2 && forall i :: 0 <= i < length ==> s.log[i].term == 1
    ensures CommitCandidate(s, 2, length) == third
  {
    assert Holders(s, length) == {1};
    assert |{1 as NodeId}| == 1 && |{1 as NodeId, 3}| == 2;
    assert CommitCandidate(s, 2, length) == CommitCandidate(s, 2, length - 1);
    if third == 1 {
      assert Holders(s, 1) == {1, 3};
    }
  }

  /** Node 1 sends its entry to node 3, which keeps it without a commit. */
  lemma SendToThird(c: Cluster)
    requires Stage(c, PAIR, [FIRST], 0, 0) && c.nodes[3] == Voter(1, 1)
    ensures WellFormed(c)
    ensures var d := Step(c, ReplicateOf(1));
            Stage(d, PAIR, [FIRST], 0, 1) && d.nodes[3] == THIRD
  {
    hide *;
    StageFacts(c, PAIR, [FIRST], 0, 0);
    SendRound(c);
    ReplicateParts(c, 1, AppendRequestOf(c.nodes[1], 1), [3]);
    StageSent(c, AppendRound(c, 1, AppendRequestOf(c.nodes[1], 1), [3], []).cluster, Step(c, ReplicateOf(1)));
  }

  /** Node 3 with the first entry, in term 1. */
  const THIRD: NodeState := Voter(1, 1).(log := [FIRST], leaderId := Some(1))

  lemma ThirdAccepts(s: NodeState)
    requires LeaderOne(s, [FIRST], 0, 0)
    ensures ReceiveAppend(Voter(1, 1), 3, AppendRequestOf(s, 1)) == (THIRD, AppendResponse(1, 3, true, 1))
    ensures WellIndexed(AppendRequestOf(s, 1).entries)
  {
  }

  lemma SendRound(c: Cluster)
    requires Stage(c, PAIR, [FIRST], 0, 0) && c.nodes[3] == Voter(1, 1)
    ensures 1 in c.nodes && 3 in c.nodes && WellIndexed(AppendRequestOf(c.nodes[1], 1).entries)
    ensures AppendRound(c, 1, AppendRequestOf(c.nodes[1], 1), [3], []).cluster
            == c.(nodes := c.nodes[3 := THIRD][1 := c.nodes[1].(matchIndex := c.nodes[1].matchIndex[3 := 1])])
  {
    var q := AppendRequestOf(c.nodes[1], 1);
    ThirdAccepts(c.nodes[1]);
    hide AppendRound, ReceiveAppend, WellIndexed, THIRD, Three;
    assert [3 as NodeId][1..] == [];
    AppendRoundCons(c, 1, q, [3], []);
    AppendRoundNil(c.(nodes := c.nodes[3 := THIRD][1 := c.nodes[1].(matchIndex := c.nodes[1].matchIndex[3 := 1])]), 1, q,
                   [] + [AppendResponse(1, 3, true, 1)]);
  }

  /** A leader's replication is a round among the peers in reach, and a note that it holds its own log. */
  lemma ReplicateParts(c: Cluster, n: NodeId, q: AppendRequest, peers: seq<NodeId>)
    requires WellFormed(c) && n in c.nodes && LeaderError(c, n) == None
    requires q == AppendRequestOf(c.nodes[n], n) && WellIndexed(q.entries)
    requires peers == ReachablePeers(c, n) && forall p :: p in peers ==> p in c.nodes
    ensures var d := AppendRound(c, n, q, peers, []).cluster;
            Step(c, ReplicateOf(n)) == WithNode(d, n, d.nodes[n].(matchIndex := d.nodes[n].matchIndex[n := LastPosition(d.nodes[n].log).index]))
  {
    hide WellFormed, ReachablePeers, AppendRound, WellIndexed;
  }

  lemma StageSent(c: Cluster, d: Cluster, e: Cluster)
    requires Stage(c, PAIR, [FIRST], 0, 0)
    requires d == c.(nodes := c.nodes[3 := THIRD][1 := c.nodes[1].(matchIndex := c.nodes[1].matchIndex[3 := 1])])
    requires e == WithNode(d, 1, d.nodes[1].(matchIndex := d.nodes[1].matchIndex[1 := LastPosition(d.nodes[1].log).index]))
    ensures Stage(e, PAIR, [FIRST], 0, 1) && e.nodes[3] == THIRD
  {
    hide Known;
    assert e.nodes.Keys == {1, 2, 3};
  }

  /** Node 3, cut off with node 2, wins term 2 in a clean round. */
  lemma SecondElection(c: Cluster)
    requires Stage(c, CUT, [FIRST, SECOND], 1, 1) && c.nodes[3] == THIRD
    ensures WellFormed(c) && CleanRound(c, 3)
    ensures var d := TriggerTimeout(c, 3).0;
            && Three(d, CUT) && d.nodes[1] == c.nodes[1]
            && d.nodes[3].term == 2 && d.nodes[3].role == Leader && d.nodes[3].commit == 0
  {
    hide *;
    ThirdFacts(c);
    NobodyAhead(c, 3);
    SecondRound(c);
    MajorityPromotes(c, 3, [2]);
    assert |{3 as NodeId, 2}| == 2;
    SecondPromotion(c, TimeoutRound(c, 3).cluster);
  }

  lemma ThirdFacts(c: Cluster)
    requires Stage(c, CUT, [FIRST, SECOND], 1, 1) && c.nodes[3] == THIRD
    ensures WellFormed(c) && Majority(c) == 2 && IsRunning(c, 3) && 3 in c.nodes && ReachablePeers(c, 3) == [2]
    ensures forall p :: p in ReachablePeers(c, 3) ==> p in c.nodes && c.nodes[p].term <= c.nodes[3].term + 1
    ensures Three(c, CUT) && c.nodes[2] == Voter(1, 1) && c.leaderByTerm == map[1 := 1]
  {
    ThreeIsWellFormed(c, CUT);
    PeersAre(c, CUT, 3);
    assert ReachablePeers(c, 3) == [2];
    hide WellFormed, ReachablePeers, Sane;
  }

  lemma SecondRound(c: Cluster)
    requires Three(c, CUT) && c.nodes[2] == Voter(1, 1) && c.nodes[3] == THIRD
    ensures var candidate := StartElection(c.nodes[3], 3);
            var r := VoteRound(WithNode(c, 3, candidate), 3, VoteRequestOf(candidate, 3), [2], {3});
            r.granted == {3, 2} && r.cluster == c.(nodes := c.nodes[3 := candidate][2 := Voter(2, 3)])
  {
    var candidate := StartElection(c.nodes[3], 3);
    var request := VoteRequestOf(candidate, 3);
    var c1 := WithNode(c, 3, candidate);
    var c2 := c1.(nodes := c1.nodes[2 := Voter(2, 3)]);
    assert ReceiveVote(Voter(1, 1), 2, request) == (Voter(2, 3), VoteResponse(2, 2, true));
    hide ReceiveVote, VoteRound, Three;
    assert [2 as NodeId][1..] == [];
    VoteRoundCons(c1, 3, request, [2], {3});
    VoteRoundNil(c2, 3, request, {3} + {2});
  }

  lemma SecondPromotion(c: Cluster, e: Cluster)
    requires Three(c, CUT) && c.nodes[3] == THIRD && c.leaderByTerm == map[1 := 1]
    requires e == c.(nodes := c.nodes[3 := StartElection(c.nodes[3], 3)][2 := Voter(2, 3)])
    ensures var d := Promote(e, 3).0;
            && Three(d, CUT) && d.nodes[1] == c.nodes[1]
            && d.nodes[3].term == 2 && d.nodes[3].role == Leader && d.nodes[3].commit == 0
  {
    var d := Promote(e, 3).0;
    assert d.nodes.Keys == {1, 2, 3};
  }

  /** Healed, node 3's first replication takes node 1's commit index from one to zero. */
  lemma CommitFalls(c: Cluster)
    requires Three(c, TOGETHER) && c.nodes[1].term == 1 && c.nodes[1].commit == 1
    requires c.nodes[3].term == 2 && c.nodes[3].role == Leader && c.nodes[3].commit == 0
    ensures WellFormed(c) && 1 in c.nodes && 1 in Step(c, ReplicateOf(3)).nodes
    ensures Step(c, ReplicateOf(3)).nodes[1].commit < c.nodes[1].commit
  {
    hide *;
    WillFall(c);
    StepCommitFallsExactly(c, ReplicateOf(3), 1);
  }

  lemma WillFall(c: Cluster)
    requires Three(c, TOGETHER) && c.nodes[1].term == 1 && c.nodes[1].commit == 1
    requires c.nodes[3].term == 2 && c.nodes[3].role == Leader && c.nodes[3].commit == 0
    ensures WellFormed(c) && 1 in c.nodes && CommitWillFall(c, ReplicateOf(3), 1)
  {
    ThreeIsWellFormed(c, TOGETHER);
    EverybodyHears(c);
    hide WellFormed, ReachablePeers, Sane, Known;
  }

  lemma EverybodyHears(c: Cluster)
    requires Three(c, TOGETHER) && WellFormed(c)
    ensures ReachablePeers(c, 3) == [1, 2]
  {
    hide *;
    ThirdIsNode(c);
    PeersAre(c, TOGETHER, 3);
    assert ReachedBy(TOGETHER, 3) == {1, 2, 3} by { TogetherReaches(); }
  }

  lemma ThirdIsNode(c: Cluster)
    requires Three(c, TOGETHER)
    ensures 3 in c.nodes
  {
  }

  lemma TogetherReaches()
    ensures ReachedBy(TOGETHER, 3) == {1, 2, 3}
  {
  }

  /** In a run whose timeouts are all clean, a committed index of a node is forgotten again. */
  lemma CommitRegresses() returns (states: seq<Cluster>)
    ensures CleanRun(IDS, EVENTS, states)
    ensures |states| == 11 && 1 in states[9].nodes && 1 in states[10].nodes
    ensures states[10].nodes[1].commit < states[9].nodes[1].commit
  {
    InitialTrio();
    hide TriggerTimeout, WellFormed, CleanRound, Init, Step, Stage, Three, Known;
    var c0 := Init(IDS).value;
    InitialThree(c0);
    FirstElection(c0);
    TimeoutStep(c0, 1);
    var c1 := Step(c0, TriggerTimeoutOf(1));
    KnownCuts();
    StageRegroups(c1, TOGETHER, CUT, [], 0, 0);
    var c2 := Step(c1, SetPartition(CUT));
    AppendAlone(c2, [], 0);
    var c3 := Step(c2, SubmitTo(1, COMMAND));
    assert [] + [Entry(1, 1, COMMAND)] == [FIRST];
    StageRegroups(c3, CUT, PAIR, [FIRST], 0, 0);
    var c4 := Step(c3, SetPartition(PAIR));
    SendToThird(c4);
    var c5 := Step(c4, ReplicateOf(1));
    StageRegroups(c5, PAIR, CUT, [FIRST], 0, 1);
    var c6 := Step(c5, SetPartition(CUT));
    AppendAlone(c6, [FIRST], 1);
    var c7 := Step(c6, SubmitTo(1, COMMAND));
    assert [FIRST] + [Entry(2, 1, COMMAND)] == [FIRST, SECOND];
    LeaderOfStage(c7, CUT, [FIRST, SECOND], 1, 1);
    SecondElection(c7);
    TimeoutStep(c7, 3);
    var c8 := Step(c7, TriggerTimeoutOf(3));
    HealThree(c8);
    var c9 := Step(c8, Heal);
    CommitFalls(c9);
    states := [c0, c1, c2, c3, c4, c5, c6, c7, c8, c9, Step(c9, ReplicateOf(3))];
    forall i | 0 <= i < |EVENTS|
      ensures FollowsCleanly(states[i], EVENTS[i], states[i + 1])
    {
      assert i == 0 || i == 1 || i == 2 || i == 3 || i == 4 || i == 5 || i == 6 || i == 7 || i == 8 || i == 9;
    }
  }

  lemma KnownCuts()
    ensures Known(CUT) && Known(PAIR)
  {
  }

  lemma InitialThree(c: Cluster)
    requires c.order == [1, 2, 3] && c.nodes.Keys == {1, 2, 3} && c.groups == TOGETHER
    requires c.nodes[1] == c.nodes[2] == c.nodes[3] == INITIAL
    ensures Three(c, TOGETHER)
  {
  }

  lemma LeaderOfStage(c: Cluster, groups: seq<set<NodeId>>, log: seq<Entry>, commit: nat, third: nat)
    requires Stage(c, groups, log, commit, third)
    ensures 1 in c.nodes && c.nodes[1].term == 1 && c.nodes[1].commit == commit
  {
  }

  lemma HealThree(c: Cluster)
    requires Three(c, CUT)
    ensures WellFormed(c) && Step(c, Heal) == c.(groups := TOGETHER) && Three(c.(groups := TOGETHER), TOGETHER)
  {
    ThreeIsWellFormed(c, CUT);
    hide WellFormed;
    Regroup(c, CUT, CUT);
  }
}
