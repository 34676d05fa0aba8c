/** A concrete run in which a broken-off round elects a leader and the next election reports a conflict. */
module RaftDirty {
  import opened Options
  import opened RaftNode
  import opened RaftCluster
  import opened RaftSteps
  import opened RaftScenarios

  const APART: seq<set<NodeId>> := [{1, 2}, {3}]

  /** Node 3 times out twice while cut off; healed, node 1 and then node 2 time out. */
  const EVENTS: seq<Event> := [SetPartition(APART), TriggerTimeoutOf(3), TriggerTimeoutOf(3), Heal, TriggerTimeoutOf(1), TriggerTimeoutOf(2)]

  /** Three running nodes with empty logs, under one of the two partitions used here. */
  ghost predicate Trial(c: Cluster, groups: seq<set<NodeId>>) {
    && c.order == [1, 2, 3] && c.nodes.Keys == {1, 2, 3} && c.groups == groups
    && Idle(c.nodes[1]) && Idle(c.nodes[2]) && Idle(c.nodes[3])
  }

  ghost predicate Idle(s: NodeState) {
    s.log == [] && s.commit == 0 && s.running
  }

  lemma ApartIsValid()
    ensures ValidGroups(APART, {1, 2, 3}, {})
  {
    assert APART[1..] == [{3}] && APART[1..][1..] == [];
    assert {} + {1, 2} == {1, 2} && {1, 2} + {3} == {1, 2, 3};
  }

  lemma TrialIsWellFormed(c: Cluster, groups: seq<set<NodeId>>)
    requires Trial(c, groups) && (groups == APART || groups == TOGETHER)
    ensures WellFormed(c) && Majority(c) == 2 && IsRunning(c, 1) && IsRunning(c, 2) && IsRunning(c, 3)
  {
    ApartIsValid();
    TogetherIsValid();
    hide ValidGroups;
    assert |c.nodes| == |c.nodes.Keys|;
    assert forall n :: n in c.nodes ==> n == 1 || n == 2 || n == 3;
  }

  lemma TrialPeers(c: Cluster, n: NodeId)
    requires n in c.nodes && WellFormed(c)
    ensures Trial(c, TOGETHER) ==> ReachablePeers(c, n) == PeersIn(c, n, [1, 2, 3], {1, 2, 3})
    ensures Trial(c, APART) && n == 3 ==> ReachablePeers(c, n) == PeersIn(c, n, [1, 2, 3], {3})
  {
    hide PeersIn, WellFormed;
    assert APART[1..] == [{3}];
  }

  function Voted(term: nat, candidate: NodeId, role: Role): NodeState {
    INITIAL.(term := term, votedFor := Some(candidate), role := role)
  }

  /** Cut off, node 3 only raises its own term. */
  lemma LonelyTimeout(c: Cluster)
    requires Trial(c, APART) && c.leaderByTerm == map[]
    ensures WellFormed(c)
    ensures TriggerTimeout(c, 3).0 == c.(nodes := c.nodes[3 := StartElection(c.nodes[3], 3)])
  {
    TrialIsWellFormed(c, APART);
    TrialPeers(c, 3);
    PeersOfThree(c, 3, {3});
    hide WellFormed, ReachablePeers, PeersIn, Majority, Trial;
    assert ReachablePeers(c, 3) == [];
    assert |{3}| == 1;
  }

  lemma PeersTogether(c: Cluster)
    requires Trial(c, TOGETHER) && WellFormed(c)
    ensures ReachablePeers(c, 1) == [2, 3] && ReachablePeers(c, 2) == [1, 3]
  {
    TrialPeers(c, 1);
    TrialPeers(c, 2);
    PeersOfThree(c, 1, {1, 2, 3});
    PeersOfThree(c, 2, {1, 2, 3});
    hide WellFormed, ReachablePeers, PeersIn;
  }

  /** The dirty round: node 2 grants term 1, node 3 answers from term 2, and node 1 leads term 2 without a vote in it. */
  lemma DirtyWin(c: Cluster)
    requires Trial(c, TOGETHER) && c.leaderByTerm == map[]
    requires c.nodes[1] == INITIAL && c.nodes[2] == INITIAL && c.nodes[3] == Voted(2, 3, Candidate)
    ensures WellFormed(c) && !CleanRound(c, 1)
    ensures var (d, result) := TriggerTimeout(c, 1);
            && result == Ok(Leader) && Trial(d, TOGETHER) && d.leaderByTerm == map[2 := 1]
            && d.nodes[2] == Voted(1, 1, Follower) && d.nodes[3] == Voted(2, 3, Candidate)
            && d.nodes[1].term == 2 && d.nodes[1].votedFor == None && d.nodes[1].role == Leader
  {
    TrialIsWellFormed(c, TOGETHER);
    PeersTogether(c);
    CleanRoundIsExact(c, 1);
    DirtyRound(c);
    assert |{1, 2}| == 2;
    hide WellFormed, ReachablePeers, CleanRound, VoteRound, Majority, ReceiveVote, TriggerTimeout, TimeoutRound, Promote;
    MajorityPromotes(c, 1, [2, 3]);
    DirtyPromotion(c, TimeoutRound(c, 1).cluster);
  }

  lemma DirtyPromotion(c: Cluster, e: Cluster)
    requires Trial(c, TOGETHER) && c.leaderByTerm == map[]
    requires e == c.(nodes := c.nodes[1 := ObserveHigherTerm(StartElection(INITIAL, 1), 2)][2 := Voted(1, 1, Follower)])
    ensures var (d, result) := Promote(e, 1);
            && result == Ok(Leader) && Trial(d, TOGETHER) && d.leaderByTerm == map[2 := 1]
            && d.nodes[2] == Voted(1, 1, Follower) && d.nodes[3] == c.nodes[3]
            && d.nodes[1].term == 2 && d.nodes[1].votedFor == None && d.nodes[1].role == Leader
  {
    var d := Promote(e, 1).0;
    assert d.nodes.Keys == {1, 2, 3};
  }

  lemma DirtyRound(c: Cluster)
    requires Trial(c, TOGETHER)
    requires c.nodes[1] == INITIAL && c.nodes[2] == INITIAL && c.nodes[3] == Voted(2, 3, Candidate)
    ensures var candidate := StartElection(INITIAL, 1);
            var r := VoteRound(WithNode(c, 1, candidate), 1, VoteRequestOf(candidate, 1), [2, 3], {1});
            && r.broke && r.granted == {1, 2}
            && r.cluster == c.(nodes := c.nodes[1 := ObserveHigherTerm(candidate, 2)][2 := Voted(1, 1, Follower)])
  {
    var candidate := StartElection(INITIAL, 1);
    var request := VoteRequestOf(candidate, 1);
    var c1 := WithNode(c, 1, candidate);
    var c2 := WithNode(c1, 2, Voted(1, 1, Follower));
    assert ReceiveVote(INITIAL, 2, request) == (Voted(1, 1, Follower), VoteResponse(1, 2, true));
    assert [2, 3][1..] == [3];
    assert VoteRound(c1, 1, request, [2, 3], {1}) == VoteRound(c2, 1, request, [3], {1} + {2});
    assert WithNode(c2, 3, c2.nodes[3]) == c2;
    var r := VoteRound(c2, 1, request, [3], {1} + {2});
    assert r.cluster.nodes == c.nodes[1 := ObserveHigherTerm(candidate, 2)][2 := Voted(1, 1, Follower)];
  }

  /** Node 1, leading term 2, still has its vote of term 2 and gives it to node 2. */
  lemma SecondWin(d: Cluster)
    requires Trial(d, TOGETHER) && d.leaderByTerm == map[2 := 1]
    requires d.nodes[2] == Voted(1, 1, Follower) && d.nodes[3] == Voted(2, 3, Candidate)
    requires d.nodes[1].term == 2 && d.nodes[1].votedFor == None && d.nodes[1].role == Leader
    ensures WellFormed(d) && TriggerTimeout(d, 2).1 == Err(LeadershipConflict)
  {
    hide *;
    assert |{2, 1}| == 2;
    TrialIsWellFormed(d, TOGETHER);
    PeersTogether(d);
    SecondRound(d);
    MajorityPromotes(d, 2, [1, 3]);
    ConflictingPromotion(TimeoutRound(d, 2).cluster);
  }

  lemma ConflictingPromotion(e: Cluster)
    requires 2 in e.nodes && e.nodes[2].term == 2 && e.leaderByTerm == map[2 := 1]
    ensures Promote(e, 2).1 == Err(LeadershipConflict)
  {
  }

  lemma SecondRound(d: Cluster)
    requires Trial(d, TOGETHER)
    requires d.nodes[2] == Voted(1, 1, Follower) && d.nodes[3] == Voted(2, 3, Candidate)
    requires d.nodes[1].term == 2 && d.nodes[1].votedFor == None
    ensures var candidate := StartElection(d.nodes[2], 2);
            var r := VoteRound(WithNode(d, 2, candidate), 2, VoteRequestOf(candidate, 2), [1, 3], {2});
            r.granted == {2, 1} && 2 in r.cluster.nodes && r.cluster.nodes[2].term == 2 && r.cluster.leaderByTerm == d.leaderByTerm
  {
    var candidate := StartElection(d.nodes[2], 2);
    var request := VoteRequestOf(candidate, 2);
    var d1 := WithNode(d, 2, candidate);
    var (s, response) := ReceiveVote(d.nodes[1], 1, request);
    assert response == VoteResponse(2, 1, true);
    var d2 := WithNode(d1, 1, s);
    assert [1, 3][1..] == [3] && [3][1..] == [];
    assert VoteRound(d1, 2, request, [1, 3], {2}) == VoteRound(d2, 2, request, [3], {2} + {1});
    assert ReceiveVote(d.nodes[3], 3, request) == (d.nodes[3], VoteResponse(2, 3, false));
    var d3 := WithNode(d2, 3, d.nodes[3]);
    assert VoteRound(d2, 2, request, [3], {2} + {1}) == VoteRound(d3, 2, request, [], {2} + {1});
  }

  ghost predicate DirtyTimeout(c: Cluster, n: NodeId) {
    WellFormed(c) && !CleanRound(c, n)
  }

  /** The repository's own conflict error is reachable by six public calls. */
  lemma ConflictIsReachable() returns (states: seq<Cluster>)
    ensures AnyRun(IDS, EVENTS, states)
    ensures |states| == 7 && DirtyTimeout(states[4], 1) && ReportsConflict(states[5], 2)
  {
    InitialTrio();
    hide TriggerTimeout, WellFormed, CleanRound, Init, Step;
    var c0 := Init(IDS).value;
    TrialIsWellFormed(c0, TOGETHER);
    var c1 := Step(c0, SetPartition(APART));
    SplitStep(c0);
    LonelySteps(c1);
    var c2 := Step(c1, TriggerTimeoutOf(3));
    var c3 := Step(c2, TriggerTimeoutOf(3));
    TrialIsWellFormed(c3, APART);
    var c4 := Step(c3, Heal);
    HealStep(c3);
    DirtyWin(c4);
    TimeoutStep(c4, 1);
    var c5 := Step(c4, TriggerTimeoutOf(1));
    SecondWin(c5);
    StepKeepsWellFormed(c5, TriggerTimeoutOf(2));
    states := [c0, c1, c2, c3, c4, c5, Step(c5, TriggerTimeoutOf(2))];
    forall i | 0 <= i < |EVENTS|
      ensures Follows(states[i], EVENTS[i], states[i + 1])
    {
      assert i == 0 || i == 1 || i == 2 || i == 3 || i == 4 || i == 5;
    }
  }

  lemma SplitStep(c: Cluster)
    requires WellFormed(c) && c.nodes.Keys == {1, 2, 3}
    ensures Step(c, SetPartition(APART)) == c.(groups := APART)
  {
    ApartIsValid();
    hide ValidGroups;
  }

  lemma LonelySteps(c: Cluster)
    requires Trial(c, APART) && c.leaderByTerm == map[]
    requires c.nodes[1] == c.nodes[2] == c.nodes[3] == INITIAL
    ensures WellFormed(c) && WellFormed(Step(c, TriggerTimeoutOf(3)))
    ensures var d := Step(Step(c, TriggerTimeoutOf(3)), TriggerTimeoutOf(3));
            Trial(d, APART) && d.leaderByTerm == map[] && d.nodes == c.nodes[3 := Voted(2, 3, Candidate)]
  {
    var s := StartElection(INITIAL, 3);
    var d, e := c.(nodes := c.nodes[3 := s]), c.(nodes := c.nodes[3 := StartElection(s, 3)]);
    assert d.nodes.Keys == {1, 2, 3} && e.nodes.Keys == {1, 2, 3};
    assert d.nodes[3 := StartElection(s, 3)] == e.nodes;
    LonelyTimeout(c);
    LonelyTimeout(d);
    hide WellFormed, TriggerTimeout;
    TimeoutStep(c, 3);
    TimeoutStep(d, 3);
  }
}
