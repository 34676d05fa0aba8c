/** What the concrete runs of the replicated log need. */
module RaftScenarios {
  import opened Sequences
  import opened RelayTasks
  import opened Options
  import opened RaftNode
  import opened RaftCluster

  const IDS: seq<NodeId> := [1, 2, 3]

  const TOGETHER: seq<set<NodeId>> := [{1, 2, 3}]

  function Kept(c: Cluster, n: NodeId, p: NodeId, g: set<NodeId>): seq<NodeId>
    requires p in c.nodes
  {
    if p in g && p != n && c.nodes[p].running then [p] else []
  }

  lemma PeersSnoc(c: Cluster, n: NodeId, front: seq<NodeId>, last: NodeId, g: set<NodeId>)
    requires Distinct(front) && Distinct(front + [last])
    requires last in c.nodes && forall p :: p in front ==> p in c.nodes
    ensures PeersIn(c, n, front + [last], g) == PeersIn(c, n, front, g) + Kept(c, n, last, g)
  {
    assert (front + [last])[..|front|] == front;
  }

  lemma NoneRepeats()
    ensures Distinct<NodeId>([]) && Distinct([1 as NodeId]) && Distinct([1 as NodeId, 2]) && Distinct([1 as NodeId, 2, 3])
  {
  }

  lemma PeersOfNone(c: Cluster, n: NodeId, g: set<NodeId>)
    requires Distinct<NodeId>([])
    ensures PeersIn(c, n, [], g) == []
  {
  }

  lemma PeersOfThree(c: Cluster, n: NodeId, g: set<NodeId>)
    requires 1 in c.nodes && 2 in c.nodes && 3 in c.nodes
    requires Distinct([1 as NodeId, 2, 3])
    ensures PeersIn(c, n, [1, 2, 3], g) == Kept(c, n, 1, g) + Kept(c, n, 2, g) + Kept(c, n, 3, g)
  {
    hide *;
    NoneRepeats();
    PeersOfNone(c, n, g);
    assert [] + [1] == [1] && [1] + [2] == [1, 2] && [1, 2] + [3] == [1, 2, 3];
    PeersSnoc(c, n, [], 1, g);
    PeersSnoc(c, n, [1], 2, g);
    PeersSnoc(c, n, [1, 2], 3, g);
  }

  lemma TogetherIsValid()
    ensures ValidGroups(TOGETHER, {1, 2, 3}, {})
  {
    assert TOGETHER[1..] == [] && {} + {1, 2, 3} == {1, 2, 3};
  }

  /** A round that collects a majority ends in a promotion. */
  lemma MajorityPromotes(c: Cluster, n: NodeId, peers: seq<NodeId>)
    requires WellFormed(c) && IsRunning(c, n) && ReachablePeers(c, n) == peers
    requires forall p :: p in peers ==> p in c.nodes
    ensures var candidate := StartElection(c.nodes[n], n);
            var r := VoteRound(WithNode(c, n, candidate), n, VoteRequestOf(candidate, n), peers, {n});
            r == TimeoutRound(c, n) && (|r.granted| >= Majority(c) ==> TriggerTimeout(c, n) == Promote(r.cluster, n))
  {
    hide WellFormed, Majority, VoteRound, ReachablePeers, Promote;
  }

  /** With nobody in reach a timeout only starts an election. */
  lemma AloneOnlyStarts(c: Cluster, n: NodeId)
    requires WellFormed(c) && IsRunning(c, n) && ReachablePeers(c, n) == [] && Majority(c) > 1
    ensures TriggerTimeout(c, n).0 == c.(nodes := c.nodes[n := StartElection(c.nodes[n], n)])
  {
    hide WellFormed, ReachablePeers, Majority, StartElection;
    assert |{n}| == 1;
  }

  /** A round in which no peer is in a later term than the candidate's new one cannot break off. */
  lemma NobodyAhead(c: Cluster, n: NodeId)
    requires WellFormed(c) && IsRunning(c, n) && forall p :: p in ReachablePeers(c, n) ==> c.nodes[p].term <= c.nodes[n].term + 1
    ensures CleanRound(c, n)
  {
    hide WellFormed, ReachablePeers, Granters;
  }

  lemma HealStep(c: Cluster)
    requires WellFormed(c) && c.nodes.Keys == {1, 2, 3}
    ensures Step(c, Heal) == c.(groups := TOGETHER)
  {
  }

  lemma TimeoutStep(c: Cluster, n: NodeId)
    requires WellFormed(c)
    ensures Step(c, TriggerTimeoutOf(n)) == TriggerTimeout(c, n).0
  {
    hide TriggerTimeout;
  }

  lemma {:induction false} UniqueOfDistinct(ids: seq<NodeId>)
    requires Distinct(ids)
    ensures Unique(ids) == ids
  {
    if ids != [] {
      var front, last := ids[..|ids| - 1], ids[|ids| - 1];
      UniqueOfDistinct(front);
      assert ids == front + [last];
      assert forall i :: 0 <= i < |front| ==> front[i] == ids[i];
    }
  }

  lemma SubmitStep(c: Cluster, n: NodeId, command: Command)
    requires WellFormed(c)
    ensures Step(c, SubmitTo(n, command)) == SubmitCommand(c, n, command).0
  {
    hide SubmitCommand, WellFormed;
  }

  function Voter(term: nat, candidate: NodeId): NodeState {
    INITIAL.(term := term, votedFor := Some(candidate))
  }

  /** The state of a new cluster of the three. */
  lemma InitialTrio()
    ensures Init(IDS).Ok?
    ensures var c := Init(IDS).value;
            && c.order == [1, 2, 3] && c.nodes.Keys == {1, 2, 3} && c.groups == TOGETHER && c.leaderByTerm == map[]
            && c.nodes[1] == c.nodes[2] == c.nodes[3] == INITIAL
  {
    NoneRepeats();
    UniqueOfDistinct(IDS);
    hide Unique;
    var known := set n | n in Unique(IDS);
    assert known == {1, 2, 3};
    var c := Init(IDS).value;
    assert c.groups[0] == {1, 2, 3};
    assert c.nodes.Keys == known;
    assert 1 in c.nodes && 2 in c.nodes && 3 in c.nodes;
  }
}
