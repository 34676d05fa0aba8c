/** A concrete run in which a dirty round ends with two nodes committing different commands at one index (lab 25). */
module RaftFork {
  import opened Options
  import opened Sequences
  import opened RelayTasks
  import opened RaftNode
  import opened RaftCluster
  import opened RaftProgress
  import opened RaftScenarios

  const FIVE: seq<NodeId> := [1, 2, 3, 4, 5]

  const WHOLE: seq<set<NodeId>> := [{1, 2, 3, 4, 5}]

  const MOST: seq<set<NodeId>> := [{1, 2, 3, 4}, {5}]

  const LATE: seq<set<NodeId>> := [{2, 3, 4}, {1, 5}]

  const EARLY: seq<set<NodeId>> := [{1, 3, 4}, {2, 5}]

  const THIS := EnqueueTask("this", "queue", 0)

  const THAT := EnqueueTask("that", "queue", 0)

  /**
   * Cut off, node 5 raises its term to 3. Healed, node 1 collects votes of term 1 and meets node 5: it leads term 3 with no
   * vote in it. So nodes 2, 3 and 4 are free to elect node 2 in term 2, and it commits; then node 1 commits too.
   */
  const EVENTS: seq<Event> := [
    SetPartition(MOST), TriggerTimeoutOf(5), TriggerTimeoutOf(5), TriggerTimeoutOf(5), Heal, TriggerTimeoutOf(1),
    SetPartition(LATE), TriggerTimeoutOf(2), SubmitTo(2, THIS), SetPartition(EARLY), SubmitTo(1, THAT)]

  // ---------- five running nodes ----------

  predicate Known(groups: seq<set<NodeId>>) {
    groups == WHOLE || groups == MOST || groups == LATE || groups == EARLY
  }

  ghost predicate Five(c: Cluster, groups: seq<set<NodeId>>) {
    && c.order == FIVE && c.nodes.Keys == {1, 2, 3, 4, 5} && c.groups == groups && Known(groups)
    && forall n :: n in c.nodes ==> Up(c.nodes[n])
  }

  ghost predicate Up(s: NodeState) {
    s.running && Sane(s)
  }

  lemma KnownIsValid(groups: seq<set<NodeId>>)
    requires Known(groups)
    ensures ValidGroups(groups, {1, 2, 3, 4, 5}, {})
  {
    assert WHOLE[1..] == [] && {} + {1, 2, 3, 4, 5} == {1, 2, 3, 4, 5};
    assert MOST[1..] == [{5}] && MOST[1..][1..] == [] && {} + {1, 2, 3, 4} == {1, 2, 3, 4} && {1, 2, 3, 4} + {5} == {1, 2, 3, 4, 5};
    assert LATE[1..] == [{1, 5}] && LATE[1..][1..] == [] && {} + {2, 3, 4} == {2, 3, 4} && {2, 3, 4} + {1, 5} == {1, 2, 3, 4, 5};
    assert EARLY[1..] == [{2, 5}] && EARLY[1..][1..] == [] && {} + {1, 3, 4} == {1, 3, 4} && {1, 3, 4} + {2, 5} == {1, 2, 3, 4, 5};
  }

  lemma FiveIsWellFormed(c: Cluster, groups: seq<set<NodeId>>)
    requires Five(c, groups)
    ensures WellFormed(c) && Majority(c) == 3
  {
    hide *;
    FiveSane(c, groups);
    KnownIsValid(groups);
    FiveNodes(c, groups);
    FiveDistinct();
    WellFormedIntro(c);
    FiveMakeThree(c);
  }

  lemma FiveSane(c: Cluster, groups: seq<set<NodeId>>)
    requires Five(c, groups)
    ensures Known(groups) && forall n :: n in c.nodes ==> Sane(c.nodes[n])
  {
    hide Known, Sane;
  }

  lemma WellFormedIntro(c: Cluster)
    requires c.order == FIVE && Distinct([1 as NodeId, 2, 3, 4, 5]) && c.nodes.Keys == {1, 2, 3, 4, 5}
    requires ValidGroups(c.groups, {1, 2, 3, 4, 5}, {}) && forall n :: n in c.nodes ==> Sane(c.nodes[n])
    ensures WellFormed(c)
  {
    hide ValidGroups, Sane, Distinct;
    assert forall n :: n in FIVE <==> n in {1, 2, 3, 4, 5};
  }

  lemma FiveMakeThree(c: Cluster)
    requires c.nodes.Keys == {1, 2, 3, 4, 5}
    ensures Majority(c) == 3
  {
    assert |c.nodes.Keys| == 5;
  }

  function ReachedBy(groups: seq<set<NodeId>>, n: NodeId): set<NodeId> {
    if groups == WHOLE then {1, 2, 3, 4, 5}
    else if groups == MOST then if n == 5 then {5} else {1, 2, 3, 4}
    else if groups == LATE then if n == 1 || n == 5 then {1, 5} else {2, 3, 4}
    else if n == 2 || n == 5 then {2, 5} else {1, 3, 4}
  }

  lemma GroupIs(groups: seq<set<NodeId>>, n: NodeId)
    requires Known(groups) && n in {1, 2, 3, 4, 5} && n in Covered(groups)
    ensures GroupOf(groups, n) == ReachedBy(groups, n)
  {
    assert MOST[1..] == [{5}] && LATE[1..] == [{1, 5}] && EARLY[1..] == [{2, 5}];
  }

  lemma FiveDistinct()
    ensures Distinct([1 as NodeId, 2, 3, 4]) && Distinct([1 as NodeId, 2, 3, 4, 5])
  {
  }

  lemma PeersOfFive(c: Cluster, n: NodeId, g: set<NodeId>)
    requires c.nodes.Keys == {1, 2, 3, 4, 5} && Distinct([1 as NodeId, 2, 3, 4, 5])
    ensures PeersIn(c, n, [1, 2, 3, 4, 5], g)
            == Kept(c, n, 1, g) + Kept(c, n, 2, g) + Kept(c, n, 3, g) + Kept(c, n, 4, g) + Kept(c, n, 5, g)
  {
    assert 1 in c.nodes && 2 in c.nodes && 3 in c.nodes && 4 in c.nodes && 5 in c.nodes;
    hide *;
    NoneRepeats();
    FiveDistinct();
    PeersOfThree(c, n, g);
    assert [1, 2, 3] + [4] == [1, 2, 3, 4] && [1, 2, 3, 4] + [5] == [1, 2, 3, 4, 5];
    PeersSnoc(c, n, [1, 2, 3], 4, g);
    PeersSnoc(c, n, [1, 2, 3, 4], 5, g);
  }

  lemma PeersAre(c: Cluster, groups: seq<set<NodeId>>, n: NodeId)
    requires Five(c, groups) && WellFormed(c) && n in c.nodes
    ensures var g := ReachedBy(groups, n);
            ReachablePeers(c, n) == (if 1 in g && n != 1 then [1] else []) + (if 2 in g && n != 2 then [2] else [])
                                    + (if 3 in g && n != 3 then [3] else []) + (if 4 in g && n != 4 then [4] else [])
                                    + (if 5 in g && n != 5 then [5] else [])
  {
    ValidGroupsCover(c.groups, c.nodes.Keys, {});
    GroupIs(groups, n);
    FiveDistinct();
    PeersOfFive(c, n, ReachedBy(groups, n));
    hide WellFormed, PeersIn, GroupOf, ReachedBy, Known, Sane;
  }

  lemma Situations()
    ensures ReachedBy(MOST, 5) == {5} && ReachedBy(WHOLE, 1) == {1, 2, 3, 4, 5}
    ensures ReachedBy(LATE, 2) == {2, 3, 4} && ReachedBy(EARLY, 1) == {1, 3, 4}
  {
    GroupsDiffer();
  }

  lemma MostPeers(c: Cluster)
    requires Five(c, MOST) && WellFormed(c)
    ensures 5 in c.nodes && ReachablePeers(c, 5) == []
  {
    hide *;
    FiveNodes(c, MOST);
    Situations();
    PeersAre(c, MOST, 5);
  }

  lemma WholePeers(c: Cluster)
    requires Five(c, WHOLE) && WellFormed(c)
    ensures 1 in c.nodes && ReachablePeers(c, 1) == [2, 3, 4] + [5]
  {
    hide *;
    FiveNodes(c, WHOLE);
    Situations();
    PeersAre(c, WHOLE, 1);
    assert [2, 3, 4] + [5] == [2] + [3] + [4] + [5];
  }

  lemma LatePeers(c: Cluster)
    requires Five(c, LATE) && WellFormed(c)
    ensures 2 in c.nodes && ReachablePeers(c, 2) == [3, 4]
  {
    hide *;
    FiveNodes(c, LATE);
    Situations();
    PeersAre(c, LATE, 2);
    assert [3, 4] == [3] + [4];
  }

  lemma EarlyPeers(c: Cluster)
    requires Five(c, EARLY) && WellFormed(c)
    ensures 1 in c.nodes && ReachablePeers(c, 1) == [3, 4]
  {
    hide *;
    FiveNodes(c, EARLY);
    Situations();
    PeersAre(c, EARLY, 1);
    assert [3, 4] == [3] + [4];
  }

  /** The peers in the four situations of the run. */
  lemma PeersInShort(c: Cluster, groups: seq<set<NodeId>>)
    requires Five(c, groups) && WellFormed(c)
    ensures 1 in c.nodes && 2 in c.nodes && 5 in c.nodes
    ensures groups == MOST ==> ReachablePeers(c, 5) == []
    ensures groups == WHOLE ==> ReachablePeers(c, 1) == [2, 3, 4] + [5]
    ensures groups == LATE ==> ReachablePeers(c, 2) == [3, 4]
    ensures groups == EARLY ==> ReachablePeers(c, 1) == [3, 4]
  {
    hide *;
    FiveNodes(c, groups);
    if groups == MOST { MostPeers(c); }
    if groups == WHOLE { WholePeers(c); }
    if groups == LATE { LatePeers(c); }
    if groups == EARLY { EarlyPeers(c); }
  }

  lemma GroupsDiffer()
    ensures MOST != WHOLE && LATE != WHOLE && EARLY != WHOLE && LATE != MOST && EARLY != MOST && LATE != EARLY
  {
    assert 2 in LATE[0] && 1 !in LATE[0] && 2 !in EARLY[0] && 1 in EARLY[0] && 1 in MOST[0] && 2 in MOST[0];
    assert |WHOLE| == 1 && |MOST| == 2;
  }

  lemma FiveNodes(c: Cluster, groups: seq<set<NodeId>>)
    requires Five(c, groups)
    ensures c.nodes.Keys == {1, 2, 3, 4, 5} && 1 in c.nodes && 2 in c.nodes && 3 in c.nodes && 4 in c.nodes && 5 in c.nodes
    ensures c.order == FIVE && c.groups == groups
  {
  }

  lemma Regroup(c: Cluster, groups: seq<set<NodeId>>, other: seq<set<NodeId>>)
    requires Five(c, groups) && Known(other) && WellFormed(c)
    ensures Step(c, SetPartition(other)) == c.(groups := other) && Step(c, Heal) == c.(groups := WHOLE)
    ensures Five(c.(groups := other), other) && Five(c.(groups := WHOLE), WHOLE)
  {
    KnownIsValid(other);
    hide ValidGroups, Known, Sane;
  }

  // ---------- votes ----------

  /** Peers that are all in one state and grant: they move to the same next state. */
  lemma {:induction false} AllGrant(c: Cluster, n: NodeId, request: VoteRequest, peers: seq<NodeId>, rest: seq<NodeId>, granted: set<NodeId>,
                                    x: NodeState, y: NodeState)
    requires n in c.nodes && c.nodes[n].term == request.term && n !in peers && Distinct(peers)
    requires forall p :: p in peers + rest ==> p in c.nodes
    requires forall p :: p in peers ==> c.nodes[p] == x
    requires forall p :: p in peers ==> ReceiveVote(x, p, request) == (y, VoteResponse(request.term, p, true))
    ensures var d := Changed(c, peers, y);
            && d.nodes.Keys == c.nodes.Keys
            && VoteRound(c, n, request, peers + rest, granted) == VoteRound(d, n, request, rest, granted + Elements(peers))
    decreases |peers|
  {
    hide ReceiveVote, VoteRound;
    if peers == [] {
      assert peers + rest == rest && granted + Elements(peers) == granted && Changed(c, peers, y) == c;
    } else {
      var p, more := peers[0], peers[1..];
      assert (peers + rest)[0] == p && (peers + rest)[1..] == more + rest;
      assert forall q :: q in more + rest ==> q in peers + rest;
      VoteRoundCons(c, n, request, peers + rest, granted);
      var c1 := c.(nodes := c.nodes[p := y]);
      assert c1.nodes[n] == c.nodes[n];
      AllGrant(c1, n, request, more, rest, granted + {p}, x, y);
      assert granted + {p} + Elements(more) == granted + Elements(peers);
      assert Changed(c1, more, y) == Changed(c, peers, y);
    }
  }

  /** The cluster with some nodes in one and the same state. */
  function Changed(c: Cluster, peers: seq<NodeId>, y: NodeState): Cluster {
    c.(nodes := map q | q in c.nodes :: if q in peers then y else c.nodes[q])
  }

  /** What a leader of empty log commits with its first command: the command, in its term. */
  ghost predicate Committed(s: NodeState, term: nat, command: Command) {
    s.log == [Entry(1, term, command)] && s.commit == 1
  }

  lemma FirstCommitted(s: NodeState, t: NodeState, command: Command)
    requires s.log == [] && t.log == Longer(s, command) && t.commit == |t.log|
    ensures Committed(t, s.term, command)
  {
  }

  // ---------- the steps of the run ----------

  /** Node 5 after three elections on its own. */
  const HIGH: NodeState := INITIAL.(term := 3, votedFor := Some(5), role := Candidate)

  /** Cut off, node 5 only raises its own term. */
  lemma LonelyTimeout(c: Cluster)
    requires Five(c, MOST)
    ensures WellFormed(c) && CleanRound(c, 5)
    ensures 5 in c.nodes
    ensures var d := c.(nodes := c.nodes[5 := StartElection(c.nodes[5], 5)]);
            Step(c, TriggerTimeoutOf(5)) == d && Five(d, MOST)
  {
    hide *;
    FiveIsWellFormed(c, MOST);
    PeersInShort(c, MOST);
    FiveRun(c, MOST, 5);
    NobodyAhead(c, 5);
    AloneOnlyStarts(c, 5);
    TimeoutStep(c, 5);
    ElectionKeepsFive(c);
  }

  lemma FiveRun(c: Cluster, groups: seq<set<NodeId>>, n: NodeId)
    requires Five(c, groups) && n in c.nodes
    ensures IsRunning(c, n)
  {
    hide Sane, Known;
  }

  lemma ElectionKeepsFive(c: Cluster)
    requires Five(c, MOST) && 5 in c.nodes
    ensures Five(c.(nodes := c.nodes[5 := StartElection(c.nodes[5], 5)]), MOST)
  {
    hide Known;
  }

  ghost predicate Begun(c: Cluster, groups: seq<set<NodeId>>, five: NodeState) {
    && Five(c, groups) && c.leaderByTerm == map[]
    && c.nodes[1] == c.nodes[2] == c.nodes[3] == c.nodes[4] == INITIAL && c.nodes[5] == five
  }

  lemma LonelyStep(c: Cluster, five: NodeState)
    requires Begun(c, MOST, five)
    ensures WellFormed(c) && CleanRound(c, 5) && Begun(Step(c, TriggerTimeoutOf(5)), MOST, StartElection(five, 5))
  {
    hide WellFormed, CleanRound, Step, Five, Known, StartElection;
    FiveNodes(c, MOST);
    LonelyTimeout(c);
  }

  lemma BegunRegroups(c: Cluster, groups: seq<set<NodeId>>, five: NodeState)
    requires Begun(c, groups, five)
    ensures WellFormed(c) && Step(c, SetPartition(MOST)) == c.(groups := MOST) && Step(c, Heal) == c.(groups := WHOLE)
    ensures Begun(c.(groups := MOST), MOST, five) && Begun(c.(groups := WHOLE), WHOLE, five)
  {
    FiveIsWellFormed(c, groups);
    Regroup(c, groups, MOST);
    hide WellFormed, Step, Five;
  }

  lemma ThreeElections()
    ensures StartElection(StartElection(StartElection(INITIAL, 5), 5), 5) == HIGH
  {
  }

  /** Node 1 leads term 3, nodes 2, 3 and 4 are in term 1 and node 5 is wherever it is. */
  ghost predicate Seated(c: Cluster, groups: seq<set<NodeId>>) {
    && Five(c, groups)
    && c.nodes[1].term == 3 && c.nodes[1].role == Leader && c.nodes[1].log == [] && c.nodes[1].commit == 0
    && c.nodes[2] == c.nodes[3] == c.nodes[4] == Voter(1, 1)
    && c.leaderByTerm == map[3 := 1]
  }

  lemma DirtyAnswers()
    ensures var request := VoteRequestOf(StartElection(INITIAL, 1), 1);
            && request.term == 1 && StartElection(INITIAL, 1).term == 1
            && (forall p :: ReceiveVote(INITIAL, p, request) == (Voter(1, 1), VoteResponse(1, p, true)))
            && ReceiveVote(HIGH, 5, request) == (HIGH, VoteResponse(3, 5, false))
  {
  }

  lemma DirtyRound(c: Cluster)
    requires 1 in c.nodes && 2 in c.nodes && 3 in c.nodes && 4 in c.nodes && 5 in c.nodes
    requires c.nodes[2] == c.nodes[3] == c.nodes[4] == INITIAL && c.nodes[5] == HIGH
    ensures var candidate := StartElection(INITIAL, 1);
            && (forall p :: p in [2, 3, 4] + [5] ==> p in c.nodes)
            && var r := VoteRound(WithNode(c, 1, candidate), 1, VoteRequestOf(candidate, 1), [2, 3, 4] + [5], {1});
            && r.broke && r.granted == {1, 2, 3, 4}
            && r.cluster == Changed(c, [2, 3, 4], Voter(1, 1)).(nodes := Changed(c, [2, 3, 4], Voter(1, 1)).nodes[1 := ObserveHigherTerm(candidate, 3)])
  {
    hide *;
    var candidate := StartElection(INITIAL, 1);
    var request := VoteRequestOf(candidate, 1);
    DirtyAnswers();
    var c1 := WithNode(c, 1, candidate);
    DirtyStart(c, candidate);
    AllGrant(c1, 1, request, [2, 3, 4], [5], {1}, INITIAL, Voter(1, 1));
    var d := Changed(c1, [2, 3, 4], Voter(1, 1));
    DirtyMiddle(c, candidate, ObserveHigherTerm(candidate, 3), Voter(1, 1));
    BreaksOff(d, 1, request, 5, {1} + Elements([2, 3, 4]), 3);
    GrantedAre();
  }

  lemma GrantedAre()
    ensures {1} + Elements([2 as NodeId, 3, 4]) == {1, 2, 3, 4} && {2} + Elements([3 as NodeId, 4]) == {2, 3, 4}
  {
  }

  lemma DirtyStart(c: Cluster, candidate: NodeState)
    requires 1 in c.nodes && 2 in c.nodes && 3 in c.nodes && 4 in c.nodes && 5 in c.nodes
    requires c.nodes[2] == c.nodes[3] == c.nodes[4] == INITIAL && c.nodes[5] == HIGH
    ensures var c1 := WithNode(c, 1, candidate);
            && 1 in c1.nodes && c1.nodes[1] == candidate
            && (forall p :: p in [2, 3, 4] + [5] ==> p in c.nodes && p in c1.nodes)
            && forall p :: p in [2, 3, 4] ==> c1.nodes[p] == INITIAL
    ensures Distinct([2 as NodeId, 3, 4]) && 1 !in [2, 3, 4]
  {
    hide INITIAL, HIGH, SameFrame;
  }

  lemma DirtyMiddle(c: Cluster, candidate: NodeState, s: NodeState, y: NodeState)
    requires 1 in c.nodes && 5 in c.nodes && c.nodes[5] == HIGH
    ensures var d := Changed(WithNode(c, 1, candidate), [2, 3, 4], y);
            && 1 in d.nodes && 5 in d.nodes && d.nodes[1] == candidate && d.nodes[5] == HIGH
            && d.(nodes := d.nodes[1 := s]) == Changed(c, [2, 3, 4], y).(nodes := Changed(c, [2, 3, 4], y).nodes[1 := s])
  {
    hide HIGH, SameFrame;
    var d := Changed(WithNode(c, 1, candidate), [2, 3, 4], y);
    assert d.nodes[1 := s] == Changed(c, [2, 3, 4], y).nodes[1 := s];
  }

  /** A peer in a later term ends the round. */
  lemma BreaksOff(d: Cluster, n: NodeId, request: VoteRequest, p: NodeId, granted: set<NodeId>, term: nat)
    requires n in d.nodes && p in d.nodes && p != n && d.nodes[n].term < term
    requires ReceiveVote(d.nodes[p], p, request) == (d.nodes[p], VoteResponse(term, p, false))
    ensures VoteRound(d, n, request, [p], granted)
            == Round(d.(nodes := d.nodes[n := ObserveHigherTerm(d.nodes[n], term)]), granted, true)
  {
    VoteRoundCons(d, n, request, [p], granted);
    hide VoteRound, ReceiveVote;
    assert d.nodes[p := d.nodes[p]] == d.nodes;
  }

  /** The dirty round: the only one of the run. */
  lemma DirtyWin(c: Cluster)
    requires Begun(c, WHOLE, HIGH)
    ensures WellFormed(c) && TriggerTimeout(c, 1).1 == Ok(Leader) && Seated(TriggerTimeout(c, 1).0, WHOLE)
  {
    hide *;
    BegunFacts(c, WHOLE, HIGH);
    FiveIsWellFormed(c, WHOLE);
    PeersInShort(c, WHOLE);
    DirtyRound(c);
    MajorityPromotes(c, 1, [2, 3, 4] + [5]);
    assert |{1 as NodeId, 2, 3, 4}| == 4;
    DirtyPromotion(c, TimeoutRound(c, 1).cluster);
  }

  lemma BegunFacts(c: Cluster, groups: seq<set<NodeId>>, five: NodeState)
    requires Begun(c, groups, five)
    ensures Five(c, groups) && c.leaderByTerm == map[] && IsRunning(c, 1)
    ensures 1 in c.nodes && 2 in c.nodes && 3 in c.nodes && 4 in c.nodes && 5 in c.nodes
    ensures c.nodes[1] == c.nodes[2] == c.nodes[3] == c.nodes[4] == INITIAL && c.nodes[5] == five
  {
    hide Known, Sane;
  }

  lemma DirtyPromotion(c: Cluster, e: Cluster)
    requires Begun(c, WHOLE, HIGH)
    requires e == Changed(c, [2, 3, 4], Voter(1, 1)).(
                    nodes := Changed(c, [2, 3, 4], Voter(1, 1)).nodes[1 := ObserveHigherTerm(StartElection(INITIAL, 1), 3)])
    ensures 1 in e.nodes && Promote(e, 1).1 == Ok(Leader) && Seated(Promote(e, 1).0, WHOLE)
  {
    hide Known, Sane;
    var d := Promote(e, 1).0;
    assert d.nodes.Keys == {1, 2, 3, 4, 5};
    FreshIsUp(d.nodes[1]);
    FreshIsUp(Voter(1, 1));
  }

  lemma FreshIsUp(s: NodeState)
    requires s.running && s.log == [] && s.commit == 0
    ensures Up(s)
  {
  }

  lemma SeatedRegroups(c: Cluster)
    requires Seated(c, WHOLE)
    ensures WellFormed(c) && Step(c, SetPartition(LATE)) == c.(groups := LATE) && Seated(c.(groups := LATE), LATE)
  {
    FiveIsWellFormed(c, WHOLE);
    Regroup(c, WHOLE, LATE);
    hide WellFormed, Step, Five;
  }

  /** Node 1 still leads term 3, and nodes 3 and 4 are in term 2 at most. */
  ghost predicate Twofold(c: Cluster, groups: seq<set<NodeId>>) {
    && Five(c, groups)
    && c.nodes[1].term == 3 && c.nodes[1].role == Leader && c.nodes[1].log == [] && c.nodes[1].commit == 0
    && c.nodes[3].term <= 2 && c.nodes[4].term <= 2
  }

  lemma LateAnswers()
    ensures var request := VoteRequestOf(StartElection(Voter(1, 1), 2), 2);
            && request.term == 2 && StartElection(Voter(1, 1), 2).term == 2
            && forall p :: ReceiveVote(Voter(1, 1), p, request) == (Voter(2, 2), VoteResponse(2, p, true))
  {
  }

  lemma LateRound(c: Cluster)
    requires 2 in c.nodes && 3 in c.nodes && 4 in c.nodes && c.nodes[2] == c.nodes[3] == c.nodes[4] == Voter(1, 1)
    ensures var candidate := StartElection(Voter(1, 1), 2);
            && (forall p :: p in [3, 4] ==> p in c.nodes)
            && var r := VoteRound(WithNode(c, 2, candidate), 2, VoteRequestOf(candidate, 2), [3, 4], {2});
            && r.granted == {2, 3, 4} && r.cluster == Changed(WithNode(c, 2, candidate), [3, 4], Voter(2, 2))
  {
    hide *;
    var candidate := StartElection(Voter(1, 1), 2);
    var request := VoteRequestOf(candidate, 2);
    LateAnswers();
    var c1 := WithNode(c, 2, candidate);
    LateStart(c, candidate);
    AllGrant(c1, 2, request, [3, 4], [], {2}, Voter(1, 1), Voter(2, 2));
    assert [3 as NodeId, 4] + [] == [3, 4];
    VoteRoundNil(Changed(c1, [3, 4], Voter(2, 2)), 2, request, {2} + Elements([3, 4]));
    GrantedAre();
  }

  lemma LateStart(c: Cluster, candidate: NodeState)
    requires 2 in c.nodes && 3 in c.nodes && 4 in c.nodes && c.nodes[3] == c.nodes[4] == Voter(1, 1)
    ensures var c1 := WithNode(c, 2, candidate);
            && 2 in c1.nodes && c1.nodes[2] == candidate
            && (forall p :: p in [3, 4] + [] ==> p in c.nodes && p in c1.nodes)
            && forall p :: p in [3, 4] ==> p in c.nodes && c1.nodes[p] == Voter(1, 1)
    ensures Distinct([3 as NodeId, 4]) && 2 !in [3, 4]
    ensures 2 in Changed(WithNode(c, 2, candidate), [3, 4], Voter(2, 2)).nodes
  {
    hide Voter, SameFrame;
  }

  /** In term 1 still, nodes 3 and 4 elect node 2 for term 2, in a clean round. */
  lemma LateWin(c: Cluster)
    requires Seated(c, LATE)
    ensures WellFormed(c) && CleanRound(c, 2)
    ensures var d := TriggerTimeout(c, 2).0;
            Twofold(d, LATE) && d.nodes[2].term == 2 && d.nodes[2].role == Leader && d.nodes[2].log == [] && d.nodes[2].commit == 0
  {
    hide *;
    SeatedFacts(c);
    FiveIsWellFormed(c, LATE);
    PeersInShort(c, LATE);
    NobodyAhead(c, 2);
    LateRound(c);
    MajorityPromotes(c, 2, [3, 4]);
    assert |{2 as NodeId, 3, 4}| == 3;
    LatePromotion(c, TimeoutRound(c, 2).cluster);
  }

  lemma SeatedFacts(c: Cluster)
    requires Seated(c, LATE)
    ensures Five(c, LATE) && IsRunning(c, 2) && 2 in c.nodes && 3 in c.nodes && 4 in c.nodes
    ensures c.nodes[2] == c.nodes[3] == c.nodes[4] == Voter(1, 1)
    ensures forall p :: p in [3, 4] ==> p in c.nodes && c.nodes[p].term <= c.nodes[2].term + 1
  {
    hide Known, Sane;
  }

  lemma LatePromotion(c: Cluster, e: Cluster)
    requires Seated(c, LATE) && e == Changed(WithNode(c, 2, StartElection(Voter(1, 1), 2)), [3, 4], Voter(2, 2))
    ensures 2 in e.nodes
    ensures var d := Promote(e, 2).0;
            Twofold(d, LATE) && d.nodes[2].term == 2 && d.nodes[2].role == Leader && d.nodes[2].log == [] && d.nodes[2].commit == 0
  {
    hide Known, Sane, SameFrame;
    var d := Promote(e, 2).0;
    assert d.nodes.Keys == {1, 2, 3, 4, 5};
    FreshIsUp(d.nodes[2]);
    FreshIsUp(Voter(2, 2));
  }

  /** Node 2 commits with nodes 3 and 4. */
  lemma LateCommit(c: Cluster)
    requires Twofold(c, LATE) && c.nodes[2].term == 2 && c.nodes[2].role == Leader && c.nodes[2].log == [] && c.nodes[2].commit == 0
    ensures WellFormed(c)
    ensures var d := Step(c, SubmitTo(2, THIS)); Twofold(d, LATE) && Committed(d.nodes[2], 2, THIS)
  {
    hide *;
    LateFacts(c);
    FiveIsWellFormed(c, LATE);
    PeersInShort(c, LATE);
    SubmitStep(c, 2, THIS);
    LeaderCommits(c, 2, THIS);
    FirstCommitted(c.nodes[2], SubmitCommand(c, 2, THIS).0.nodes[2], THIS);
    var d := SubmitCommand(c, 2, THIS).0;
    SaneNodes(d);
    CommittedIsTwofold(c, d);
  }

  lemma LateFacts(c: Cluster)
    requires Twofold(c, LATE) && c.nodes[2].term == 2 && c.nodes[2].role == Leader && c.nodes[2].log == [] && c.nodes[2].commit == 0
    ensures Five(c, LATE) && 2 in c.nodes && LeaderError(c, 2) == None && c.nodes[2].log == [] && c.nodes[2].commit == 0
    ensures c.nodes[2].term == 2 && forall p :: p in [3, 4] ==> p in c.nodes && c.nodes[p].term <= 2
  {
    hide Known, Sane;
  }

  lemma CommittedIsTwofold(c: Cluster, d: Cluster)
    requires Twofold(c, LATE) && d.order == c.order && d.groups == c.groups && d.nodes.Keys == c.nodes.Keys
    requires 2 in d.nodes && d.nodes[2].running
    requires forall n :: n in d.nodes ==> Sane(d.nodes[n])
    requires forall p :: p in c.nodes && p != 2 ==>
               && d.nodes[p].running == c.nodes[p].running && (p in [3, 4] ==> d.nodes[p].term <= 2) && (p !in [3, 4] ==> d.nodes[p] == c.nodes[p])
    ensures Twofold(d, LATE)
  {
    hide Known, Sane;
    forall n | n in d.nodes ensures Up(d.nodes[n]) {
      assert Up(c.nodes[n]);
    }
  }

  lemma SaneNodes(c: Cluster)
    requires WellFormed(c)
    ensures forall n :: n in c.nodes ==> Sane(c.nodes[n])
  {
    hide Sane;
  }

  lemma TwofoldRegroups(c: Cluster)
    requires Twofold(c, LATE)
    ensures WellFormed(c) && Step(c, SetPartition(EARLY)) == c.(groups := EARLY) && Twofold(c.(groups := EARLY), EARLY)
  {
    FiveIsWellFormed(c, LATE);
    Regroup(c, LATE, EARLY);
    hide WellFormed, Step, Five;
  }

  /** Node 1 commits with the same two. */
  lemma EarlyCommit(c: Cluster)
    requires Twofold(c, EARLY) && Committed(c.nodes[2], 2, THIS)
    ensures WellFormed(c)
    ensures var d := Step(c, SubmitTo(1, THAT));
            1 in d.nodes && 2 in d.nodes && Committed(d.nodes[1], 3, THAT) && Committed(d.nodes[2], 2, THIS)
  {
    hide *;
    EarlyFacts(c);
    FiveIsWellFormed(c, EARLY);
    PeersInShort(c, EARLY);
    SubmitStep(c, 1, THAT);
    LeaderCommits(c, 1, THAT);
    FirstCommitted(c.nodes[1], SubmitCommand(c, 1, THAT).0.nodes[1], THAT);
  }

  lemma EarlyFacts(c: Cluster)
    requires Twofold(c, EARLY)
    ensures Five(c, EARLY) && 1 in c.nodes && 2 in c.nodes && LeaderError(c, 1) == None && c.nodes[1].log == [] && c.nodes[1].commit == 0
    ensures c.nodes[1].term == 3 && forall p :: p in [3, 4] ==> p in c.nodes && c.nodes[p].term <= 3
  {
    hide Known, Sane;
  }

  /** Leaders of two terms at once, the later of which lacks what the earlier has committed. */
  ghost predicate Incomplete(c: Cluster) {
    && 1 in c.nodes && 2 in c.nodes
    && Committed(c.nodes[2], 2, THIS) && c.nodes[1].role == Leader && c.nodes[1].term == 3 && c.nodes[1].log == []
  }

  ghost predicate Forked(c: Cluster) {
    1 in c.nodes && 2 in c.nodes && Committed(c.nodes[1], 3, THAT) && Committed(c.nodes[2], 2, THIS)
  }

  /**
   * One dirty round among otherwise clean ones is enough: a leader of a later term lacks a committed command, and then two
   * nodes have committed different commands at the same index.
   */
  lemma CommitsFork() returns (states: seq<Cluster>)
    ensures AnyRun(FIVE, EVENTS, states) && |states| == 12
    ensures forall i :: 0 <= i < 11 && i != 5 ==> FollowsCleanly(states[i], EVENTS[i], states[i + 1])
    ensures Incomplete(states[9]) && Forked(states[11])
  {
    hide TriggerTimeout, WellFormed, CleanRound, Init, Step, Begun, Seated, Twofold, Committed, Incomplete, Forked, Five, StartElection;
    var c0 := BeginFive();
    BegunRegroups(c0, WHOLE, INITIAL);
    var c1 := Step(c0, SetPartition(MOST));
    LonelyStep(c1, INITIAL);
    var c2 := Step(c1, TriggerTimeoutOf(5));
    LonelyStep(c2, StartElection(INITIAL, 5));
    var c3 := Step(c2, TriggerTimeoutOf(5));
    LonelyStep(c3, StartElection(StartElection(INITIAL, 5), 5));
    var c4 := Step(c3, TriggerTimeoutOf(5));
    ThreeElections();
    BegunRegroups(c4, MOST, HIGH);
    var c5 := Step(c4, Heal);
    DirtyWin(c5);
    TimeoutStep(c5, 1);
    var c6 := Step(c5, TriggerTimeoutOf(1));
    SeatedRegroups(c6);
    var c7 := Step(c6, SetPartition(LATE));
    LateWin(c7);
    TimeoutStep(c7, 2);
    var c8 := Step(c7, TriggerTimeoutOf(2));
    LateCommit(c8);
    var c9 := Step(c8, SubmitTo(2, THIS));
    TwofoldRegroups(c9);
    var c10 := Step(c9, SetPartition(EARLY));
    EarlyCommit(c10);
    states := [c0, c1, c2, c3, c4, c5, c6, c7, c8, c9, c10, Step(c10, SubmitTo(1, THAT))];
    IncompleteIntro(c9);
    ForkedIntro(Step(c10, SubmitTo(1, THAT)));
    forall i | 0 <= i < 11
      ensures Follows(states[i], EVENTS[i], states[i + 1]) && (i != 5 ==> FollowsCleanly(states[i], EVENTS[i], states[i + 1]))
    {
      assert i == 0 || i == 1 || i == 2 || i == 3 || i == 4 || i == 5 || i == 6 || i == 7 || i == 8 || i == 9 || i == 10;
    }
  }

  lemma IncompleteIntro(c: Cluster)
    requires Twofold(c, LATE) && Committed(c.nodes[2], 2, THIS)
    ensures Incomplete(c)
  {
  }

  lemma ForkedIntro(c: Cluster)
    requires 1 in c.nodes && 2 in c.nodes && Committed(c.nodes[1], 3, THAT) && Committed(c.nodes[2], 2, THIS)
    ensures Forked(c)
  {
  }

  lemma BeginFive() returns (c: Cluster)
    ensures Init(FIVE) == Ok(c) && Begun(c, WHOLE, INITIAL)
  {
    FiveDistinct();
    UniqueOfDistinct(FIVE);
    hide Unique;
    c := Fresh(FIVE);
    FreshFive();
    hide Fresh, Known, Sane;
    FreshIsUp(INITIAL);
  }

  lemma FreshFive()
    ensures var c := Fresh(FIVE);
            && c.order == FIVE && c.nodes.Keys == {1, 2, 3, 4, 5} && c.groups == WHOLE && c.leaderByTerm == map[]
            && forall n :: n in c.nodes ==> c.nodes[n] == INITIAL
  {
    assert forall n :: n in FIVE <==> n in {1, 2, 3, 4, 5};
    assert (set n | n in FIVE) == {1, 2, 3, 4, 5};
    assert Fresh(FIVE).groups[0] == {1, 2, 3, 4, 5};
  }
}
