/** What a submit achieves and reports (lab 25): who takes the entry, when it commits, and what the machine said. */
module RaftProgress {
  import opened Options
  import opened Sets
  import opened Sequences
  import opened RelayTasks
  import opened RaftNode
  import opened RaftCluster
  import opened RaftCommits

  // ---------- the answers of a round ----------

  function Answers(c: Cluster, request: AppendRequest, peers: seq<NodeId>): seq<AppendResponse>
    requires forall p :: p in peers ==> p in c.nodes
  {
    seq(|peers|, i requires 0 <= i < |peers| => ReceiveAppend(c.nodes[peers[i]], peers[i], request).1)
  }

  /** Every peer answers for the state it had before the round. */
  lemma {:induction false} RoundAnswers(c: Cluster, n: NodeId, request: AppendRequest, peers: seq<NodeId>, responses: seq<AppendResponse>)
    requires WellIndexed(request.entries) && n in c.nodes && Distinct(peers)
    requires forall p :: p in peers ==> p in c.nodes && p != n
    ensures AppendRound(c, n, request, peers, responses).responses == responses + Answers(c, request, peers)
    decreases |peers|
  {
    hide ReceiveAppend, AppendRound, WellIndexed, Noted;
    if peers == [] {
      AppendRoundNil(c, n, request, responses);
    } else {
      var p, rest := peers[0], peers[1..];
      assert p !in rest && Distinct(rest);
      hide Distinct;
      var d, response := DeliverOne(c, n, request, peers, responses);
      RoundAnswers(d, n, request, rest, responses + [response]);
      assert Answers(c, request, peers) == [response] + Answers(d, request, rest);
      assert responses + [response] + Answers(d, request, rest) == responses + ([response] + Answers(d, request, rest));
    }
  }

  /** The first delivery of a round. */
  lemma DeliverOne(c: Cluster, n: NodeId, request: AppendRequest, peers: seq<NodeId>, responses: seq<AppendResponse>)
    returns (d: Cluster, response: AppendResponse)
    requires WellIndexed(request.entries) && n in c.nodes && peers != [] && peers[0] != n && forall p :: p in peers ==> p in c.nodes
    ensures d.nodes.Keys == c.nodes.Keys
    ensures AppendRound(c, n, request, peers, responses) == AppendRound(d, n, request, peers[1..], responses + [response])
    ensures (d.nodes[peers[0]], response) == ReceiveAppend(c.nodes[peers[0]], peers[0], request)
    ensures d.nodes[n] == Noted(c.nodes[n], peers[0], response)
    ensures forall p :: p in c.nodes && p != n && p != peers[0] ==> d.nodes[p] == c.nodes[p]
  {
    AppendRoundCons(c, n, request, peers, responses);
    hide AppendRound, ReceiveAppend, WellIndexed, Noted;
    var p := peers[0];
    var (s, answer) := ReceiveAppend(c.nodes[p], p, request);
    var c1 := c.(nodes := c.nodes[p := s]);
    d, response := c1.(nodes := c1.nodes[n := Noted(c1.nodes[n], p, answer)]), answer;
  }

  /** The peers in reach that are in no later term than the sender: those that take its log. */
  ghost function Takers(c: Cluster, n: NodeId): set<NodeId>
    requires WellFormed(c) && n in c.nodes
  {
    set p | p in ReachablePeers(c, n) && c.nodes[p].term <= c.nodes[n].term
  }

  lemma Answer(s: NodeState, p: NodeId, request: AppendRequest)
    requires WellIndexed(request.entries)
    ensures var (t, response) := ReceiveAppend(s, p, request);
            && response.follower == p && (response.success <==> s.term <= request.term)
            && (s.term <= request.term ==>
                  && response == AppendResponse(request.term, p, true, |request.entries|)
                  && t.term == request.term && t.log == request.entries && t.commit == Min(request.leaderCommit, |request.entries|))
            && (s.term > request.term ==> response.term == s.term && t == s)
  {
    if s.term <= request.term {
      var s1 := ObserveHigherTerm(s, request.term).(role := Follower, leaderId := Some(request.leader));
      RebuildReplays(s1.(log := request.entries, commit := Min(s1.commit, |request.entries|)));
      var s2 := ReplaceLog(s1, request.entries);
      ApplyCommittedKeepsLog(s2.(commit := Min(request.leaderCommit, |s2.log|)));
    }
  }

  lemma RepliesOf(c: Cluster, n: NodeId)
    requires WellFormed(c) && n in c.nodes
    ensures WellIndexed(AppendRequestOf(c.nodes[n], n).entries)
    ensures ReplicateFrom(c, n).responses == AppendRound(c, n, AppendRequestOf(c.nodes[n], n), ReachablePeers(c, n), []).responses
  {
    hide WellFormed, AppendRound, ReachablePeers;
    SaneLog(c, n);
  }

  lemma AnswersAcknowledge(c: Cluster, request: AppendRequest, peers: seq<NodeId>)
    requires WellIndexed(request.entries) && forall p :: p in peers ==> p in c.nodes
    ensures Acknowledged(Answers(c, request, peers)) == set p | p in peers && c.nodes[p].term <= request.term
  {
    hide ReceiveAppend, WellIndexed;
    var answers := Answers(c, request, peers);
    forall i | 0 <= i < |peers|
      ensures answers[i].follower == peers[i] && (answers[i].success <==> c.nodes[peers[i]].term <= request.term)
    {
      Answer(c.nodes[peers[i]], peers[i], request);
    }
    forall p | p in peers && c.nodes[p].term <= request.term ensures p in Acknowledged(answers) {
      var i :| 0 <= i < |peers| && peers[i] == p;
      assert answers[i].success;
    }
  }

  /** The followers that acknowledge a replication are its takers. */
  lemma TakersAcknowledge(c: Cluster, n: NodeId)
    requires WellFormed(c) && n in c.nodes
    ensures Acknowledged(ReplicateFrom(c, n).responses) == Takers(c, n)
  {
    hide *;
    SaneLog(c, n);
    NotAmongPeers(c, n);
    RepliesOf(c, n);
    RequestParts(c.nodes[n], n);
    var request, peers := AppendRequestOf(c.nodes[n], n), ReachablePeers(c, n);
    RoundAnswers(c, n, request, peers, []);
    assert [] + Answers(c, request, peers) == Answers(c, request, peers);
    AnswersAcknowledge(c, request, peers);
    TakersAre(c, n);
  }

  lemma TakersAre(c: Cluster, n: NodeId)
    requires WellFormed(c) && n in c.nodes
    ensures Takers(c, n) == set p | p in ReachablePeers(c, n) && c.nodes[p].term <= c.nodes[n].term
  {
    hide WellFormed, ReachablePeers;
  }

  // ---------- a leader whose followers all accept ----------

  /** Acknowledgements of the whole log by all of them. */
  lemma {:induction false} AllAccept(c: Cluster, n: NodeId, request: AppendRequest, peers: seq<NodeId>, responses: seq<AppendResponse>)
    requires WellIndexed(request.entries) && n in c.nodes && c.nodes[n].term == request.term && Distinct(peers)
    requires forall p :: p in peers ==> p in c.nodes && p != n && c.nodes[p].term <= request.term
    ensures var d := AppendRound(c, n, request, peers, responses).cluster;
            && n in d.nodes && d.nodes[n] == c.nodes[n].(matchIndex := d.nodes[n].matchIndex)
            && d.nodes[n].matchIndex.Keys == c.nodes[n].matchIndex.Keys + Elements(peers)
            && forall p :: (p in peers || p in c.nodes[n].matchIndex) ==>
                 p in d.nodes[n].matchIndex && d.nodes[n].matchIndex[p] == if p in peers then |request.entries| else c.nodes[n].matchIndex[p]
    decreases |peers|
  {
    hide ReceiveAppend, AppendRound, WellIndexed, Noted;
    if peers == [] {
      AppendRoundNil(c, n, request, responses);
    } else {
      var p, more := peers[0], peers[1..];
      assert p !in more && Distinct(more);
      hide Distinct;
      var d, response := DeliverOne(c, n, request, peers, responses);
      Answer(c.nodes[p], p, request);
      NotedAccept(c.nodes[n], p, response);
      AllAccept(d, n, request, more, responses + [response]);
      assert Elements(peers) == {p} + Elements(more);
    }
  }

  lemma NotedAccept(s: NodeState, p: NodeId, response: AppendResponse)
    requires response.term <= s.term
    ensures Noted(s, p, response) == s.(matchIndex := s.matchIndex[p := response.matchIndex])
  {
  }

  /** The whole replication: the leader has acknowledgements of its log from everyone it reaches, and is otherwise as before. */
  lemma ReplicateAccepted(c: Cluster, n: NodeId)
    requires WellFormed(c) && n in c.nodes && forall p :: p in ReachablePeers(c, n) ==> c.nodes[p].term <= c.nodes[n].term
    ensures var d := ReplicateFrom(c, n).cluster;
            && n in d.nodes && d.nodes[n] == c.nodes[n].(matchIndex := d.nodes[n].matchIndex)
            && d.nodes[n].matchIndex.Keys == c.nodes[n].matchIndex.Keys + Elements(ReachablePeers(c, n)) + {n}
            && forall p :: p in d.nodes[n].matchIndex ==>
                 d.nodes[n].matchIndex[p] == if p in ReachablePeers(c, n) || p == n then |c.nodes[n].log| else c.nodes[n].matchIndex[p]
  {
    hide WellFormed, ReachablePeers, AppendRound;
    SaneLog(c, n);
    AllAccept(c, n, AppendRequestOf(c.nodes[n], n), ReachablePeers(c, n), []);
  }

  lemma EnoughHolders(s: NodeState, n: NodeId, peers: seq<NodeId>, majority: nat)
    requires s.log != [] && s.log[|s.log| - 1].term == s.term && s.commit < |s.log|
    requires Distinct(peers) && n !in peers && |peers| + 1 >= majority
    requires forall p :: p in peers || p == n ==> p in s.matchIndex && s.matchIndex[p] == |s.log|
    ensures CommitCandidate(s, majority, |s.log|) == |s.log|
  {
    DistinctSize(peers);
    assert {n} + Elements(peers) <= Holders(s, |s.log|);
    assert |{n} + Elements(peers)| == |peers| + 1;
    SubsetSize({n} + Elements(peers), Holders(s, |s.log|));
    assert Qualifies(s, majority, |s.log|);
  }

  /** The log with the new entry. */
  function Longer(s: NodeState, command: Command): seq<Entry> {
    s.log + [Entry(|s.log| + 1, s.term, command)]
  }

  lemma AppendedState(c: Cluster, n: NodeId, command: Command)
    requires n in c.nodes && WellFormed(c) && WellFormed(AppendAt(c, n, command))
    requires ReachablePeers(AppendAt(c, n, command), n) == ReachablePeers(c, n)
    ensures var c1 := AppendAt(c, n, command);
            && c1.nodes[n] == c.nodes[n].(log := Longer(c.nodes[n], command), matchIndex := c1.nodes[n].matchIndex)
            && (forall p :: p in ReachablePeers(c, n) ==> c1.nodes[p] == c.nodes[p])
            && Takers(c1, n) == Takers(c, n)
            && c.nodes[n].commit <= |c.nodes[n].log|
  {
    assert Sane(c.nodes[n]);
    hide WellFormed, ReachablePeers;
  }

  /** Two nodes at least besides any. */
  lemma Another(c: Cluster, n: NodeId) returns (p: NodeId)
    requires WellFormed(c)
    ensures p in c.nodes && p != n
  {
    p := if c.order[0] != n then c.order[0] else c.order[1];
    assert c.order[0] in c.order && c.order[1] in c.order;
  }

  lemma SameMajority(c: Cluster, d: Cluster)
    requires c.nodes.Keys == d.nodes.Keys
    ensures Majority(c) == Majority(d)
  {
  }

  lemma NotAmongPeers(c: Cluster, n: NodeId)
    requires WellFormed(c) && n in c.nodes
    ensures n !in ReachablePeers(c, n) && Distinct(ReachablePeers(c, n))
  {
  }

  lemma LeaderFacts(c: Cluster, n: NodeId)
    requires LeaderError(c, n) == None
    ensures n in c.nodes && c.nodes[n].running && c.nodes[n].role == Leader
  {
  }

  lemma LongerFacts(s: NodeState, command: Command)
    ensures var log := Longer(s, command);
            log != [] && |log| == |s.log| + 1 && log[|log| - 1] == Entry(|log|, s.term, command) && log[|log| - 1].term == s.term
  {
  }

  /** The first round of the submit. */
  lemma FirstSend(c: Cluster, n: NodeId, command: Command)
    requires WellFormed(c) && LeaderError(c, n) == None
    requires forall p :: p in ReachablePeers(c, n) ==> c.nodes[p].term <= c.nodes[n].term
    requires |ReachablePeers(c, n)| + 1 >= Majority(c)
    ensures n in c.nodes
    ensures var s := SentOnce(c, n, command);
            && s.nodes.Keys == c.nodes.Keys && ReachablePeers(s, n) == ReachablePeers(c, n)
            && s.nodes[n].log == Longer(c.nodes[n], command) && s.nodes[n].commit == c.nodes[n].commit < |s.nodes[n].log|
            && s.nodes[n].role == Leader && s.nodes[n].running && s.nodes[n].term == c.nodes[n].term
            && CommitCandidate(s.nodes[n], Majority(s), |s.nodes[n].log|) == |s.nodes[n].log|
  {
    hide *;
    LeaderFacts(c, n);
    AppendsAlone(c, n, command);
    SentOnceIs(c, n, command);
    AppendedState(c, n, command);
    LongerFacts(c.nodes[n], command);
    AppendedTerms(c, n, command);
    ReplicateAccepted(AppendAt(c, n, command), n);
    var p := Another(c, n);
    SentOnceFacts(c, n, p, command);
    var s := SentOnce(c, n, command);
    SameMajority(c, s);
    NotAmongPeers(c, n);
    PeersAreElements(ReachablePeers(c, n));
    EnoughHolders(s.nodes[n], n, ReachablePeers(c, n), Majority(s));
  }

  lemma PeersAreElements(peers: seq<NodeId>)
    ensures forall p :: p in Elements(peers) <==> p in peers
  {
  }

  lemma AppendedTerms(c: Cluster, n: NodeId, command: Command)
    requires n in c.nodes && WellFormed(c) && WellFormed(AppendAt(c, n, command))
    requires ReachablePeers(AppendAt(c, n, command), n) == ReachablePeers(c, n)
    ensures (forall p :: p in ReachablePeers(c, n) ==> c.nodes[p].term <= c.nodes[n].term)
            <==> forall p :: p in ReachablePeers(AppendAt(c, n, command), n) ==>
                   AppendAt(c, n, command).nodes[p].term <= AppendAt(c, n, command).nodes[n].term
  {
    hide WellFormed, ReachablePeers;
  }

  /** The rest of the submit: the leader commits, and tells the others. */
  lemma ThenSettles(s: Cluster, n: NodeId)
    requires WellFormed(s) && n in s.nodes && s.nodes[n].role == Leader && s.nodes[n].running
    requires s.nodes[n].commit < |s.nodes[n].log|
    requires CommitCandidate(s.nodes[n], Majority(s), |s.nodes[n].log|) == |s.nodes[n].log|
    ensures var (d, error) := Settle(s, n);
            && error == None && n in d.nodes && d.nodes[n].commit == |s.nodes[n].log| && d.nodes[n].log == s.nodes[n].log && d.nodes[n].running
  {
    hide *;
    var (d, moved) := AdvanceAt(s, n);
    FrameKeepsWellFormed(s, d);
    AdvancedSender(s, n);
    SettleParts(s, n, d, moved);
    SettledWell(s, n, d, moved);
    ReplicateDelivers(d, n);
    KeptFacts(d.nodes[n], ReplicateFrom(d, n).cluster.nodes[n]);
  }

  lemma SettledWell(s: Cluster, n: NodeId, d: Cluster, moved: bool)
    requires WellFormed(s) && n in s.nodes && s.nodes[n].commit <= |s.nodes[n].log| && AdvanceAt(s, n) == (d, moved) && WellFormed(d)
    ensures LeaderError(d, n) == None ==> Settle(s, n).1 == None
  {
    hide WellFormed, AdvanceAt, ReplicateFrom;
  }

  lemma KeptFacts(s: NodeState, t: NodeState)
    requires SenderKept(s, t)
    ensures t.commit == s.commit && t.log == s.log && t.running == s.running
  {
  }

  /** What the rest of the submit does to another node. */
  lemma OthersSettle(s: Cluster, n: NodeId, p: NodeId)
    requires WellFormed(s) && n in s.nodes && p in s.nodes && p != n
    ensures var d := Settle(s, n).0;
            && p in d.nodes && d.nodes[p].running == s.nodes[p].running
            && (p in ReachablePeers(s, n) && s.nodes[p].term <= s.nodes[n].term ==> d.nodes[p].term <= s.nodes[n].term)
            && (p !in ReachablePeers(s, n) ==> d.nodes[p] == s.nodes[p])
  {
    hide *;
    SaneSender(s, n);
    var (d, moved) := AdvanceAt(s, n);
    FrameKeepsWellFormed(s, d);
    AdvancedSender(s, n);
    SamePeers(s, d, n);
    SettleParts(s, n, d, moved);
    AcceptsMeans(d, n, p);
    ReplicateDelivers(d, n);
    ReplicatedCommit(d, n, p);
  }

  /** A follower in reach ends with the leader's log and commit index once the leader has committed its whole log. */
  lemma FollowerCatchesUp(s: Cluster, n: NodeId, p: NodeId)
    requires WellFormed(s) && n in s.nodes && p in s.nodes && p != n && s.nodes[n].role == Leader && s.nodes[n].running
    requires s.nodes[n].commit < |s.nodes[n].log|
    requires CommitCandidate(s.nodes[n], Majority(s), |s.nodes[n].log|) == |s.nodes[n].log|
    requires p in ReachablePeers(s, n) && s.nodes[p].term <= s.nodes[n].term
    ensures var d := Settle(s, n).0;
            && p in d.nodes && d.nodes[p].term == s.nodes[n].term && d.nodes[p].log == s.nodes[n].log
            && d.nodes[p].commit == |s.nodes[n].log|
  {
    hide *;
    var (d, moved) := AdvanceAt(s, n);
    FrameKeepsWellFormed(s, d);
    AdvancedSender(s, n);
    SamePeers(s, d, n);
    SettleParts(s, n, d, moved);
    ReplicateDelivers(d, n);
    SaneLog(d, n);
    Answer(d.nodes[p], p, AppendRequestOf(d.nodes[n], n));
    MinItself(|s.nodes[n].log|);
    RequestParts(d.nodes[n], n);
  }

  lemma MinItself(k: nat)
    ensures Min(k, k) == k
  {
  }

  lemma RequestParts(s: NodeState, n: NodeId)
    ensures var q := AppendRequestOf(s, n); q.term == s.term && q.entries == s.log && q.leaderCommit == s.commit
  {
  }

  lemma SaneLog(d: Cluster, n: NodeId)
    requires WellFormed(d) && n in d.nodes
    ensures WellIndexed(AppendRequestOf(d.nodes[n], n).entries)
  {
    assert Sane(d.nodes[n]);
  }

  lemma AcceptsMeans(c: Cluster, n: NodeId, p: NodeId)
    requires WellFormed(c) && n in c.nodes && p in c.nodes
    ensures Accepts(c, n, p) <==> p in ReachablePeers(c, n) && c.nodes[p].term <= c.nodes[n].term
  {
  }

  /**
   * A leader that makes a majority with the nodes it reaches, none of them in a later term, commits a submitted command at
   * once: it and all it reaches end with its log, the new entry last, and everything committed; nobody else is touched.
   */
  lemma LeaderCommits(c: Cluster, n: NodeId, command: Command)
    requires WellFormed(c) && LeaderError(c, n) == None
    requires forall p :: p in ReachablePeers(c, n) ==> c.nodes[p].term <= c.nodes[n].term
    requires |ReachablePeers(c, n)| + 1 >= Majority(c)
    ensures n in c.nodes
    ensures var (d, r) := SubmitCommand(c, n, command);
            var log := Longer(c.nodes[n], command);
            && WellFormed(d) && d.order == c.order && d.groups == c.groups && d.nodes.Keys == c.nodes.Keys
            && r.Ok? && r.value.committed && r.value.index == |log|
            && d.nodes[n].log == log && d.nodes[n].commit == |log| && d.nodes[n].running
            && forall p :: p in c.nodes && p != n ==>
                 && d.nodes[p].running == c.nodes[p].running
                 && (p in ReachablePeers(c, n) ==> d.nodes[p].term == c.nodes[n].term && d.nodes[p].log == log && d.nodes[p].commit == |log|)
                 && (p !in ReachablePeers(c, n) ==> d.nodes[p] == c.nodes[p])
  {
    hide *;
    LeaderFacts(c, n);
    FirstSend(c, n, command);
    SubmitParts(c, n, command);
    SubmitKeepsFrame(c, n, command);
    var s := SentOnce(c, n, command);
    ThenSettles(s, n);
    SubmitAnswers(c, n, command);
    LongerFacts(c.nodes[n], command);
    forall p | p in c.nodes && p != n
      ensures var d, log := SubmitCommand(c, n, command).0, Longer(c.nodes[n], command);
              && d.nodes[p].running == c.nodes[p].running
              && (p in ReachablePeers(c, n) ==> d.nodes[p].term == c.nodes[n].term && d.nodes[p].log == log && d.nodes[p].commit == |log|)
              && (p !in ReachablePeers(c, n) ==> d.nodes[p] == c.nodes[p])
    {
      SentOther(c, n, p, command);
      OthersSettle(s, n, p);
      if p in ReachablePeers(c, n) {
        FollowerCatchesUp(s, n, p);
      }
    }
  }

  /** The answer of a submit that ends without an error. */
  lemma SubmitAnswers(c: Cluster, n: NodeId, command: Command)
    requires WellFormed(c) && LeaderError(c, n) == None
    ensures n in c.nodes
    ensures Settle(SentOnce(c, n, command), n).1 == None <==> SubmitCommand(c, n, command).1.Ok?
    ensures SubmitCommand(c, n, command).1.Ok? ==>
              var (d, r) := SubmitCommand(c, n, command);
              && n in d.nodes && r.value.leader == n && r.value.index == |c.nodes[n].log| + 1 && r.value.term == c.nodes[n].term
              && (r.value.committed <==> r.value.index <= d.nodes[n].commit)
              && r.value.rejection == (if r.value.index in d.nodes[n].rejections then Some(d.nodes[n].rejections[r.value.index]) else None)
              && WellFormed(AppendAt(c, n, command))
              && r.value.replicatedTo == {n} + Acknowledged(ReplicateFrom(AppendAt(c, n, command), n).responses)
  {
    hide WellFormed, ReplicateFrom, AppendAt, Settle, Acknowledged;
    SubmitCommandUnfolds(c, n, command);
    SentOnceIs(c, n, command);
  }

  lemma SubmitKeepsFrame(c: Cluster, n: NodeId, command: Command)
    requires WellFormed(c)
    ensures var d := SubmitCommand(c, n, command).0;
            WellFormed(d) && d.order == c.order && d.groups == c.groups && d.nodes.Keys == c.nodes.Keys
  {
    hide WellFormed, ReplicateFrom, Settle, AppendAt;
    SubmitCommandUnfolds(c, n, command);
  }

  lemma SentOther(c: Cluster, n: NodeId, p: NodeId, command: Command)
    requires WellFormed(c) && n in c.nodes && p in c.nodes && p != n
    ensures var s := SentOnce(c, n, command);
            && p in s.nodes && s.nodes[p].running == c.nodes[p].running
            && (p in ReachablePeers(c, n) && c.nodes[p].term <= c.nodes[n].term ==> s.nodes[p].term <= c.nodes[n].term)
            && (p !in ReachablePeers(c, n) ==> s.nodes[p] == c.nodes[p])
  {
    hide *;
    SentOnceFacts(c, n, p, command);
    AcceptsMeans(c, n, p);
    SentRunning(c, n, p, command);
  }

  lemma SentRunning(c: Cluster, n: NodeId, p: NodeId, command: Command)
    requires WellFormed(c) && n in c.nodes && p in c.nodes && p != n
    ensures p in SentOnce(c, n, command).nodes && SentOnce(c, n, command).nodes[p].running == c.nodes[p].running
  {
    var c1 := AppendAt(c, n, command);
    FrameKeepsWellFormed(c, c1);
    hide WellFormed, ReplicateFrom;
    ReplicatedCommit(c1, n, p);
  }

  // ---------- what a submit reports ----------

  /** Whatever becomes of it, a submit names its node, index and term, and as replicas that node and exactly the takers. */
  lemma SubmitReportsTakers(c: Cluster, n: NodeId, command: Command)
    requires WellFormed(c) && SubmitCommand(c, n, command).1.Ok?
    ensures n in c.nodes
    ensures var r := SubmitCommand(c, n, command).1.value;
            r.leader == n && r.index == |c.nodes[n].log| + 1 && r.term == c.nodes[n].term && r.replicatedTo == {n} + Takers(c, n)
  {
    hide *;
    SubmitRuns(c, n, command);
    SubmitAnswers(c, n, command);
    AppendsAlone(c, n, command);
    AppendedState(c, n, command);
    TakersAcknowledge(AppendAt(c, n, command), n);
  }

  lemma SubmitRuns(c: Cluster, n: NodeId, command: Command)
    requires WellFormed(c) && SubmitCommand(c, n, command).1.Ok?
    ensures LeaderError(c, n) == None
  {
    hide WellFormed;
    SubmitCommandUnfolds(c, n, command);
  }
}
