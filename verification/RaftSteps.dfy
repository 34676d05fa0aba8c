/** Every public method keeps the invariant, the timeout under the clean-round hypothesis. */
module RaftSteps {
  import opened Options
  import opened Sequences
  import opened Sets
  import opened RelayTasks
  import opened RaftNode
  import opened RaftCluster
  import opened RaftHistory
  import opened RaftPreserve
  import opened RaftReplicate

  // ---------- small changes of one node ----------

  /** Only term, vote, role, liveness and the match map may differ. */
  ghost predicate Quiet(x: NodeState, s: NodeState) {
    && x.term <= s.term
    && s == x.(term := s.term, votedFor := s.votedFor, role := s.role, leaderId := s.leaderId,
               running := s.running, matchIndex := s.matchIndex)
  }

  lemma QuietCommit(c: Cluster, h: History, x: NodeState, s: NodeState)
    requires CommitOk(c, h, x) && Quiet(x, s)
    ensures CommitOk(c, h, s)
  {
    ExtendsItself(h);
    CommittedGrows(h, h, c.nodes.Keys, x.log[..x.commit], x.term, s.term);
    CommittedGrows(h, h, c.nodes.Keys, x.log[..x.lastApplied], x.term, s.term);
  }

  lemma QuietKeepsInv(c: Cluster, h: History, n: NodeId, s: NodeState)
    requires n in c.nodes && Inv(c, h)
    requires Quiet(c.nodes[n], s) && KeepsVote(c.nodes[n], s) && KeepsRole(c, h, c.nodes[n], s)
    ensures Inv(WithNode(c, n, s), WithVote(h, s, n)) && Extends(h, WithVote(h, s, n))
  {
    var x := c.nodes[n];
    assert NodeOk(x) && CommitOk(c, h, x);
    QuietCommit(c, h, x, s);
    assert Consistent(s);
    SoftKeepsInv(c, h, n, s);
  }

  /** A vote map that already holds the node's vote does not change. */
  lemma SameVote(c: Cluster, h: History, n: NodeId, s: NodeState)
    requires n in c.nodes && VotesOk(c, h) && s.term == c.nodes[n].term && s.votedFor == c.nodes[n].votedFor
    ensures WithVote(h, s, n) == h
  {
    if s.votedFor.Some? {
      assert h.votes[(s.term, n) := s.votedFor.value] == h.votes;
    }
  }

  lemma RestartKeepsInv(c: Cluster, h: History, n: NodeId)
    requires n in c.nodes && Inv(c, h)
    ensures Inv(WithNode(c, n, Restart(c.nodes[n])), h)
  {
    hide *;
    InvAt(c, h, n);
    RestartIsSoft(c, h, n);
    SoftKeepsInv(c, h, n, Restart(c.nodes[n]));
    SameVote(c, h, n, Restart(c.nodes[n]));
  }

  lemma RestartIsSoft(c: Cluster, h: History, n: NodeId)
    requires n in c.nodes && NodeOk(c.nodes[n]) && CommitOk(c, h, c.nodes[n])
    ensures SoftChange(c, h, n, Restart(c.nodes[n]))
    ensures Restart(c.nodes[n]).term == c.nodes[n].term && Restart(c.nodes[n]).votedFor == c.nodes[n].votedFor
  {
    RebuildReplays(c.nodes[n].(running := true, role := Follower, leaderId := None, matchIndex := map[]));
    hide LogOk, Replay, Rebuild, Consistent;
    assert c.nodes[n].commit <= |c.nodes[n].log|;
  }

  /** What the invariant says of one node. */
  lemma InvAt(c: Cluster, h: History, n: NodeId)
    requires n in c.nodes && Inv(c, h)
    ensures LeaderOk(c, h, n) && NodeOk(c.nodes[n]) && CommitOk(c, h, c.nodes[n]) && VotesOk(c, h)
  {
  }

  // ---------- the vote round ----------

  /** The candidate of the round, with the votes it has collected so far. */
  ghost predicate Campaigning(c: Cluster, h: History, n: NodeId, term: nat, granted: set<NodeId>) {
    && n in c.nodes
    && c.nodes[n].term == term
    && c.nodes[n].votedFor == Some(n)
    && c.nodes[n].role == Candidate
    && granted <= c.nodes.Keys
    && forall p :: p in granted ==>
                     && (term, p) in h.votes && h.votes[(term, p)] == n
                     && c.nodes[p].term == term
                     && AtLeast(LastPosition(c.nodes[n].log), LastPosition(c.nodes[p].log))
  }

  /** The answer says exactly whether the vote was granted; a granted vote puts the voter in the request's term. */
  lemma VoteAnswer(s: NodeState, id: NodeId, request: VoteRequest)
    ensures var (t, response) := ReceiveVote(s, id, request);
            && response.granted == WouldGrant(s, request)
            && response.term == t.term == Max(s.term, request.term)
            && Quiet(s, t) && KeepsVote(s, t)
            && (response.granted ==> t.votedFor == Some(request.candidate))
            && (t.role == Leader ==> t == s)
  {
  }

  lemma OneVote(c: Cluster, h: History, p: NodeId, n: NodeId, request: VoteRequest, granted: set<NodeId>)
    requires p in c.nodes && p != n && p !in granted && Inv(c, h)
    requires Campaigning(c, h, n, request.term, granted)
    requires request == VoteRequest(request.term, n, LastPosition(c.nodes[n].log))
    ensures var (s, response) := ReceiveVote(c.nodes[p], p, request);
            var d, g := WithNode(c, p, s), WithVote(h, s, p);
            && Inv(d, g) && Extends(h, g)
            && Campaigning(d, g, n, request.term, if response.granted then granted + {p} else granted)
  {
    hide Inv, LeaderOk, NodeOk, CommitOk, Committed, Consistent, LogOk, AtLeast;
    VoteAnswer(c.nodes[p], p, request);
    var (s, response) := ReceiveVote(c.nodes[p], p, request);
    InvAt(c, h, p);
    QuietKeepsInv(c, h, p, s);
  }

  lemma ObserveKeepsInv(c: Cluster, h: History, n: NodeId, term: nat)
    requires n in c.nodes && Inv(c, h)
    ensures Inv(WithNode(c, n, ObserveHigherTerm(c.nodes[n], term)), h)
  {
    hide Inv;
    var s := ObserveHigherTerm(c.nodes[n], term);
    InvAt(c, h, n);
    QuietKeepsInv(c, h, n, s);
    if s.term == c.nodes[n].term {
      SameVote(c, h, n, s);
    }
  }

  lemma {:induction false} VoteRoundKeepsInv(c: Cluster, h: History, n: NodeId, request: VoteRequest, peers: seq<NodeId>, granted: set<NodeId>)
    returns (g: History)
    requires Inv(c, h) && Campaigning(c, h, n, request.term, granted)
    requires request == VoteRequest(request.term, n, LastPosition(c.nodes[n].log))
    requires Distinct(peers) && forall p :: p in peers ==> p in c.nodes && p != n && p !in granted
    ensures var r := VoteRound(c, n, request, peers, granted);
            && Inv(r.cluster, g) && Extends(h, g)
            && (!r.broke ==> Campaigning(r.cluster, g, n, request.term, r.granted))
    decreases |peers|
  {
    hide Inv;
    if peers == [] {
      g := h;
    } else {
      var p := peers[0];
      var (s, response) := ReceiveVote(c.nodes[p], p, request);
      OneVote(c, h, p, n, request, granted);
      var c1, h1 := WithNode(c, p, s), WithVote(h, s, p);
      if response.term > c1.nodes[n].term {
        g := h1;
        ObserveKeepsInv(c1, h1, n, response.term);
      } else {
        var more := if response.granted then granted + {p} else granted;
        assert c1.nodes.Keys == c.nodes.Keys;
        g := VoteRoundKeepsInv(c1, h1, n, request, peers[1..], more);
        ExtendsIsTransitive(h, h1, g);
      }
    }
  }

  // ---------- which rounds are clean ----------

  lemma GrantersCons(c: Cluster, peers: seq<NodeId>, request: VoteRequest, k: nat)
    requires k < |peers| && forall p :: p in peers ==> p in c.nodes
    ensures Granters(c, peers[..k + 1], request) ==
            (if WouldGrant(c.nodes[peers[0]], request) then {peers[0]} else {}) + Granters(c, peers[1..][..k], request)
  {
    hide WouldGrant;
    assert peers[..k + 1] == [peers[0]] + peers[1..][..k];
  }

  /** The first peer in a newer term, or the number of peers. */
  function FirstAhead(c: Cluster, peers: seq<NodeId>, term: nat): (k: nat)
    requires forall p :: p in peers ==> p in c.nodes
    ensures k <= |peers|
    ensures forall j :: 0 <= j < k ==> c.nodes[peers[j]].term <= term
    ensures k < |peers| ==> c.nodes[peers[k]].term > term
  {
    if peers == [] || c.nodes[peers[0]].term > term then 0 else 1 + FirstAhead(c, peers[1..], term)
  }

  /** One asked peer, in terms of the state it had before the round. */
  lemma VoteRoundUnfolds(d: Cluster, n: NodeId, request: VoteRequest, peers: seq<NodeId>, granted: set<NodeId>)
    requires n in d.nodes && d.nodes[n].term == request.term && peers != [] && peers[0] != n
    requires forall p :: p in peers ==> p in d.nodes
    ensures var p, x := peers[0], d.nodes[peers[0]];
            var d1 := WithNode(d, p, ReceiveVote(x, p, request).0);
            var r := VoteRound(d, n, request, peers, granted);
            if x.term > request.term then
              r.broke && r.granted == granted && r.cluster.nodes[n] == ObserveHigherTerm(d.nodes[n], x.term)
            else
              r == VoteRound(d1, n, request, peers[1..], if WouldGrant(x, request) then granted + {p} else granted)
  {
    VoteAnswer(d.nodes[peers[0]], peers[0], request);
    hide ReceiveVote, WouldGrant, ObserveHigherTerm;
  }

  /** The round in closed form, read off the states the peers had before it. */
  lemma {:induction false} VoteRoundOutcome(c: Cluster, d: Cluster, n: NodeId, request: VoteRequest, peers: seq<NodeId>, granted: set<NodeId>)
    requires n in c.nodes && n in d.nodes && d.nodes[n].term == request.term && Distinct(peers)
    requires forall p :: p in peers ==> p in c.nodes && p in d.nodes && p != n && d.nodes[p] == c.nodes[p]
    ensures var r := VoteRound(d, n, request, peers, granted);
            var k := FirstAhead(c, peers, request.term);
            && r.broke == (k < |peers|)
            && r.granted == granted + Granters(c, peers[..k], request)
            && (r.broke ==> r.cluster.nodes[n] == ObserveHigherTerm(d.nodes[n], c.nodes[peers[k]].term))
            && (!r.broke ==> r.cluster.nodes[n] == d.nodes[n])
    decreases |peers|
  {
    hide ReceiveVote, WouldGrant, ObserveHigherTerm, Sane;
    if peers == [] {
      NoGranters(c, peers, request);
    } else {
      var p, rest := peers[0], peers[1..];
      VoteRoundUnfolds(d, n, request, peers, granted);
      DistinctTail(peers);
      hide VoteRound, Granters, Distinct;
      if d.nodes[p].term <= request.term {
        var d1 := WithNode(d, p, ReceiveVote(d.nodes[p], p, request).0);
        var k := FirstAhead(c, rest, request.term);
        VoteRoundOutcome(c, d1, n, request, rest, if WouldGrant(d.nodes[p], request) then granted + {p} else granted);
        GrantersCons(c, peers, request, k);
      } else {
        NoGranters(c, peers, request);
      }
    }
  }

  lemma DistinctTail<T>(s: seq<T>)
    requires Distinct(s) && s != []
    ensures Distinct(s[1..]) && s[0] !in s[1..]
  {
  }

  lemma NoGranters(c: Cluster, peers: seq<NodeId>, request: VoteRequest)
    requires forall p :: p in peers ==> p in c.nodes
    ensures Granters(c, peers[..0], request) == {}
  {
  }

  /** The condition a caller can check before the timeout says exactly when a broken-off round had a majority. */
  lemma CleanRoundIsExact(c: Cluster, n: NodeId)
    requires WellFormed(c) && IsRunning(c, n)
    ensures var r := TimeoutRound(c, n);
            CleanRound(c, n) <==> !(r.broke && |r.granted| >= Majority(c))
    ensures var r := TimeoutRound(c, n);
            r.broke ==> r.cluster.nodes[n].votedFor == None
  {
    hide WellFormed, VoteRound, ReachablePeers, WouldGrant;
    var peers := ReachablePeers(c, n);
    var candidate := StartElection(c.nodes[n], n);
    var request := VoteRequestOf(candidate, n);
    var d := WithNode(c, n, candidate);
    VoteRoundOutcome(c, d, n, request, peers, {n});
    var k := FirstAhead(c, peers, request.term);
    assert n !in Granters(c, peers[..k], request);
    assert |{n} + Granters(c, peers[..k], request)| == 1 + |Granters(c, peers[..k], request)|;
    if k < |peers| {
      assert BreaksAfterMajority(c, n, k) <==> TimeoutRound(c, n).broke && |TimeoutRound(c, n).granted| >= Majority(c);
      assert forall i :: 0 <= i < |peers| && BreaksAfterMajority(c, n, i) ==> i == k;
    }
  }

  /** Nobody reachable is in a newer term, and enough would grant. */
  ghost predicate WinsOutright(c: Cluster, n: NodeId)
    requires WellFormed(c) && n in c.nodes
  {
    var peers := ReachablePeers(c, n);
    var request := VoteRequestOf(StartElection(c.nodes[n], n), n);
    && (forall j :: 0 <= j < |peers| ==> c.nodes[peers[j]].term <= request.term)
    && |Granters(c, peers, request)| + 1 >= Majority(c)
  }

  /** Somebody else is on record as the leader of the term. */
  predicate LedByOther(c: Cluster, term: nat, n: NodeId) {
    term in c.leaderByTerm && c.leaderByTerm[term] != n
  }

  /** Read off the state before a timeout: it will seat `n` in a term that somebody else is on record for. */
  ghost predicate WillConflict(c: Cluster, n: NodeId)
    requires WellFormed(c) && n in c.nodes
  {
    || (WinsOutright(c, n) && LedByOther(c, c.nodes[n].term + 1, n))
    || exists i :: 0 <= i < |ReachablePeers(c, n)| && BreaksAfterMajority(c, n, i) && LedByOther(c, c.nodes[ReachablePeers(c, n)[i]].term, n)
  }

  function ReachedTerm(c: Cluster, n: NodeId): nat
    requires WellFormed(c) && n in c.nodes
  {
    var peers, term := ReachablePeers(c, n), c.nodes[n].term + 1;
    var k := FirstAhead(c, peers, term);
    if k < |peers| then c.nodes[peers[k]].term else term
  }

  function AskedGranters(c: Cluster, n: NodeId): set<NodeId>
    requires WellFormed(c) && n in c.nodes
  {
    var peers, request := ReachablePeers(c, n), VoteRequestOf(StartElection(c.nodes[n], n), n);
    Granters(c, peers[..FirstAhead(c, peers, request.term)], request)
  }

  /** The round of a timeout: who granted, the term reached, and the record of leaders, which it leaves alone. */
  lemma RoundInShort(c: Cluster, n: NodeId)
    requires WellFormed(c) && IsRunning(c, n)
    ensures var r := TimeoutRound(c, n);
            && r.cluster.nodes[n].term == ReachedTerm(c, n) && r.cluster.leaderByTerm == c.leaderByTerm
            && |r.granted| == |AskedGranters(c, n)| + 1
  {
    hide WellFormed, VoteRound, ReachablePeers, WouldGrant;
    var peers := ReachablePeers(c, n);
    var candidate := StartElection(c.nodes[n], n);
    var request := VoteRequestOf(candidate, n);
    VoteRoundOutcome(c, WithNode(c, n, candidate), n, request, peers, {n});
    assert n !in AskedGranters(c, n);
    assert |{n} + AskedGranters(c, n)| == 1 + |AskedGranters(c, n)|;
  }

  /** A timeout conflicts if the peers asked make a majority and somebody else led the term reached. */
  lemma TimeoutConflicts(c: Cluster, n: NodeId)
    requires WellFormed(c) && IsRunning(c, n)
    ensures TriggerTimeout(c, n).1 == Err(LeadershipConflict)
            <==> |AskedGranters(c, n)| + 1 >= Majority(c) && LedByOther(c, ReachedTerm(c, n), n)
  {
    hide WellFormed, TimeoutRound, ReachedTerm, AskedGranters;
    RoundInShort(c, n);
  }

  ghost predicate ReportsConflict(c: Cluster, n: NodeId) {
    WellFormed(c) && TriggerTimeout(c, n).1 == Err(LeadershipConflict)
  }

  /** In any well-formed state, a timeout reports the leadership conflict exactly when the state before it says so. */
  lemma ConflictExactly(c: Cluster, n: NodeId)
    requires WellFormed(c) && IsRunning(c, n)
    ensures TriggerTimeout(c, n).1 == Err(LeadershipConflict) <==> WillConflict(c, n)
  {
    hide WellFormed, ReachablePeers, WouldGrant, Granters, TriggerTimeout;
    TimeoutConflicts(c, n);
    var peers := ReachablePeers(c, n);
    var k := FirstAhead(c, peers, c.nodes[n].term + 1);
    if k < |peers| {
      assert forall i :: 0 <= i < |peers| && BreaksAfterMajority(c, n, i) ==> i == k;
      assert !WinsOutright(c, n);
    } else {
      assert peers[..k] == peers;
      assert forall i :: 0 <= i < |peers| ==> !BreaksAfterMajority(c, n, i);
    }
  }

  // ---------- timeouts ----------

  lemma NotYetElected(c: Cluster, h: History, n: NodeId, granted: set<NodeId>)
    requires n in c.nodes && ElectedOk(c, h) && WonBy(c, h, n, granted)
    requires c.nodes[n].term in c.leaderByTerm ==> c.leaderByTerm[c.nodes[n].term] != n
    ensures c.nodes[n].term !in h.logs
  {
    var t := c.nodes[n].term;
    if t in h.logs {
      var p := QuorumsMeet(c.nodes.Keys, granted, Voters(h, c.nodes.Keys, t, c.leaderByTerm[t]));
    }
  }

  lemma FreshTerm(c: Cluster, h: History, n: NodeId)
    requires n in c.nodes && Inv(c, h)
    ensures forall t :: c.nodes[n].term < t && t in c.leaderByTerm ==> c.leaderByTerm[t] != n
  {
  }

  lemma StartKeepsInv(c: Cluster, h: History, n: NodeId)
    requires n in c.nodes && Inv(c, h)
    ensures var s := StartElection(c.nodes[n], n);
            var d, g := WithNode(c, n, s), WithVote(h, s, n);
            Inv(d, g) && Extends(h, g) && Campaigning(d, g, n, s.term, {n})
            && (s.term in d.leaderByTerm ==> d.leaderByTerm[s.term] != n)
  {
    hide Inv;
    FreshTerm(c, h, n);
    QuietKeepsInv(c, h, n, StartElection(c.nodes[n], n));
  }

  lemma TimeoutKeepsInv(c: Cluster, h: History, n: NodeId) returns (g: History)
    requires WellFormed(c) && Inv(c, h) && CleanRound(c, n)
    ensures Inv(TriggerTimeout(c, n).0, g) && Extends(h, g)
    ensures TriggerTimeout(c, n).1 != Err(LeadershipConflict)
  {
    hide Inv;
    if !IsRunning(c, n) {
      g := h;
      ExtendsItself(h);
    } else {
      var s := StartElection(c.nodes[n], n);
      var c1, h1 := WithNode(c, n, s), WithVote(h, s, n);
      StartKeepsInv(c, h, n);
      var h2 := VoteRoundKeepsInv(c1, h1, n, VoteRequestOf(s, n), ReachablePeers(c, n), {n});
      ExtendsIsTransitive(h, h1, h2);
      var r := TimeoutRound(c, n);
      CleanRoundIsExact(c, n);
      if |r.granted| >= Majority(c) {
        PromoteKeepsInv(r.cluster, h2, n, r.granted);
        g := WithLog(h2, r.cluster.nodes[n].term, n, r.cluster.nodes[n].log);
        ExtendsIsTransitive(h, h2, g);
      } else {
        g := h2;
      }
    }
  }

  /** Where the invariant holds, only a round that breaks off after its majority, on a peer whose term has been led, conflicts. */
  lemma ConflictNeedsDirtyRound(c: Cluster, h: History, n: NodeId)
    requires WellFormed(c) && Inv(c, h) && IsRunning(c, n)
    ensures TriggerTimeout(c, n).1 == Err(LeadershipConflict)
            <==> exists i :: 0 <= i < |ReachablePeers(c, n)| && BreaksAfterMajority(c, n, i) && c.nodes[ReachablePeers(c, n)[i]].term in c.leaderByTerm
  {
    hide Inv, TriggerTimeout, WellFormed, Granters, WinsOutright, ReachablePeers;
    FreshTerm(c, h, n);
    ConflictExactly(c, n);
    if CleanRound(c, n) {
      var g := TimeoutKeepsInv(c, h, n);
    } else {
      var i :| 0 <= i < |ReachablePeers(c, n)| && BreaksAfterMajority(c, n, i);
      OnlyOneBreak(c, n, i);
    }
  }

  lemma OnlyOneBreak(c: Cluster, n: NodeId, i: nat)
    requires WellFormed(c) && n in c.nodes && i < |ReachablePeers(c, n)| && BreaksAfterMajority(c, n, i)
    ensures !WinsOutright(c, n) && c.nodes[ReachablePeers(c, n)[i]].term > c.nodes[n].term
    ensures forall k :: 0 <= k < |ReachablePeers(c, n)| && BreaksAfterMajority(c, n, k) ==> k == i
  {
    hide WellFormed, Granters;
  }

  lemma NotYetElectedInv(c: Cluster, h: History, n: NodeId, granted: set<NodeId>)
    requires n in c.nodes && Inv(c, h) && WonBy(c, h, n, granted)
    requires c.nodes[n].term in c.leaderByTerm ==> c.leaderByTerm[c.nodes[n].term] != n
    ensures c.nodes[n].term !in h.logs && c.leaderByTerm.Keys == h.logs.Keys
  {
    NotYetElected(c, h, n, granted);
  }

  lemma PromoteKeepsInv(c: Cluster, h: History, n: NodeId, granted: set<NodeId>)
    requires n in c.nodes && Inv(c, h) && Campaigning(c, h, n, c.nodes[n].term, granted) && 1 <= c.nodes[n].term
    requires |granted| >= Quorum(c.nodes.Keys)
    requires c.nodes[n].term in c.leaderByTerm ==> c.leaderByTerm[c.nodes[n].term] != n
    ensures var g := WithLog(h, c.nodes[n].term, n, c.nodes[n].log);
            Promote(c, n) == (Elected(c, n), Ok(Leader)) && Inv(Elected(c, n), g) && Extends(h, g)
  {
    NotYetElectedInv(c, h, n, granted);
    hide Inv;
    WinKeepsInv(c, h, n, granted);
  }

  // ---------- replication ----------

  /** The sender during a round: it keeps its log, and once deposed its term is past the request's. */
  ghost predicate Sending(c: Cluster, n: NodeId, request: AppendRequest) {
    && n in c.nodes
    && request.leader == n
    && c.nodes[n].log == request.entries
    && (c.nodes[n].role == Leader ==> c.nodes[n].term == request.term)
    && (c.nodes[n].role != Leader ==> request.term < c.nodes[n].term)
  }

  lemma OneAppend(c: Cluster, h: History, n: NodeId, p: NodeId, request: AppendRequest) returns (g: History)
    requires p in c.nodes && p != n && Inv(c, h) && Genuine(c, h, request) && Sending(c, n, request)
    ensures var (s, response) := ReceiveAppend(c.nodes[p], p, request);
            var d := WithNode(c, p, s);
            && Inv(d, g) && Extends(h, g) && Genuine(d, g, request) && Sending(d, n, request)
            && (response.term <= request.term ==> response.matchIndex <= Ack(g, request.term, p))
            && response.term == s.term
  {
    hide Inv;
    ExtendsItself(h);
    assert WithNode(c, p, c.nodes[p]) == c;
    if request.term < c.nodes[p].term {
      g := h;
    } else {
      g := WithAck(h, request.term, p);
      AcceptKeepsInv(c, h, p, request);
      CommittedGrows(h, g, c.nodes.Keys, request.entries[..request.leaderCommit], request.term, request.term);
      assert WithNode(c, p, ReceiveAppend(c.nodes[p], p, request).0).nodes.Keys == c.nodes.Keys;
    }
  }

  lemma NotedKeepsInv(c: Cluster, h: History, n: NodeId, p: NodeId, response: AppendResponse, request: AppendRequest)
    requires n in c.nodes && p in c.nodes && Inv(c, h) && Genuine(c, h, request) && Sending(c, n, request)
    requires response.term <= request.term ==> response.matchIndex <= Ack(h, request.term, p)
    ensures var d := WithNode(c, n, Noted(c.nodes[n], p, response));
            Inv(d, h) && Genuine(d, h, request) && Sending(d, n, request)
  {
    hide Inv;
    var x := c.nodes[n];
    var s := Noted(x, p, response);
    InvAt(c, h, n);
    assert WithNode(c, n, s).nodes.Keys == c.nodes.Keys;
    if response.term > x.term {
      ObserveKeepsInv(c, h, n, response.term);
    } else {
      assert s.role == Leader ==> s.matchIndex.Keys == c.nodes.Keys;
      QuietKeepsInv(c, h, n, s);
      SameVote(c, h, n, s);
    }
  }

  lemma {:induction false} AppendRoundKeepsInv(c: Cluster, h: History, n: NodeId, request: AppendRequest, peers: seq<NodeId>, responses: seq<AppendResponse>)
    returns (g: History)
    requires Inv(c, h) && Genuine(c, h, request) && Sending(c, n, request) && WellIndexed(request.entries)
    requires forall p :: p in peers ==> p in c.nodes && p != n
    ensures var r := AppendRound(c, n, request, peers, responses);
            Inv(r.cluster, g) && Extends(h, g) && Genuine(r.cluster, g, request) && Sending(r.cluster, n, request)
    decreases |peers|
  {
    hide Inv;
    if peers == [] {
      g := h;
      ExtendsItself(h);
    } else {
      var p := peers[0];
      var (s, response) := ReceiveAppend(c.nodes[p], p, request);
      var c1 := WithNode(c, p, s);
      var h1 := OneAppend(c, h, n, p, request);
      assert c1.nodes.Keys == c.nodes.Keys;
      NotedKeepsInv(c1, h1, n, p, response, request);
      var c2 := WithNode(c1, n, Noted(c1.nodes[n], p, response));
      assert c2.nodes.Keys == c.nodes.Keys;
      g := AppendRoundKeepsInv(c2, h1, n, request, peers[1..], responses + [response]);
      ExtendsIsTransitive(h, h1, g);
    }
  }

  lemma LeaderIsGenuine(c: Cluster, h: History, n: NodeId)
    requires n in c.nodes && Inv(c, h) && c.nodes[n].role == Leader
    ensures Genuine(c, h, AppendRequestOf(c.nodes[n], n)) && Sending(c, n, AppendRequestOf(c.nodes[n], n))
    ensures LogOk(c.nodes[n].log, c.nodes[n].term)
  {
    assert LeaderOk(c, h, n) && NodeOk(c.nodes[n]) && CommitOk(c, h, c.nodes[n]);
  }

  lemma SelfMatchKeepsInv(c: Cluster, h: History, n: NodeId)
    requires n in c.nodes && Inv(c, h)
    ensures var x := c.nodes[n];
            Inv(WithNode(c, n, x.(matchIndex := x.matchIndex[n := LastPosition(x.log).index])), h)
  {
    hide Inv;
    var x := c.nodes[n];
    var s := x.(matchIndex := x.matchIndex[n := LastPosition(x.log).index]);
    InvAt(c, h, n);
    assert LastPosition(x.log).index == |x.log|;
    assert s.role == Leader ==> s.matchIndex.Keys == c.nodes.Keys;
    QuietKeepsInv(c, h, n, s);
    SameVote(c, h, n, s);
  }

  /** After a replication round the sender either still leads its term or is in a term no entry of its log has. */
  ghost predicate LeadsOrMovedOn(s: NodeState) {
    s.role != Leader ==> forall k :: 0 <= k < |s.log| ==> s.log[k].term < s.term
  }

  lemma ReplicateKeepsInv(c: Cluster, h: History, n: NodeId) returns (g: History)
    requires WellFormed(c) && n in c.nodes && Inv(c, h) && c.nodes[n].role == Leader
    ensures var d := ReplicateFrom(c, n).cluster;
            Inv(d, g) && Extends(h, g) && LeadsOrMovedOn(d.nodes[n]) && d.nodes[n].log == c.nodes[n].log
            && d.nodes[n].term >= c.nodes[n].term
  {
    hide Inv;
    LeaderIsGenuine(c, h, n);
    var request := AppendRequestOf(c.nodes[n], n);
    g := AppendRoundKeepsInv(c, h, n, request, ReachablePeers(c, n), []);
    var r := AppendRound(c, n, request, ReachablePeers(c, n), []);
    SelfMatchKeepsInv(r.cluster, g, n);
  }

  // ---------- the commit step ----------

  /** A qualifying index of a sitting leader is chosen. */
  lemma QualifiedIsChosen(c: Cluster, h: History, n: NodeId, index: nat)
    requires n in c.nodes && LeaderOk(c, h, n) && c.nodes[n].role == Leader
    requires 1 <= index <= |c.nodes[n].log| && Qualifies(c.nodes[n], Majority(c), index)
    ensures Committed(h, c.nodes.Keys, c.nodes[n].log[..index], c.nodes[n].term)
  {
    var s := c.nodes[n];
    assert |c.nodes| == |c.nodes.Keys|;
    SubsetSize(Holders(s, index), Acked(h, c.nodes.Keys, s.term, index));
    assert Chosen(h, c.nodes.Keys, s.term, index);
  }

  lemma AdvanceKeepsInv(c: Cluster, h: History, n: NodeId)
    requires n in c.nodes && Inv(c, h) && LeadsOrMovedOn(c.nodes[n]) && c.nodes[n].commit <= |c.nodes[n].log|
    ensures var (d, moved) := AdvanceAt(c, n);
            && Inv(d, h) && (moved ==> d.nodes[n].role == Leader)
            && d.nodes[n].log == c.nodes[n].log && d.nodes[n].term == c.nodes[n].term
  {
    hide Inv;
    var x := c.nodes[n];
    InvAt(c, h, n);
    var index := CommitCandidate(x, Majority(c), |x.log|);
    if index == x.commit {
      assert WithNode(c, n, x) == c;
    } else {
      assert x.role == Leader;
      QualifiedIsChosen(c, h, n, index);
      var y := x.(commit := index);
      var s := ApplyCommitted(y);
      ApplyCommittedReplays(y);
      assert CommitOk(c, h, s);
      SoftKeepsInv(c, h, n, s);
      SameVote(c, h, n, s);
    }
  }

  lemma SettleKeepsInv(c: Cluster, h: History, n: NodeId) returns (g: History)
    requires WellFormed(c) && n in c.nodes && Inv(c, h) && LeadsOrMovedOn(c.nodes[n])
    ensures var d := Settle(c, n).0;
            Inv(d, g) && Extends(h, g) && d.nodes[n].log == c.nodes[n].log
  {
    hide Inv, ReplicateFrom;
    AdvanceKeepsInv(c, h, n);
    var (d, moved) := AdvanceAt(c, n);
    FrameKeepsWellFormed(c, d);
    if moved && IsRunning(d, n) {
      g := ReplicateKeepsInv(d, h, n);
    } else {
      g := h;
      ExtendsItself(h);
    }
  }

  lemma SubmitKeepsInv(c: Cluster, h: History, n: NodeId, command: Command) returns (g: History)
    requires WellFormed(c) && Inv(c, h)
    ensures var d := SubmitCommand(c, n, command).0;
            && Inv(d, g) && Extends(h, g)
            && (LeaderError(c, n) == None ==> d.nodes[n].log == AppendLocal(c.nodes[n], n, command).log)
  {
    hide Inv, Settle, ReplicateFrom, WellFormed, Extends;
    if LeaderError(c, n) != None {
      g := h;
      ExtendsItself(h);
    } else {
      AppendKeepsInv(c, h, n, command);
      var c1, h1 := Appended(c, n, command), AppendedHistory(c, h, n, command);
      assert c1 == AppendAt(c, n, command);
      FrameKeepsWellFormed(c, c1);
      var h2 := ReplicateKeepsInv(c1, h1, n);
      var c2 := ReplicateFrom(c1, n).cluster;
      FrameKeepsWellFormed(c1, c2);
      var h3 := SettleKeepsInv(c2, h2, n);
      ExtendsIsTransitive(h, h1, h2);
      ExtendsIsTransitive(h, h2, h3);
      g := h3;
    }
  }

  // ---------- one step ----------

  lemma StepKeepsInv(c: Cluster, h: History, e: Event) returns (g: History)
    requires WellFormed(c) && Inv(c, h) && CleanStep(c, e)
    ensures Inv(Step(c, e), g) && Extends(h, g)
  {
    hide Inv, WellFormed, TriggerTimeout, SubmitCommand, ReplicateFrom, CleanRound, SameFrame, Extends, Restart;
    g := h;
    ExtendsItself(h);
    match e
    case SetPartition(groups) => GroupsDoNotMatter(c, h, groups);
    case Heal => GroupsDoNotMatter(c, h, [c.nodes.Keys]);
    case CrashNode(n) =>
      if n in c.nodes {
        QuietKeepsInv(c, h, n, Crash(c.nodes[n]));
        InvAt(c, h, n);
        SameVote(c, h, n, Crash(c.nodes[n]));
      }
    case RestartNode(n) => if n in c.nodes { RestartKeepsInv(c, h, n); }
    case TriggerTimeoutOf(n) => g := TimeoutKeepsInv(c, h, n);
    case SubmitTo(n, command) => g := SubmitKeepsInv(c, h, n, command);
    case ReplicateOf(n) =>
      if LeaderError(c, n) == None { g := ReplicateKeepsInv(c, h, n); }
  }

  lemma GroupsDoNotMatter(c: Cluster, h: History, groups: seq<set<NodeId>>)
    requires Inv(c, h)
    ensures Inv(c.(groups := groups), h)
  {
    var d := c.(groups := groups);
    assert forall n :: n in c.nodes && LeaderOk(c, h, n) ==> LeaderOk(d, h, n);
    assert forall t: nat, k: nat :: Choosable(d, h, t, k) ==> Choosable(c, h, t, k);
  }

  lemma InitialInv(ids: seq<NodeId>)
    requires Init(ids).Ok?
    ensures Inv(Init(ids).value, EMPTY_HISTORY)
  {
    var c := Init(ids).value;
    assert INITIAL.log[..0] == [];
    assert forall n :: n in c.nodes ==> c.nodes[n] == INITIAL;
  }
}
