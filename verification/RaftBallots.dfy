/** What a timeout and a replication do to every node (lab 25), read off the state before the call. */
module RaftBallots {
  import opened Options
  import opened Sequences
  import opened RaftNode
  import opened RaftCluster
  import opened RaftCommits
  import opened RaftSteps
  import opened RaftProgress

  // ---------- who supports whom ----------

  /** The first log ends in a later term than the second, or in the same one and is no shorter. */
  ghost predicate UpToDate(mine: seq<Entry>, theirs: seq<Entry>) {
    theirs == [] || (mine != [] && var (a, b) := (mine[|mine| - 1].term, theirs[|theirs| - 1].term); a > b || (a == b && |mine| >= |theirs|))
  }

  /** In the term after the candidate's own, this node can still give it its vote, and its log is no more up to date. */
  ghost predicate Supports(c: Cluster, n: NodeId, p: NodeId)
    requires n in c.nodes && p in c.nodes
  {
    var s, term := c.nodes[p], c.nodes[n].term + 1;
    && (s.term < term || (s.term == term && (s.votedFor == None || s.votedFor == Some(n))))
    && UpToDate(c.nodes[n].log, s.log)
  }

  lemma SupportIsGrant(c: Cluster, n: NodeId, p: NodeId)
    requires WellFormed(c) && n in c.nodes && p in c.nodes
    ensures Supports(c, n, p) <==> WouldGrant(c.nodes[p], VoteRequestOf(StartElection(c.nodes[n], n), n))
  {
    assert WellIndexed(c.nodes[n].log) && WellIndexed(c.nodes[p].log);
  }

  // ---------- a vote round ----------

  /** How many of the peers are asked: up to and without the first in a later term than the candidate's new one. */
  ghost predicate Asked(c: Cluster, n: NodeId, k: nat)
    requires WellFormed(c) && n in c.nodes
  {
    var peers, term := ReachablePeers(c, n), c.nodes[n].term + 1;
    && k <= |peers|
    && (forall i :: 0 <= i < k ==> c.nodes[peers[i]].term <= term)
    && (k < |peers| ==> c.nodes[peers[k]].term > term)
  }

  /** What a vote request leaves of a node. */
  ghost predicate Voted(s: NodeState, t: NodeState, n: NodeId, term: nat, supports: bool) {
    if supports then t == s.(term := term, votedFor := Some(n), role := Follower, leaderId := None, matchIndex := t.matchIndex)
    else if s.term < term then t == s.(term := term, votedFor := None, role := Follower, leaderId := None, matchIndex := map[])
    else t == s
  }

  lemma VoteLeaves(s: NodeState, p: NodeId, request: VoteRequest)
    ensures Voted(s, ReceiveVote(s, p, request).0, request.candidate, request.term, WouldGrant(s, request))
  {
  }

  /** The first peer is asked, or is in a later term and ends the round. */
  lemma AskOne(c: Cluster, n: NodeId, request: VoteRequest, peers: seq<NodeId>, granted: set<NodeId>) returns (d: Cluster, more: set<NodeId>)
    requires n in c.nodes && c.nodes[n].term == request.term && peers != [] && peers[0] != n && forall q :: q in peers ==> q in c.nodes
    ensures d.nodes.Keys == c.nodes.Keys && d.nodes[peers[0]] == ReceiveVote(c.nodes[peers[0]], peers[0], request).0
    ensures forall p :: p in c.nodes && p != peers[0] ==> d.nodes[p] == c.nodes[p]
    ensures c.nodes[peers[0]].term <= request.term ==> VoteRound(c, n, request, peers, granted) == VoteRound(d, n, request, peers[1..], more)
    ensures c.nodes[peers[0]].term > request.term ==>
              var e := VoteRound(c, n, request, peers, granted).cluster;
              forall p :: p in c.nodes && p != n ==> p in e.nodes && e.nodes[p] == d.nodes[p] == c.nodes[p]
  {
    var q := peers[0];
    VoteRoundCons(c, n, request, peers, granted);
    VoteAnswer(c.nodes[q], q, request);
    if c.nodes[q].term > request.term {
      LaterAnswer(c.nodes[q], q, request);
    }
    hide ReceiveVote, WouldGrant, ObserveHigherTerm, VoteRound, Sane;
    var (s, response) := ReceiveVote(c.nodes[q], q, request);
    d, more := c.(nodes := c.nodes[q := s]), if response.granted then granted + {q} else granted;
  }

  /** Every asked peer answers for the state it had before the round, and nobody else but the candidate changes. */
  lemma {:induction false} VotersLeft(c: Cluster, n: NodeId, request: VoteRequest, peers: seq<NodeId>, granted: set<NodeId>, p: NodeId)
    requires n in c.nodes && c.nodes[n].term == request.term && Distinct(peers) && p in c.nodes && p != n
    requires forall q :: q in peers ==> q in c.nodes && q != n
    ensures var d := VoteRound(c, n, request, peers, granted).cluster;
            p in d.nodes && d.nodes[p] ==
            if p in peers[..FirstAhead(c, peers, request.term)] then ReceiveVote(c.nodes[p], p, request).0 else c.nodes[p]
    decreases |peers|
  {
    hide ReceiveVote, VoteRound, Distinct;
    if peers == [] {
      VoteRoundNil(c, n, request, granted);
    } else {
      var q, rest := peers[0], peers[1..];
      DistinctTail(peers);
      var d, more := AskOne(c, n, request, peers, granted);
      if c.nodes[q].term <= request.term {
        var k := FirstAhead(c, rest, request.term);
        VotersLeft(d, n, request, rest, more, p);
        SameAhead(c, d, rest, request.term);
        assert peers[..k + 1] == [q] + rest[..k];
      }
    }
  }

  lemma LaterAnswer(s: NodeState, p: NodeId, request: VoteRequest)
    requires s.term > request.term
    ensures ReceiveVote(s, p, request).0 == s
  {
  }

  lemma {:induction false} SameAhead(c: Cluster, d: Cluster, peers: seq<NodeId>, term: nat)
    requires forall p :: p in peers ==> p in c.nodes && p in d.nodes && d.nodes[p] == c.nodes[p]
    ensures FirstAhead(d, peers, term) == FirstAhead(c, peers, term)
  {
    if peers != [] {
      SameAhead(c, d, peers[1..], term);
    }
  }

  lemma AskedIsFirstAhead(c: Cluster, n: NodeId, k: nat)
    requires WellFormed(c) && n in c.nodes && Asked(c, n, k)
    ensures k == FirstAhead(c, ReachablePeers(c, n), c.nodes[n].term + 1)
  {
    hide WellFormed, ReachablePeers;
  }

  /** The votes: the candidate's own and those of the asked peers that support it. */
  ghost function Votes(c: Cluster, n: NodeId, k: nat): set<NodeId>
    requires WellFormed(c) && n in c.nodes && k <= |ReachablePeers(c, n)|
  {
    {n} + set p | p in ReachablePeers(c, n)[..k] && Supports(c, n, p)
  }

  /** The candidate after the round, and its answer. */
  ghost predicate Campaigned(s: NodeState, t: NodeState, n: NodeId, all: set<NodeId>, reached: nat, later: bool, won: bool) {
    && t == s.(term := reached, votedFor := if later then None else Some(n), role := t.role, leaderId := t.leaderId, matchIndex := t.matchIndex)
    && t.role == (if won then Leader else if later then Follower else Candidate)
    && t.leaderId == (if won then Some(n) else None)
    && (won ==> t.matchIndex.Keys == all && forall p :: p in all ==> t.matchIndex[p] == if p == n then |s.log| else 0)
  }

  /** The term in which the candidate meets a peer that is ahead of its new one, if it does. */
  ghost function LaterTerm(c: Cluster, n: NodeId, k: nat): Option<nat>
    requires WellFormed(c) && n in c.nodes && k <= |ReachablePeers(c, n)|
  {
    if k < |ReachablePeers(c, n)| then Some(c.nodes[ReachablePeers(c, n)[k]].term) else None
  }

  function Overtaken(candidate: NodeState, later: Option<nat>): NodeState {
    if later.Some? then ObserveHigherTerm(candidate, later.value) else candidate
  }

  lemma VotesAre(c: Cluster, n: NodeId, k: nat)
    requires WellFormed(c) && n in c.nodes && k <= |ReachablePeers(c, n)|
    ensures {n} + Granters(c, ReachablePeers(c, n)[..k], VoteRequestOf(StartElection(c.nodes[n], n), n)) == Votes(c, n, k)
  {
    var peers := ReachablePeers(c, n);
    forall p | p in peers[..k]
      ensures Supports(c, n, p) <==> WouldGrant(c.nodes[p], VoteRequestOf(StartElection(c.nodes[n], n), n))
    {
      SupportIsGrant(c, n, p);
    }
    hide Supports, WouldGrant, WellFormed, ReachablePeers, VoteRequestOf, StartElection;
  }

  lemma RequestMeans(c: Cluster, n: NodeId)
    requires n in c.nodes
    ensures var q, s := VoteRequestOf(StartElection(c.nodes[n], n), n), StartElection(c.nodes[n], n);
            q.candidate == n && q.term == c.nodes[n].term + 1 == s.term
  {
  }

  lemma PeersMean(c: Cluster, n: NodeId)
    requires WellFormed(c) && n in c.nodes
    ensures Distinct(ReachablePeers(c, n)) && forall p :: p in ReachablePeers(c, n) ==> p in c.nodes && p != n
  {
  }

  lemma RoundIs(c: Cluster, n: NodeId)
    requires WellFormed(c) && n in c.nodes
    ensures var s := StartElection(c.nodes[n], n);
            TimeoutRound(c, n) == VoteRound(WithNode(c, n, s), n, VoteRequestOf(s, n), ReachablePeers(c, n), {n})
  {
    hide WellFormed, VoteRound, ReachablePeers, StartElection, VoteRequestOf;
  }

  lemma FrameMeans(c: Cluster, d: Cluster)
    requires SameFrame(c, d)
    ensures d.order == c.order && d.groups == c.groups && d.nodes.Keys == c.nodes.Keys && d.leaderByTerm == c.leaderByTerm
  {
  }

  lemma RoundMeans(c: Cluster, n: NodeId, k: nat) returns (r: Round)
    requires WellFormed(c) && IsRunning(c, n) && Asked(c, n, k)
    ensures r == TimeoutRound(c, n) && r.granted == Votes(c, n, k)
    ensures var d := r.cluster;
            && d.order == c.order && d.groups == c.groups && d.nodes.Keys == c.nodes.Keys && d.leaderByTerm == c.leaderByTerm
            && d.nodes[n] == Overtaken(StartElection(c.nodes[n], n), LaterTerm(c, n, k))
            && forall p :: p in c.nodes && p != n ==>
                 if p in ReachablePeers(c, n)[..k] then Voted(c.nodes[p], d.nodes[p], n, c.nodes[n].term + 1, Supports(c, n, p))
                 else d.nodes[p] == c.nodes[p]
  {
    var peers, candidate := ReachablePeers(c, n), StartElection(c.nodes[n], n);
    var request, c1 := VoteRequestOf(candidate, n), WithNode(c, n, candidate);
    r := TimeoutRound(c, n);
    AskedIsFirstAhead(c, n, k);
    RequestMeans(c, n);
    PeersMean(c, n);
    VotesAre(c, n, k);
    RoundIs(c, n);
    FrameMeans(c, r.cluster);
    hide TimeoutRound, VoteRequestOf, WellFormed, ReachablePeers, FirstAhead, VoteRound, StartElection, ObserveHigherTerm, Asked,
         Granters, Votes, Voted, Supports, ReceiveVote, WouldGrant, Distinct, IsRunning, SameFrame;
    SameAhead(c, c1, peers, request.term);
    VoteRoundOutcome(c, c1, n, request, peers, {n});
    forall p | p in c.nodes && p != n
      ensures if p in peers[..k] then Voted(c.nodes[p], r.cluster.nodes[p], n, request.term, Supports(c, n, p))
              else r.cluster.nodes[p] == c.nodes[p]
    {
      VotersLeft(c1, n, request, peers, {n}, p);
      SupportIsGrant(c, n, p);
      VoteLeaves(c.nodes[p], p, request);
    }
  }

  lemma IsNode(c: Cluster, n: NodeId)
    requires IsRunning(c, n)
    ensures n in c.nodes && c.nodes[n].running
  {
  }

  /** A majority is more than half. */
  lemma WonMeans(c: Cluster, n: NodeId, k: nat)
    requires WellFormed(c) && n in c.nodes && k <= |ReachablePeers(c, n)|
    ensures |Votes(c, n, k)| >= Majority(c) <==> 2 * |Votes(c, n, k)| > |c.nodes|
  {
    hide WellFormed, Votes, ReachablePeers;
    assert |c.nodes| == |c.nodes.Keys|;
  }

  lemma PromoteMeans(c: Cluster, n: NodeId)
    requires n in c.nodes
    ensures var (d, r) := Promote(c, n);
            var s, t := c.nodes[n], d.nodes[n];
            && d == c.(nodes := c.nodes[n := t], leaderByTerm := d.leaderByTerm) && d.nodes.Keys == c.nodes.Keys
            && t == s.(role := Leader, leaderId := Some(n), matchIndex := t.matchIndex)
            && t.matchIndex.Keys == c.nodes.Keys
            && (forall p :: p in c.nodes ==> t.matchIndex[p] == if p == n then LastPosition(s.log).index else 0)
            && (r == Err(LeadershipConflict) <==> s.term in c.leaderByTerm && c.leaderByTerm[s.term] != n)
            && (r != Err(LeadershipConflict) ==> r == Ok(Leader))
            && d.leaderByTerm == if r.Ok? then c.leaderByTerm[s.term := n] else c.leaderByTerm
  {
    hide LastPosition, Sane;
  }

  lemma TimeoutIs(c: Cluster, n: NodeId)
    requires WellFormed(c) && IsRunning(c, n)
    ensures var r := TimeoutRound(c, n);
            TriggerTimeout(c, n) == if |r.granted| >= Majority(c) then Promote(r.cluster, n) else (r.cluster, Ok(r.cluster.nodes[n].role))
  {
    hide WellFormed, TimeoutRound, Promote, Majority;
  }

  lemma AskedMeans(c: Cluster, n: NodeId, k: nat)
    requires WellFormed(c) && n in c.nodes && Asked(c, n, k)
    ensures k <= |ReachablePeers(c, n)| && LastPosition(c.nodes[n].log).index == |c.nodes[n].log|
    ensures LaterTerm(c, n, k) == if k < |ReachablePeers(c, n)| then Some(c.nodes[ReachablePeers(c, n)[k]].term) else None
    ensures LaterTerm(c, n, k).Some? ==> LaterTerm(c, n, k).value > c.nodes[n].term + 1
  {
    assert WellIndexed(c.nodes[n].log);
    hide WellFormed, ReachablePeers;
  }

  lemma CampaignedIntro(s: NodeState, t: NodeState, n: NodeId, all: set<NodeId>, later: Option<nat>, won: bool)
    requires t == s.(term := if later.Some? then later.value else s.term + 1, votedFor := if later.Some? then None else Some(n),
                     role := t.role, leaderId := t.leaderId, matchIndex := t.matchIndex)
    requires t.role == (if won then Leader else if later.Some? then Follower else Candidate)
    requires t.leaderId == (if won then Some(n) else None)
    requires won ==> t.matchIndex.Keys == all && forall p :: p in all ==> t.matchIndex[p] == if p == n then |s.log| else 0
    ensures Campaigned(s, t, n, all, if later.Some? then later.value else s.term + 1, later.Some?, won)
  {
  }

  lemma CandidateEnds(s: NodeState, t: NodeState, n: NodeId, later: Option<nat>)
    requires t == Overtaken(StartElection(s, n), later) && (later.Some? ==> later.value > s.term + 1)
    ensures t == s.(term := if later.Some? then later.value else s.term + 1, votedFor := if later.Some? then None else Some(n),
                    role := t.role, leaderId := None, matchIndex := t.matchIndex)
    ensures t.role == if later.Some? then Follower else Candidate
  {
  }

  /**
   * A timeout asks the reachable peers in cluster order for their vote in the next term, up to the first that is in a later
   * one, whose term the candidate then takes over. Each asked peer moves to the candidate's term, and votes for it if it can;
   * nobody else but the candidate changes. The candidate leads if more than half of all nodes voted for it, and otherwise
   * stays a candidate, or is a follower if it met a later term. Its leadership is put on record, or refused as a conflict
   * with somebody else's in that term.
   */
  lemma TimeoutExactly(c: Cluster, n: NodeId, k: nat)
    requires WellFormed(c) && IsRunning(c, n) && Asked(c, n, k)
    ensures var (d, r) := TriggerTimeout(c, n);
            var peers, term := ReachablePeers(c, n), c.nodes[n].term + 1;
            var later := k < |peers|;
            var reached := if later then c.nodes[peers[k]].term else term;
            var won := 2 * |Votes(c, n, k)| > |c.nodes|;
            && d.order == c.order && d.groups == c.groups && d.nodes.Keys == c.nodes.Keys
            && (forall p :: p in c.nodes && p != n ==>
                  if p in peers[..k] then Voted(c.nodes[p], d.nodes[p], n, term, Supports(c, n, p)) else d.nodes[p] == c.nodes[p])
            && Campaigned(c.nodes[n], d.nodes[n], n, c.nodes.Keys, reached, later, won)
            && (r == Err(LeadershipConflict) <==> won && reached in c.leaderByTerm && c.leaderByTerm[reached] != n)
            && (r != Err(LeadershipConflict) ==> r == Ok(d.nodes[n].role))
            && d.leaderByTerm == if won && r.Ok? then c.leaderByTerm[reached := n] else c.leaderByTerm
  {
    hide *;
    IsNode(c, n);
    AskedMeans(c, n, k);
    var r := RoundMeans(c, n, k);
    WonMeans(c, n, k);
    PromoteMeans(r.cluster, n);
    TimeoutIs(c, n);
    CandidateEnds(c.nodes[n], r.cluster.nodes[n], n, LaterTerm(c, n, k));
    CampaignedIntro(c.nodes[n], TriggerTimeout(c, n).0.nodes[n], n, c.nodes.Keys, LaterTerm(c, n, k), |Votes(c, n, k)| >= Majority(c));
  }

  // ---------- a replication ----------

  /** What an accepted log leaves of a node. */
  ghost predicate TookLog(s: NodeState, t: NodeState, leader: NodeState, n: NodeId) {
    && t.log == leader.log && t.commit == leader.commit && t.term == leader.term
    && t.role == Follower && t.leaderId == Some(n) && t.running == s.running
    && t.votedFor == if s.term == leader.term then s.votedFor else None
  }

  lemma AcceptedTakesLog(c: Cluster, n: NodeId, p: NodeId)
    requires WellFormed(c) && n in c.nodes && p in c.nodes && c.nodes[p].term <= c.nodes[n].term
    ensures TookLog(c.nodes[p], ReceiveAppend(c.nodes[p], p, AppendRequestOf(c.nodes[n], n)).0, c.nodes[n], n)
  {
    var s, q := c.nodes[p], AppendRequestOf(c.nodes[n], n);
    assert c.nodes[n].commit <= |c.nodes[n].log|;
    hide WellFormed;
    var s1 := ObserveHigherTerm(s, q.term).(role := Follower, leaderId := Some(q.leader));
    RebuildReplays(s1.(log := q.entries, commit := Min(s1.commit, |q.entries|)));
    var s2 := ReplaceLog(s1, q.entries);
    ApplyCommittedKeepsLog(s2.(commit := Min(q.leaderCommit, |s2.log|)));
  }

  /** The greatest term among some nodes and a term. */
  ghost predicate IsHighest(c: Cluster, peers: seq<NodeId>, own: nat, term: nat)
    requires forall p :: p in peers ==> p in c.nodes
  {
    && own <= term && (forall p :: p in peers ==> c.nodes[p].term <= term)
    && (term == own || exists p :: p in peers && c.nodes[p].term == term)
  }

  /** What answers in terms up to `term` leave of the sender, apart from what it notes of the others' logs. */
  ghost predicate Answered(s: NodeState, t: NodeState, term: nat) {
    if s.term < term then t == s.(term := term, votedFor := None, role := Follower, leaderId := None, matchIndex := t.matchIndex)
    else t == s.(matchIndex := t.matchIndex)
  }

  lemma NotedAnswer(s: NodeState, p: NodeId, response: AppendResponse)
    ensures Answered(s, Noted(s, p, response), Max(s.term, response.term)) && Noted(s, p, response).term == Max(s.term, response.term)
  {
  }

  lemma AnsweredTwice(s: NodeState, t: NodeState, r: NodeState)
    requires s.term <= t.term <= r.term && Answered(s, t, t.term) && Answered(t, r, r.term)
    ensures Answered(s, r, r.term)
  {
  }

  lemma {:induction false} SenderAnswered(c: Cluster, n: NodeId, request: AppendRequest, peers: seq<NodeId>, responses: seq<AppendResponse>)
    requires WellIndexed(request.entries) && n in c.nodes && Distinct(peers) && request.term <= c.nodes[n].term
    requires forall p :: p in peers ==> p in c.nodes && p != n
    ensures var d := AppendRound(c, n, request, peers, responses).cluster;
            && n in d.nodes && Answered(c.nodes[n], d.nodes[n], d.nodes[n].term)
            && IsHighest(c, peers, c.nodes[n].term, d.nodes[n].term)
    decreases |peers|
  {
    hide ReceiveAppend, AppendRound, WellIndexed, Noted, Answered;
    if peers == [] {
      AppendRoundNil(c, n, request, responses);
      AnsweredNone(c.nodes[n]);
    } else {
      var p, rest := peers[0], peers[1..];
      DistinctTail(peers);
      hide Distinct;
      var d, response := DeliverOne(c, n, request, peers, responses);
      Answer(c.nodes[p], p, request);
      NotedAnswer(c.nodes[n], p, response);
      SenderAnswered(d, n, request, rest, responses + [response]);
      AnsweredTwice(c.nodes[n], d.nodes[n], AppendRound(d, n, request, rest, responses + [response]).cluster.nodes[n]);
    }
  }

  lemma AnsweredNone(s: NodeState)
    ensures Answered(s, s, s.term)
  {
  }

  /** The answer of a node in reach: its term and, if it took the log, that it holds all of it. */
  ghost function AnswerOf(c: Cluster, n: NodeId, p: NodeId): AppendResponse
    requires n in c.nodes && p in c.nodes
  {
    if c.nodes[p].term <= c.nodes[n].term then AppendResponse(c.nodes[n].term, p, true, |c.nodes[n].log|)
    else AppendResponse(c.nodes[p].term, p, false, |c.nodes[p].log|)
  }

  /**
   * A running leader sends its log to all it reaches. Those in no later term take over log, commit index and term and follow
   * it; the others answer with their term; nobody else changes. The leader goes on unless it was told of a later term: then
   * it follows nobody, in the latest term it was told of. The answers are listed in cluster order.
   */
  lemma ReplicateExactly(c: Cluster, n: NodeId)
    requires WellFormed(c) && LeaderError(c, n) == None
    ensures n in c.nodes
    ensures var (d, r) := ReplicateFromLeader(c, n);
            var peers := ReachablePeers(c, n);
            && d.order == c.order && d.groups == c.groups && d.nodes.Keys == c.nodes.Keys && d.leaderByTerm == c.leaderByTerm
            && (forall p :: p in c.nodes && p != n ==>
                  if p in Takers(c, n) then TookLog(c.nodes[p], d.nodes[p], c.nodes[n], n) else d.nodes[p] == c.nodes[p])
            && IsHighest(c, peers, c.nodes[n].term, d.nodes[n].term) && Answered(c.nodes[n], d.nodes[n], d.nodes[n].term)
            && r.Ok? && |r.value| == |peers| && forall i :: 0 <= i < |peers| ==> r.value[i] == AnswerOf(c, n, peers[i])
  {
    hide *;
    LeaderFacts(c, n);
    RequestParts(c.nodes[n], n);
    SaneLog(c, n);
    PeersMean(c, n);
    ReplicateIs(c, n);
    RepliesOf(c, n);
    FrameMeans(c, ReplicateFromLeader(c, n).0);
    var peers, request := ReachablePeers(c, n), AppendRequestOf(c.nodes[n], n);
    SenderAnswered(c, n, request, peers, []);
    SenderEnds(c, n);
    RoundAnswers(c, n, request, peers, []);
    ReplicateDelivers(c, n);
    TakersAre(c, n);
    forall p | p in c.nodes && p != n
      ensures if p in Takers(c, n) then TookLog(c.nodes[p], ReplicateFrom(c, n).cluster.nodes[p], c.nodes[n], n)
              else ReplicateFrom(c, n).cluster.nodes[p] == c.nodes[p]
    {
      if c.nodes[p].term <= c.nodes[n].term {
        AcceptedTakesLog(c, n, p);
      } else {
        StaleRequest(c.nodes[p], p, request);
      }
    }
    AnswerCount(c, request, peers);
    forall i | 0 <= i < |peers| ensures Answers(c, request, peers)[i] == AnswerOf(c, n, peers[i]) {
      AnswerIs(c, n, peers, i);
    }
  }

  lemma AnswerCount(c: Cluster, request: AppendRequest, peers: seq<NodeId>)
    requires forall p :: p in peers ==> p in c.nodes
    ensures |Answers(c, request, peers)| == |peers| && [] + Answers(c, request, peers) == Answers(c, request, peers)
  {
  }

  lemma AnswerIs(c: Cluster, n: NodeId, peers: seq<NodeId>, i: nat)
    requires WellFormed(c) && n in c.nodes && i < |peers| && forall p :: p in peers ==> p in c.nodes
    ensures var answers := Answers(c, AppendRequestOf(c.nodes[n], n), peers);
            i < |answers| && answers[i] == AnswerOf(c, n, peers[i])
  {
    var s, q := c.nodes[peers[i]], AppendRequestOf(c.nodes[n], n);
    assert WellIndexed(s.log) && WellIndexed(c.nodes[n].log);
    hide WellFormed;
    Answer(s, peers[i], q);
    if s.term > q.term {
      StaleAnswer(s, peers[i], q);
    }
    hide ReceiveAppend;
  }

  lemma StaleAnswer(s: NodeState, p: NodeId, q: AppendRequest)
    requires WellIndexed(s.log) && q.term < s.term
    ensures ReceiveAppend(s, p, q).1 == AppendResponse(s.term, p, false, |s.log|)
  {
  }

  lemma ReplicateIs(c: Cluster, n: NodeId)
    requires WellFormed(c) && LeaderError(c, n) == None && n in c.nodes
    ensures ReplicateFromLeader(c, n) == (ReplicateFrom(c, n).cluster, Ok(ReplicateFrom(c, n).responses))
    ensures SameFrame(c, ReplicateFromLeader(c, n).0)
  {
    hide WellFormed, ReplicateFrom, LeaderError, SameFrame;
  }

  lemma SenderEnds(c: Cluster, n: NodeId)
    requires WellFormed(c) && n in c.nodes && WellIndexed(AppendRequestOf(c.nodes[n], n).entries)
    ensures var t := AppendRound(c, n, AppendRequestOf(c.nodes[n], n), ReachablePeers(c, n), []).cluster.nodes[n];
            var u := ReplicateFrom(c, n).cluster.nodes[n];
            u.term == t.term && (Answered(c.nodes[n], t, t.term) ==> Answered(c.nodes[n], u, u.term))
  {
    hide WellFormed, AppendRound, ReachablePeers, WellIndexed, LastPosition;
  }
}
