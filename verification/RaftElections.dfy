/** Election safety over any runs at all, and exactly which of them have it (lab 25). */
module RaftElections {
  import opened Options
  import opened RelayTasks
  import opened RaftNode
  import opened RaftCluster
  import opened RaftSteps
  import opened RaftCommits

  // ---------- what calls other than a won election do to leaders ----------

  /** Who leads afterwards led before, in the same term. */
  ghost predicate LeadStays(s: NodeState, t: NodeState) {
    t.role == Leader ==> s.role == Leader && t.term == s.term
  }

  ghost predicate NoNewLeaders(c: Cluster, d: Cluster) {
    d.nodes.Keys == c.nodes.Keys && d.leaderByTerm == c.leaderByTerm && forall n :: n in c.nodes ==> LeadStays(c.nodes[n], d.nodes[n])
  }

  lemma NoNewLeadersChain(c: Cluster, d: Cluster, e: Cluster)
    requires NoNewLeaders(c, d) && NoNewLeaders(d, e)
    ensures NoNewLeaders(c, e)
  {
    forall n | n in c.nodes ensures LeadStays(c.nodes[n], e.nodes[n]) {
      assert LeadStays(c.nodes[n], d.nodes[n]);
    }
  }

  lemma OneNodeChanges(c: Cluster, n: NodeId, s: NodeState)
    requires n in c.nodes && LeadStays(c.nodes[n], s)
    ensures NoNewLeaders(c, c.(nodes := c.nodes[n := s]))
  {
  }

  lemma AppendDeposes(s: NodeState, id: NodeId, request: AppendRequest)
    ensures LeadStays(s, ReceiveAppend(s, id, request).0)
  {
    if s.term <= request.term {
      var s1 := ObserveHigherTerm(s, request.term).(role := Follower, leaderId := Some(request.leader));
      RebuildReplays(s1.(log := request.entries, commit := Min(s1.commit, |request.entries|)));
      var s2 := ReplaceLog(s1, request.entries);
      ApplyCommittedKeepsLog(s2.(commit := Min(request.leaderCommit, |s2.log|)));
    }
  }

  lemma ReplicateSeatsNobody(c: Cluster, n: NodeId)
    requires WellFormed(c) && n in c.nodes
    ensures NoNewLeaders(c, ReplicateFrom(c, n).cluster)
  {
    hide WellFormed, ReplicateFrom, ReceiveAppend, ReachablePeers;
    ReplicateDelivers(c, n);
    var d := ReplicateFrom(c, n).cluster;
    forall p | p in c.nodes ensures LeadStays(c.nodes[p], d.nodes[p]) {
      AppendDeposes(c.nodes[p], p, AppendRequestOf(c.nodes[n], n));
    }
  }

  lemma AdvanceSeatsNobody(c: Cluster, n: NodeId)
    requires n in c.nodes && c.nodes[n].commit <= |c.nodes[n].log|
    ensures NoNewLeaders(c, AdvanceAt(c, n).0)
  {
    hide AdvanceAt, CommitCandidate;
    AdvancedSender(c, n);
    OneNodeChanges(c, n, AdvanceAt(c, n).0.nodes[n]);
  }

  lemma SettleSeatsNobody(c: Cluster, n: NodeId)
    requires WellFormed(c) && n in c.nodes
    ensures NoNewLeaders(c, Settle(c, n).0)
  {
    hide *;
    SaneSender(c, n);
    var (d, moved) := AdvanceAt(c, n);
    FrameKeepsWellFormed(c, d);
    AdvancedSender(c, n);
    AdvanceSeatsNobody(c, n);
    SettleParts(c, n, d, moved);
    if moved && LeaderError(d, n) == None {
      ReplicateSeatsNobody(d, n);
      NoNewLeadersChain(c, d, ReplicateFrom(d, n).cluster);
    }
  }

  lemma SentOnceSeatsNobody(c: Cluster, n: NodeId, command: Command)
    requires WellFormed(c) && n in c.nodes
    ensures NoNewLeaders(c, SentOnce(c, n, command))
  {
    var c1 := AppendAt(c, n, command);
    FrameKeepsWellFormed(c, c1);
    hide WellFormed, ReplicateFrom;
    OneNodeChanges(c, n, AppendLocal(c.nodes[n], n, command));
    ReplicateSeatsNobody(c1, n);
    NoNewLeadersChain(c, c1, ReplicateFrom(c1, n).cluster);
  }

  lemma SubmitSeatsNobody(c: Cluster, n: NodeId, command: Command)
    requires WellFormed(c) && LeaderError(c, n) == None
    ensures NoNewLeaders(c, SubmitCommand(c, n, command).0)
  {
    hide *;
    IsLeader(c, n);
    SentOnceSeatsNobody(c, n, command);
    SubmitParts(c, n, command);
    SettleSeatsNobody(SentOnce(c, n, command), n);
    NoNewLeadersChain(c, SentOnce(c, n, command), SubmitCommand(c, n, command).0);
  }

  lemma IsLeader(c: Cluster, n: NodeId)
    requires LeaderError(c, n) == None
    ensures n in c.nodes
  {
  }

  lemma RunningIsNode(c: Cluster, n: NodeId)
    requires IsRunning(c, n)
    ensures n in c.nodes
  {
  }

  // ---------- timeouts ----------

  lemma VoteDeposes(s: NodeState, id: NodeId, request: VoteRequest)
    ensures LeadStays(s, ReceiveVote(s, id, request).0)
  {
  }

  lemma HigherTermDeposes(s: NodeState, term: nat)
    ensures LeadStays(s, ObserveHigherTerm(s, term))
  {
  }

  lemma {:induction false} VotesSeatNobody(c: Cluster, n: NodeId, request: VoteRequest, peers: seq<NodeId>, granted: set<NodeId>)
    requires n in c.nodes && forall p :: p in peers ==> p in c.nodes
    ensures NoNewLeaders(c, VoteRound(c, n, request, peers, granted).cluster)
    decreases |peers|
  {
    hide VoteRound, ReceiveVote, ObserveHigherTerm, NoNewLeaders, LeadStays;
    if peers == [] {
      VoteRoundNil(c, n, request, granted);
      SameLeaders(c);
    } else {
      var p := peers[0];
      VoteRoundCons(c, n, request, peers, granted);
      VoteDeposes(c.nodes[p], p, request);
      var (s, response) := ReceiveVote(c.nodes[p], p, request);
      var c1 := c.(nodes := c.nodes[p := s]);
      OneNodeChanges(c, p, s);
      if response.term > c1.nodes[n].term {
        HigherTermDeposes(c1.nodes[n], response.term);
        OneNodeChanges(c1, n, ObserveHigherTerm(c1.nodes[n], response.term));
      } else {
        VotesSeatNobody(c1, n, request, peers[1..], if response.granted then granted + {p} else granted);
      }
      NoNewLeadersChain(c, c1, VoteRound(c, n, request, peers, granted).cluster);
    }
  }

  lemma SameLeaders(c: Cluster)
    ensures NoNewLeaders(c, c)
  {
  }

  /** The round of a timeout seats nobody; only the promotion at its end can. */
  lemma RoundSeatsNobody(c: Cluster, n: NodeId)
    requires WellFormed(c) && n in c.nodes
    ensures NoNewLeaders(c, TimeoutRound(c, n).cluster)
  {
    hide WellFormed, VoteRound, ReachablePeers, NoNewLeaders, LeadStays;
    var candidate := StartElection(c.nodes[n], n);
    var c1 := WithNode(c, n, candidate);
    assert LeadStays(c.nodes[n], candidate) by { CandidateLeadsNothing(c.nodes[n], n); }
    OneNodeChanges(c, n, candidate);
    VotesSeatNobody(c1, n, VoteRequestOf(candidate, n), ReachablePeers(c, n), {n});
    NoNewLeadersChain(c, c1, TimeoutRound(c, n).cluster);
  }

  lemma CandidateLeadsNothing(s: NodeState, n: NodeId)
    ensures LeadStays(s, StartElection(s, n))
  {
  }

  // ---------- leaders and the record of leaders ----------

  ghost predicate Leads(c: Cluster, n: NodeId, term: nat) {
    n in c.nodes && c.nodes[n].role == Leader && c.nodes[n].term == term
  }

  /** Every leader is the one on record for its term. */
  ghost predicate OnRecord(c: Cluster) {
    forall n, term :: Leads(c, n, term) ==> term in c.leaderByTerm && c.leaderByTerm[term] == n
  }

  /** Records stay, and a new one is of somebody who leads. */
  ghost predicate RecordsGrow(c: Cluster, d: Cluster) {
    && (forall term :: term in c.leaderByTerm ==> term in d.leaderByTerm && d.leaderByTerm[term] == c.leaderByTerm[term])
    && forall term :: term in d.leaderByTerm && term !in c.leaderByTerm ==> Leads(d, d.leaderByTerm[term], term)
  }

  /** The call is not a timeout that will seat a node in a term that somebody else is on record for. */
  ghost predicate Uncontested(c: Cluster, e: Event)
    requires WellFormed(c)
  {
    e.TriggerTimeoutOf? && IsRunning(c, e.node) ==> !WillConflict(c, e.node)
  }

  lemma QuietStep(c: Cluster, d: Cluster)
    requires NoNewLeaders(c, d)
    ensures RecordsGrow(c, d) && (OnRecord(c) ==> OnRecord(d))
  {
    if OnRecord(c) {
      forall n, term | Leads(d, n, term) ensures term in d.leaderByTerm && d.leaderByTerm[term] == n {
        assert LeadStays(c.nodes[n], d.nodes[n]);
        assert Leads(c, n, term);
      }
    }
  }

  lemma PromotionSeats(c: Cluster, n: NodeId)
    requires n in c.nodes
    ensures var (d, result) := Promote(c, n);
            && Leads(d, n, c.nodes[n].term)
            && (result == Err(LeadershipConflict) <==> LedByOther(c, c.nodes[n].term, n))
            && RecordsGrow(c, d)
            && (OnRecord(c) && result != Err(LeadershipConflict) ==> OnRecord(d))
  {
    var (d, result) := Promote(c, n);
    if OnRecord(c) && result != Err(LeadershipConflict) {
      forall m, term | Leads(d, m, term) ensures term in d.leaderByTerm && d.leaderByTerm[term] == m {
        if m != n {
          assert Leads(c, m, term);
        }
      }
    }
  }

  lemma RecordsGrowAfter(c: Cluster, d: Cluster, e: Cluster)
    requires NoNewLeaders(c, d) && RecordsGrow(d, e)
    ensures RecordsGrow(c, e)
  {
  }

  lemma TimeoutParts(c: Cluster, n: NodeId)
    requires WellFormed(c) && IsRunning(c, n)
    ensures var r := TimeoutRound(c, n);
            n in r.cluster.nodes && (TriggerTimeout(c, n) == Promote(r.cluster, n) || (TriggerTimeout(c, n).0 == r.cluster && TriggerTimeout(c, n).1.Ok?))
  {
    hide WellFormed, TimeoutRound, Promote;
  }

  /** A timeout: records only grow; leaders stay on record unless it conflicts, and then two have led one term. */
  lemma TimeoutAndRecords(c: Cluster, n: NodeId)
    requires WellFormed(c) && IsRunning(c, n)
    ensures var d := TriggerTimeout(c, n).0;
            && RecordsGrow(c, d)
            && (OnRecord(c) && !WillConflict(c, n) ==> OnRecord(d))
            && (WillConflict(c, n) ==> exists term :: LedByOther(c, term, n) && Leads(d, n, term))
  {
    hide *;
    RunningIsNode(c, n);
    ConflictExactly(c, n);
    TimeoutParts(c, n);
    RoundSeatsNobody(c, n);
    var e := TimeoutRound(c, n).cluster;
    QuietStep(c, e);
    PromotionSeats(e, n);
    SameRecord(c, e, n);
    RecordsGrowAfter(c, e, Promote(e, n).0);
  }

  lemma SameRecord(c: Cluster, e: Cluster, n: NodeId)
    requires NoNewLeaders(c, e)
    ensures forall term :: LedByOther(c, term, n) == LedByOther(e, term, n)
  {
  }

  lemma QuietCall(c: Cluster, e: Event)
    requires WellFormed(c) && !e.TriggerTimeoutOf?
    ensures NoNewLeaders(c, Step(c, e))
  {
    hide WellFormed, SubmitCommand, ReplicateFrom, Restart, Crash, SameFrame, LeadStays;
    SameLeaders(c);
    match e {
      case SetPartition(groups) => GroupsSeatNobody(c, groups);
      case Heal => GroupsSeatNobody(c, [c.nodes.Keys]);
      case CrashNode(n) =>
        if n in c.nodes {
          CrashDeposes(c.nodes[n]);
          OneNodeChanges(c, n, Crash(c.nodes[n]));
        }
      case RestartNode(n) =>
        if n in c.nodes {
          RestartDeposes(c.nodes[n]);
          OneNodeChanges(c, n, Restart(c.nodes[n]));
        }
      case SubmitTo(n, command) =>
        SubmitCommandUnfolds(c, n, command);
        if LeaderError(c, n) == None {
          SubmitSeatsNobody(c, n, command);
        }
      case ReplicateOf(n) =>
        if LeaderError(c, n) == None {
          ReplicateSeatsNobody(c, n);
        }
    }
  }

  lemma GroupsSeatNobody(c: Cluster, groups: seq<set<NodeId>>)
    ensures NoNewLeaders(c, c) && NoNewLeaders(c, c.(groups := groups))
  {
  }

  lemma CrashDeposes(s: NodeState)
    ensures LeadStays(s, Crash(s))
  {
  }

  lemma RestartDeposes(s: NodeState)
    ensures LeadStays(s, Restart(s))
  {
    RebuildReplays(s.(running := true, role := Follower, leaderId := None, matchIndex := map[]));
  }

  /** Every call at all, in terms of leaders and their record. */
  lemma StepAndRecords(c: Cluster, e: Event)
    requires WellFormed(c)
    ensures RecordsGrow(c, Step(c, e))
    ensures OnRecord(c) && Uncontested(c, e) ==> OnRecord(Step(c, e))
    ensures !Uncontested(c, e) ==>
              e.TriggerTimeoutOf? && exists term :: LedByOther(c, term, e.node) && Leads(Step(c, e), e.node, term)
  {
    hide WellFormed, TriggerTimeout, WillConflict, RecordsGrow, OnRecord, NoNewLeaders, Leads, LedByOther;
    if e.TriggerTimeoutOf? {
      if IsRunning(c, e.node) {
        TimeoutAndRecords(c, e.node);
      } else {
        IdleTimeout(c, e.node);
        SameLeaders(c);
        QuietStep(c, c);
      }
    } else {
      QuietCall(c, e);
      QuietStep(c, Step(c, e));
    }
  }

  lemma IdleTimeout(c: Cluster, n: NodeId)
    requires WellFormed(c) && !IsRunning(c, n)
    ensures TriggerTimeout(c, n).0 == c
  {
    hide WellFormed;
  }

  // ---------- runs ----------

  lemma FollowsAt(ids: seq<NodeId>, events: seq<Event>, states: seq<Cluster>, i: nat)
    requires AnyRun(ids, events, states) && i < |events|
    ensures |states| == |events| + 1 && WellFormed(states[i]) && states[i + 1] == Step(states[i], events[i])
  {
    hide WellFormed, Init, Step;
    assert Follows(states[i], events[i], states[i + 1]);
  }

  lemma FreshRecord(ids: seq<NodeId>, c: Cluster)
    requires Init(ids) == Ok(c)
    ensures c.leaderByTerm == map[] && OnRecord(c)
  {
  }

  /** No two nodes are leaders of one term, at any two moments. */
  ghost predicate OneLeaderPerTerm(states: seq<Cluster>) {
    forall i, j, n, m, term :: 0 <= i < |states| && 0 <= j < |states| && Leads(states[i], n, term) && Leads(states[j], m, term) ==> n == m
  }

  /** No timeout of the run is contested in the state it meets. */
  ghost predicate AllUncontested(ids: seq<NodeId>, events: seq<Event>, states: seq<Cluster>)
    requires AnyRun(ids, events, states)
  {
    forall i :: 0 <= i < |events| ==> WellFormed(states[i]) && Uncontested(states[i], events[i])
  }

  lemma {:induction false} RecordsLast(ids: seq<NodeId>, events: seq<Event>, states: seq<Cluster>, i: nat, j: nat, term: nat)
    requires AnyRun(ids, events, states) && i <= j <= |events| && term in states[i].leaderByTerm
    ensures term in states[j].leaderByTerm && states[j].leaderByTerm[term] == states[i].leaderByTerm[term]
    decreases j
  {
    hide AnyRun, WellFormed, Step;
    if i < j {
      RecordsLast(ids, events, states, i, j - 1, term);
      FollowsAt(ids, events, states, j - 1);
      StepAndRecords(states[j - 1], events[j - 1]);
    }
  }

  /** Whoever is on record for a term has led it. */
  lemma {:induction false} RecordWasLed(ids: seq<NodeId>, events: seq<Event>, states: seq<Cluster>, i: nat, term: nat) returns (k: nat)
    requires AnyRun(ids, events, states) && i <= |events| && term in states[i].leaderByTerm
    ensures k <= i && Leads(states[k], states[i].leaderByTerm[term], term)
  {
    hide WellFormed, Step, Leads, Follows, Init;
    if i == 0 {
      FreshRecord(ids, states[0]);
    } else {
      FollowsAt(ids, events, states, i - 1);
      StepAndRecords(states[i - 1], events[i - 1]);
      if term in states[i - 1].leaderByTerm {
        k := RecordWasLed(ids, events, states, i - 1, term);
      } else {
        k := i;
      }
    }
  }

  lemma {:induction false} LeadersOnRecord(ids: seq<NodeId>, events: seq<Event>, states: seq<Cluster>, i: nat)
    requires AnyRun(ids, events, states) && AllUncontested(ids, events, states) && i <= |events|
    ensures OnRecord(states[i])
  {
    hide WellFormed, Step, OnRecord, Uncontested, Follows, Init;
    if i == 0 {
      FreshRecord(ids, states[0]);
    } else {
      LeadersOnRecord(ids, events, states, i - 1);
      FollowsAt(ids, events, states, i - 1);
      StepAndRecords(states[i - 1], events[i - 1]);
    }
  }

  lemma SameTermSameLeader(ids: seq<NodeId>, events: seq<Event>, states: seq<Cluster>, i: nat, j: nat, n: NodeId, m: NodeId, term: nat)
    requires AnyRun(ids, events, states) && AllUncontested(ids, events, states) && i <= j <= |events|
    requires Leads(states[i], n, term) && Leads(states[j], m, term)
    ensures n == m
  {
    hide AnyRun, AllUncontested, Leads;
    LeadersOnRecord(ids, events, states, i);
    LeadersOnRecord(ids, events, states, j);
    RecordsLast(ids, events, states, i, j, term);
  }

  lemma ContestedBreaks(ids: seq<NodeId>, events: seq<Event>, states: seq<Cluster>, i: nat)
    requires AnyRun(ids, events, states) && i < |events| && WellFormed(states[i]) && !Uncontested(states[i], events[i])
    ensures !OneLeaderPerTerm(states)
  {
    hide AnyRun, WellFormed, Step, Uncontested, Leads;
    FollowsAt(ids, events, states, i);
    StepAndRecords(states[i], events[i]);
    var n := events[i].node;
    var term :| LedByOther(states[i], term, n) && Leads(states[i + 1], n, term);
    var k := RecordWasLed(ids, events, states, i, term);
    StatesLength(ids, events, states);
    assert Leads(states[k], states[i].leaderByTerm[term], term);
  }

  lemma StatesLength(ids: seq<NodeId>, events: seq<Event>, states: seq<Cluster>)
    requires AnyRun(ids, events, states)
    ensures |states| == |events| + 1
  {
  }

  /**
   * In any run at all, no two nodes ever lead one term if and only if no timeout meets a state that says it will seat its
   * node in a term somebody else is on record for.
   */
  lemma ElectionSafetyExactly(ids: seq<NodeId>, events: seq<Event>, states: seq<Cluster>)
    requires AnyRun(ids, events, states)
    ensures OneLeaderPerTerm(states) <==> AllUncontested(ids, events, states)
  {
    hide AnyRun, WellFormed, Uncontested, Leads;
    StatesLength(ids, events, states);
    if AllUncontested(ids, events, states) {
      forall i, j, n, m, term | 0 <= i < |states| && 0 <= j < |states| && Leads(states[i], n, term) && Leads(states[j], m, term)
        ensures n == m
      {
        if i <= j {
          SameTermSameLeader(ids, events, states, i, j, n, m, term);
        } else {
          SameTermSameLeader(ids, events, states, j, i, m, n, term);
        }
      }
    }
    if OneLeaderPerTerm(states) {
      forall i | 0 <= i < |events| ensures WellFormed(states[i]) && Uncontested(states[i], events[i]) {
        FollowsAt(ids, events, states, i);
        if !Uncontested(states[i], events[i]) {
          ContestedBreaks(ids, events, states, i);
        }
      }
    }
  }

  lemma ReportedExactly(c: Cluster, e: Event)
    requires WellFormed(c)
    ensures e.TriggerTimeoutOf? && ReportsConflict(c, e.node) <==> !Uncontested(c, e)
  {
    hide WellFormed, WillConflict, TimeoutRound, Promote;
    if e.TriggerTimeoutOf? && IsRunning(c, e.node) {
      ConflictExactly(c, e.node);
    }
  }

  /** The original's own error misses nothing: in any run two nodes lead one term exactly if some timeout reports the conflict. */
  lemma ConflictIsAlwaysReported(ids: seq<NodeId>, events: seq<Event>, states: seq<Cluster>)
    requires AnyRun(ids, events, states)
    ensures !OneLeaderPerTerm(states) <==>
              exists i :: 0 <= i < |events| && events[i].TriggerTimeoutOf? && ReportsConflict(states[i], events[i].node)
  {
    hide AnyRun, WellFormed, Uncontested, OneLeaderPerTerm, ReportsConflict;
    ElectionSafetyExactly(ids, events, states);
    StatesLength(ids, events, states);
    forall i | 0 <= i < |events|
      ensures WellFormed(states[i]) && (events[i].TriggerTimeoutOf? && ReportsConflict(states[i], events[i].node) <==> !Uncontested(states[i], events[i]))
    {
      FollowsAt(ids, events, states, i);
      ReportedExactly(states[i], events[i]);
    }
  }
}
