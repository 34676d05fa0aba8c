/** The two changes that touch logs: the leader appends, a node accepts the leader's whole log. */
module RaftReplicate {
  import opened Options
  import opened RelayTasks
  import opened RaftNode
  import opened RaftCluster
  import opened RaftHistory
  import opened RaftPreserve

  // ---------- the leader appends an entry ----------

  ghost predicate Leads(c: Cluster, h: History, n: NodeId) {
    n in c.nodes && c.nodes[n].role == Leader && LeaderOk(c, h, n)
  }

  function Appended(c: Cluster, n: NodeId, command: Command): Cluster
    requires n in c.nodes
  {
    WithNode(c, n, AppendLocal(c.nodes[n], n, command))
  }

  function AppendedHistory(c: Cluster, h: History, n: NodeId, command: Command): History
    requires n in c.nodes
  {
    WithLog(h, c.nodes[n].term, n, AppendLocal(c.nodes[n], n, command).log)
  }

  lemma AppendExtends(c: Cluster, h: History, n: NodeId, command: Command)
    requires Leads(c, h, n) && AcksOk(c, h)
    ensures Extends(h, AppendedHistory(c, h, n, command))
  {
  }

  lemma AppendVotes(c: Cluster, h: History, n: NodeId, command: Command)
    requires n in c.nodes && VotesOk(c, h)
    ensures VotesOk(Appended(c, n, command), AppendedHistory(c, h, n, command))
  {
  }

  lemma AppendElected(c: Cluster, h: History, n: NodeId, command: Command)
    requires Leads(c, h, n) && ElectedOk(c, h)
    ensures ElectedOk(Appended(c, n, command), AppendedHistory(c, h, n, command))
  {
    hide *;
    AppendedShape(c, h, n, command);
    ElectedStays(c, h, Appended(c, n, command), AppendedHistory(c, h, n, command));
  }

  /** Elections stand while the same nodes keep their votes and no term falls. */
  lemma ElectedStays(c: Cluster, h: History, d: Cluster, g: History)
    requires ElectedOk(c, h) && d.nodes.Keys == c.nodes.Keys && d.leaderByTerm == c.leaderByTerm
    requires g.votes == h.votes && g.logs.Keys == h.logs.Keys && forall m :: m in c.nodes ==> d.nodes[m].term == c.nodes[m].term
    ensures ElectedOk(d, g)
  {
    forall t | t in g.logs
      ensures |Voters(g, d.nodes.Keys, t, d.leaderByTerm[t])| >= Quorum(d.nodes.Keys)
    {
      assert Voters(g, d.nodes.Keys, t, d.leaderByTerm[t]) == Voters(h, c.nodes.Keys, t, d.leaderByTerm[t]);
    }
  }

  lemma AppendNodes(c: Cluster, n: NodeId, command: Command)
    requires n in c.nodes && NodesOk(c) && 1 <= c.nodes[n].term
    ensures NodesOk(Appended(c, n, command))
  {
    var x := c.nodes[n];
    var s := AppendLocal(x, n, command);
    assert NodeOk(x);
    assert s.log[..s.lastApplied] == x.log[..x.lastApplied];
    assert NodeOk(s);
  }

  lemma AppendLeaders(c: Cluster, h: History, n: NodeId, command: Command)
    requires Leads(c, h, n) && LeadersOk(c, h) && AcksOk(c, h)
    ensures LeadersOk(Appended(c, n, command), AppendedHistory(c, h, n, command))
  {
    var d, g := Appended(c, n, command), AppendedHistory(c, h, n, command);
    LeadsHere(c, h, n);
    AppendedShape(c, h, n, command);
    AppendAcksGrow(c, h, n, command);
    AppendedLeader(c, h, n, command);
    hide SameFrame, Sane, WellIndexed, AcksOk, Appended, AppendedHistory, Leads;
    forall m | m in d.nodes
      ensures LeaderOk(d, g, m)
    {
      assert LeaderOk(c, h, m);
      if m != n {
        LeaderStays(c, h, d, g, m);
      }
    }
  }

  /** Only the leader's own acknowledgement of its own log grows. */
  lemma AppendAcksGrow(c: Cluster, h: History, n: NodeId, command: Command)
    requires Leads(c, h, n) && AcksOk(c, h)
    ensures var g := AppendedHistory(c, h, n, command);
            forall t, p :: Ack(h, t, p) <= Ack(g, t, p) && (p != n || t != c.nodes[n].term ==> Ack(g, t, p) == Ack(h, t, p))
  {
    hide WellIndexed;
  }

  lemma AppendedLeader(c: Cluster, h: History, n: NodeId, command: Command)
    requires Leads(c, h, n) && AcksOk(c, h)
    ensures LeaderOk(Appended(c, n, command), AppendedHistory(c, h, n, command), n)
  {
    AppendAcksGrow(c, h, n, command);
    hide SameFrame, Sane, WellIndexed, AcksOk;
    assert Appended(c, n, command).nodes.Keys == c.nodes.Keys;
  }

  lemma AppendSources(h: History, g: History, log: seq<Entry>, entry: Entry)
    requires Sourced(h, log) && Extends(h, g)
    requires entry.term in g.logs && g.logs[entry.term] == log + [entry]
    ensures Sourced(g, log + [entry])
  {
    SourcedGrows(h, g, log);
    var longer := log + [entry];
    forall k | 0 <= k < |longer|
      ensures longer[k].term in g.logs && longer[..k + 1] <= g.logs[longer[k].term]
    {
      if k < |log| {
        assert longer[..k + 1] == log[..k + 1];
      } else {
        assert longer[..k + 1] == longer;
      }
    }
  }

  lemma AppendLogOk(log: seq<Entry>, term: nat, command: Command)
    requires LogOk(log, term) && 1 <= term
    ensures LogOk(log + [Entry(|log| + 1, term, command)], term)
  {
  }

  lemma AppendLogs(c: Cluster, h: History, n: NodeId, command: Command)
    requires Leads(c, h, n) && LogsOk(c, h) && 1 <= c.nodes[n].term
    requires Extends(h, AppendedHistory(c, h, n, command))
    ensures LogsOk(Appended(c, n, command), AppendedHistory(c, h, n, command))
  {
    hide *;
    LeadsHere(c, h, n);
    AppendedShape(c, h, n, command);
    LogsAt(c, h, n);
    var x := c.nodes[n];
    var d, g := Appended(c, n, command), AppendedHistory(c, h, n, command);
    AppendSources(h, g, x.log, Entry(|x.log| + 1, x.term, command));
    AppendLogOk(x.log, x.term, command);
    AppendSourcesOthers(c, h, d, g, n);
  }

  lemma AppendedShape(c: Cluster, h: History, n: NodeId, command: Command)
    requires Leads(c, h, n)
    ensures var x, d, g := c.nodes[n], Appended(c, n, command), AppendedHistory(c, h, n, command);
            var log := x.log + [Entry(|x.log| + 1, x.term, command)];
            && d.nodes == c.nodes[n := d.nodes[n]] && d.nodes[n].term == x.term && d.nodes[n].log == log
            && x.term in h.logs && h.logs[x.term] == x.log && g.logs == h.logs[x.term := log]
            && d.nodes.Keys == c.nodes.Keys && d.leaderByTerm == c.leaderByTerm && g.votes == h.votes && g.logs.Keys == h.logs.Keys
            && forall m :: m in c.nodes ==> d.nodes[m].term == c.nodes[m].term
  {
    hide SameFrame;
  }

  lemma LeadsHere(c: Cluster, h: History, n: NodeId)
    requires Leads(c, h, n)
    ensures n in c.nodes
  {
  }

  lemma LogsAt(c: Cluster, h: History, n: NodeId)
    requires LogsOk(c, h) && n in c.nodes
    ensures Sourced(h, c.nodes[n].log)
    ensures c.nodes[n].term in h.logs && h.logs[c.nodes[n].term] == c.nodes[n].log ==> LogOk(c.nodes[n].log, c.nodes[n].term)
  {
    hide LogOk, Sourced;
  }

  lemma AppendSourcesOthers(c: Cluster, h: History, d: Cluster, g: History, n: NodeId)
    requires LogsOk(c, h) && Extends(h, g) && n in c.nodes && n in d.nodes
    requires d.nodes == c.nodes[n := d.nodes[n]] && Sourced(g, d.nodes[n].log)
    requires d.nodes[n].term in g.logs && LogOk(g.logs[d.nodes[n].term], d.nodes[n].term)
    requires g.logs[d.nodes[n].term] == d.nodes[n].log
    requires g.logs == h.logs[d.nodes[n].term := d.nodes[n].log]
    ensures LogsOk(d, g)
  {
    forall log | Sourced(h, log)
      ensures Sourced(g, log)
    {
      SourcedGrows(h, g, log);
    }
  }

  lemma AppendAcks(c: Cluster, h: History, n: NodeId, command: Command)
    requires Leads(c, h, n) && AcksOk(c, h)
    ensures AcksOk(Appended(c, n, command), AppendedHistory(c, h, n, command))
  {
    var x := c.nodes[n];
    var d, g := Appended(c, n, command), AppendedHistory(c, h, n, command);
    var log := d.nodes[n].log;
    assert log[..|log|] == log && x.log <= log;
  }

  lemma AppendCommits(c: Cluster, h: History, n: NodeId, command: Command)
    requires n in c.nodes && CommitsOk(c, h) && Extends(h, AppendedHistory(c, h, n, command))
    ensures CommitsOk(Appended(c, n, command), AppendedHistory(c, h, n, command))
  {
    hide Extends, Committed;
    var x := c.nodes[n];
    var d, g := Appended(c, n, command), AppendedHistory(c, h, n, command);
    var s := d.nodes[n];
    assert d.nodes.Keys == c.nodes.Keys;
    assert s.log[..s.commit] == x.log[..x.commit] && s.log[..s.lastApplied] == x.log[..x.lastApplied];
    CommittedGrows(h, g, c.nodes.Keys, x.log[..x.commit], x.term, x.term);
    CommittedGrows(h, g, c.nodes.Keys, x.log[..x.lastApplied], x.term, x.term);
    OthersStayCommitted(c, h, d, g, n);
  }

  /** The voters of a later leader have left every earlier term. */
  lemma VotersMovedOn(c: Cluster, h: History, later: nat)
    requires VotesOk(c, h) && ElectedOk(c, h) && later in h.logs
    ensures |Voters(h, c.nodes.Keys, later, c.leaderByTerm[later])| >= Quorum(c.nodes.Keys)
    ensures forall p :: p in Voters(h, c.nodes.Keys, later, c.leaderByTerm[later]) ==> later <= c.nodes[p].term
  {
  }

  /** A new entry of a term cannot be chosen once a later leader exists: its voters have moved on. */
  lemma NewEntryIsNotChoosable(c: Cluster, h: History, n: NodeId, command: Command, later: nat, voters: set<NodeId>)
    requires n in c.nodes && c.nodes[n].term < later
    requires voters <= c.nodes.Keys && |voters| >= Quorum(c.nodes.Keys)
    requires forall p :: p in voters ==> later <= c.nodes[p].term
    requires forall p :: Ack(h, c.nodes[n].term, p) <= |c.nodes[n].log|
    ensures !Choosable(Appended(c, n, command), AppendedHistory(c, h, n, command), c.nodes[n].term, |c.nodes[n].log| + 1)
  {
    var t, k := c.nodes[n].term, |c.nodes[n].log| + 1;
    var d, g := Appended(c, n, command), AppendedHistory(c, h, n, command);
    assert d.nodes.Keys == c.nodes.Keys;
    forall p | p in voters
      ensures p !in CouldAck(d, g, t, k)
    {
      assert Ack(g, t, p) == Ack(h, t, p);
    }
    if |CouldAck(d, g, t, k)| >= Quorum(c.nodes.Keys) {
      var p := QuorumsMeet(c.nodes.Keys, CouldAck(d, g, t, k), voters);
    }
  }

  /** Old indices are exactly as choosable as before. */
  lemma AppendChoosable(c: Cluster, h: History, n: NodeId, command: Command, t: nat, k: nat)
    requires Leads(c, h, n)
    requires Choosable(Appended(c, n, command), AppendedHistory(c, h, n, command), t, k)
    requires !(t == c.nodes[n].term && k == |c.nodes[n].log| + 1)
    ensures Choosable(c, h, t, k)
  {
    hide SameFrame, Sane, WellIndexed;
    var d, g := Appended(c, n, command), AppendedHistory(c, h, n, command);
    assert d.nodes.Keys == c.nodes.Keys;
    assert OwnEntry(h, t, k);
    ChoosableShrinks(c, h, d, g, t, k);
  }

  lemma AppendCompleteAt(c: Cluster, h: History, n: NodeId, command: Command, t: nat, k: nat)
    requires n in c.nodes && c.nodes[n].term in h.logs && h.logs[c.nodes[n].term] == c.nodes[n].log
    requires Complete(c, h) && Choosable(c, h, t, k)
    requires Extends(h, AppendedHistory(c, h, n, command))
    ensures var d, g := Appended(c, n, command), AppendedHistory(c, h, n, command);
            && (forall u :: u in g.logs && t < u ==> g.logs[t][..k] <= g.logs[u])
            && (forall p :: p in d.nodes && Ack(g, t, p) >= k ==> g.logs[t][..k] <= d.nodes[p].log)
  {
    var x := c.nodes[n];
    var d, g := Appended(c, n, command), AppendedHistory(c, h, n, command);
    assert g.logs[t][..k] == h.logs[t][..k];
    forall p | p in d.nodes && Ack(g, t, p) >= k
      ensures g.logs[t][..k] <= d.nodes[p].log
    {
      if (t, p) == (x.term, n) {
        assert h.logs[t][..k] <= x.log;
      }
      assert c.nodes[p].log <= d.nodes[p].log;
    }
  }

  lemma AppendComplete(c: Cluster, h: History, n: NodeId, command: Command)
    requires Leads(c, h, n) && VotesOk(c, h) && ElectedOk(c, h) && AcksOk(c, h) && Complete(c, h)
    requires Extends(h, AppendedHistory(c, h, n, command))
    ensures Complete(Appended(c, n, command), AppendedHistory(c, h, n, command))
  {
    var x := c.nodes[n];
    var d, g := Appended(c, n, command), AppendedHistory(c, h, n, command);
    forall t: nat, k: nat | Choosable(d, g, t, k)
      ensures forall u :: u in g.logs && t < u ==> g.logs[t][..k] <= g.logs[u]
      ensures forall p :: p in d.nodes && Ack(g, t, p) >= k ==> g.logs[t][..k] <= d.nodes[p].log
    {
      if t == x.term && k == |x.log| + 1 {
        NewestEntry(c, h, n, command);
      } else {
        AppendChoosable(c, h, n, command, t, k);
        AppendCompleteAt(c, h, n, command, t, k);
      }
    }
  }

  lemma NewestEntry(c: Cluster, h: History, n: NodeId, command: Command)
    requires Leads(c, h, n) && VotesOk(c, h) && ElectedOk(c, h) && AcksOk(c, h)
    requires Choosable(Appended(c, n, command), AppendedHistory(c, h, n, command), c.nodes[n].term, |c.nodes[n].log| + 1)
    ensures var d, g := Appended(c, n, command), AppendedHistory(c, h, n, command);
            var t, k := c.nodes[n].term, |c.nodes[n].log| + 1;
            && (forall u :: u in g.logs && t < u ==> g.logs[t][..k] <= g.logs[u])
            && (forall p :: p in d.nodes && Ack(g, t, p) >= k ==> g.logs[t][..k] <= d.nodes[p].log)
  {
    var t := c.nodes[n].term;
    assert forall p :: Ack(h, t, p) <= |c.nodes[n].log|;
    forall u | u in h.logs && t < u
      ensures false
    {
      VotersMovedOn(c, h, u);
      NewEntryIsNotChoosable(c, h, n, command, u, Voters(h, c.nodes.Keys, u, c.leaderByTerm[u]));
    }
    NewestEntryStands(c, h, n, command);
  }

  lemma NewestEntryStands(c: Cluster, h: History, n: NodeId, command: Command)
    requires n in c.nodes && forall u :: u in h.logs ==> u <= c.nodes[n].term
    requires forall p :: Ack(h, c.nodes[n].term, p) <= |c.nodes[n].log|
    ensures var d, g := Appended(c, n, command), AppendedHistory(c, h, n, command);
            var t, k := c.nodes[n].term, |c.nodes[n].log| + 1;
            && (forall u :: u in g.logs && t < u ==> g.logs[t][..k] <= g.logs[u])
            && (forall p :: p in d.nodes && Ack(g, t, p) >= k ==> g.logs[t][..k] <= d.nodes[p].log)
  {
    var d, g := Appended(c, n, command), AppendedHistory(c, h, n, command);
    var t, k := c.nodes[n].term, |c.nodes[n].log| + 1;
    assert forall p :: p != n ==> Ack(g, t, p) == Ack(h, t, p);
    assert g.logs[t][..k] == d.nodes[n].log;
  }

  lemma AppendKeepsInv(c: Cluster, h: History, n: NodeId, command: Command)
    requires n in c.nodes && c.nodes[n].role == Leader && Inv(c, h)
    ensures var d, g := Appended(c, n, command), AppendedHistory(c, h, n, command);
            Inv(d, g) && Extends(h, g)
  {
    assert LeaderOk(c, h, n);
    assert 1 <= c.nodes[n].term;
    AppendExtends(c, h, n, command);
    AppendVotes(c, h, n, command);
    AppendElected(c, h, n, command);
    AppendNodes(c, n, command);
    AppendLeaders(c, h, n, command);
    AppendLogs(c, h, n, command);
    AppendAcks(c, h, n, command);
    AppendCommits(c, h, n, command);
    AppendComplete(c, h, n, command);
  }

  // ---------- a node accepts the leader's log ----------

  function WithAck(h: History, term: nat, p: NodeId): History
    requires term in h.logs
  {
    h.(acks := h.acks[(term, p) := |h.logs[term]|])
  }

  /** The request carries the recorded log of its term's leader and a committed commit index. */
  ghost predicate Genuine(c: Cluster, h: History, request: AppendRequest) {
    && request.term in h.logs
    && request.entries == h.logs[request.term]
    && request.term in c.leaderByTerm && c.leaderByTerm[request.term] == request.leader
    && request.leaderCommit <= |request.entries|
    && Committed(h, c.nodes.Keys, request.entries[..request.leaderCommit], request.term)
  }

  /** What accepting leaves of the node, as far as the invariant is concerned. */
  ghost predicate Accepted(x: NodeState, s: NodeState, request: AppendRequest) {
    && s.log == request.entries && s.term == request.term && s.role == Follower
    && x.term <= s.term
    && s.votedFor == (if x.term == s.term then x.votedFor else None)
  }

  lemma AcceptShape(c: Cluster, h: History, p: NodeId, request: AppendRequest)
    requires p in c.nodes && Genuine(c, h, request) && c.nodes[p].term <= request.term
    requires Complete(c, h) && CommitsOk(c, h) && NodeOk(c.nodes[p]) && LogOk(request.entries, request.term)
    ensures var s := ReceiveAppend(c.nodes[p], p, request).0;
            Accepted(c.nodes[p], s, request) && NodeOk(s) && CommitOk(c, h, s)
  {
    var x := c.nodes[p];
    CommittedIsInLaterLogs(c, h, x.log[..x.lastApplied], x.term, request.term);
    CommittedIsInLaterLogs(c, h, x.log[..x.commit], x.term, request.term);
    AcceptOne(c, h, x, p, request);
  }

  lemma AcceptOne(c: Cluster, h: History, x: NodeState, p: NodeId, request: AppendRequest)
    requires Genuine(c, h, request) && x.term <= request.term
    requires CommitOk(c, h, x) && Consistent(x) && LogOk(request.entries, request.term)
    requires x.log[..x.lastApplied] <= request.entries && x.log[..x.commit] <= request.entries
    ensures var s := ReceiveAppend(x, p, request).0;
            Accepted(x, s, request) && NodeOk(s) && CommitOk(c, h, s)
  {
    ReceiveAppendReplays(x, p, request);
    AcceptedCommits(c, h, x, ReceiveAppend(x, p, request).0, request);
  }

  lemma AcceptedCommits(c: Cluster, h: History, x: NodeState, s: NodeState, request: AppendRequest)
    requires Genuine(c, h, request) && x.term <= request.term && CommitOk(c, h, x)
    requires x.log[..x.lastApplied] <= request.entries && x.log[..x.commit] <= request.entries
    requires s.log == request.entries && s.term == request.term && s.commit == request.leaderCommit
    requires s.lastApplied == s.commit || s.lastApplied == x.lastApplied || s.lastApplied == x.commit
    ensures CommitOk(c, h, s)
  {
    var all := c.nodes.Keys;
    ExtendsItself(h);
    CommittedGrows(h, h, all, x.log[..x.lastApplied], x.term, request.term);
    CommittedGrows(h, h, all, x.log[..x.commit], x.term, request.term);
    assert request.entries[..x.lastApplied] == x.log[..x.lastApplied];
    assert request.entries[..x.commit] == x.log[..x.commit];
  }

  lemma ExtendsItself(h: History)
    ensures Extends(h, h)
  {
  }

  lemma AcceptVotes(c: Cluster, h: History, p: NodeId, s: NodeState, request: AppendRequest)
    requires p in c.nodes && VotesOk(c, h) && Genuine(c, h, request) && Accepted(c.nodes[p], s, request)
    ensures VotesOk(WithNode(c, p, s), WithAck(h, request.term, p))
  {
  }

  lemma AcceptElected(c: Cluster, h: History, p: NodeId, s: NodeState, request: AppendRequest)
    requires p in c.nodes && ElectedOk(c, h) && request.term in h.logs && c.nodes[p].term <= s.term
    ensures ElectedOk(WithNode(c, p, s), WithAck(h, request.term, p))
  {
    var d, g := WithNode(c, p, s), WithAck(h, request.term, p);
    assert d.nodes.Keys == c.nodes.Keys;
    forall t | t in g.logs
      ensures |Voters(g, d.nodes.Keys, t, d.leaderByTerm[t])| >= Quorum(d.nodes.Keys)
    {
      assert Voters(g, d.nodes.Keys, t, d.leaderByTerm[t]) == Voters(h, c.nodes.Keys, t, d.leaderByTerm[t]);
    }
  }

  lemma AcceptLeaders(c: Cluster, h: History, p: NodeId, s: NodeState, term: nat)
    requires p in c.nodes && LeadersOk(c, h) && s.role == Follower && term in h.logs
    requires Extends(h, WithAck(h, term, p))
    ensures LeadersOk(WithNode(c, p, s), WithAck(h, term, p))
  {
    var d, g := WithNode(c, p, s), WithAck(h, term, p);
    assert d.nodes.Keys == c.nodes.Keys;
    assert forall t, q :: Ack(h, t, q) <= Ack(g, t, q);
    assert forall t, q :: q != p ==> Ack(h, t, q) == Ack(g, t, q);
    forall m | m in d.nodes
      ensures LeaderOk(d, g, m)
    {
      assert LeaderOk(c, h, m);
      if m != p {
        LeaderStays(c, h, d, g, m);
      }
    }
  }

  lemma AcceptLogs(c: Cluster, h: History, p: NodeId, s: NodeState, request: AppendRequest)
    requires p in c.nodes && LogsOk(c, h) && Genuine(c, h, request) && s.log == request.entries
    ensures LogsOk(WithNode(c, p, s), WithAck(h, request.term, p))
  {
    var d, g := WithNode(c, p, s), WithAck(h, request.term, p);
    assert g.logs == h.logs;
    assert forall log :: Sourced(h, log) ==> Sourced(g, log);
  }

  lemma AcceptAcks(c: Cluster, h: History, p: NodeId, s: NodeState, request: AppendRequest)
    requires p in c.nodes && AcksOk(c, h) && Genuine(c, h, request) && Accepted(c.nodes[p], s, request)
    ensures AcksOk(WithNode(c, p, s), WithAck(h, request.term, p)) && Extends(h, WithAck(h, request.term, p))
  {
    assert request.entries[..|request.entries|] == request.entries;
  }

  lemma AcceptChoosable(c: Cluster, h: History, p: NodeId, s: NodeState, request: AppendRequest, t: nat, k: nat)
    requires p in c.nodes && request.term in h.logs && Accepted(c.nodes[p], s, request)
    requires Choosable(WithNode(c, p, s), WithAck(h, request.term, p), t, k)
    ensures Choosable(c, h, t, k)
  {
    var d, g := WithNode(c, p, s), WithAck(h, request.term, p);
    assert d.nodes.Keys == c.nodes.Keys;
    assert OwnEntry(h, t, k);
    ChoosableShrinks(c, h, d, g, t, k);
  }

  lemma AcceptComplete(c: Cluster, h: History, p: NodeId, s: NodeState, request: AppendRequest)
    requires p in c.nodes && Complete(c, h) && AcksOk(c, h) && Genuine(c, h, request) && Accepted(c.nodes[p], s, request)
    ensures Complete(WithNode(c, p, s), WithAck(h, request.term, p))
  {
    var d, g := WithNode(c, p, s), WithAck(h, request.term, p);
    forall t: nat, k: nat | Choosable(d, g, t, k)
      ensures forall u :: u in g.logs && t < u ==> g.logs[t][..k] <= g.logs[u]
      ensures forall q :: q in d.nodes && Ack(g, t, q) >= k ==> g.logs[t][..k] <= d.nodes[q].log
    {
      AcceptChoosable(c, h, p, s, request, t, k);
      forall q | q in d.nodes && Ack(g, t, q) >= k
        ensures g.logs[t][..k] <= d.nodes[q].log
      {
        if q == p {
          assert t > request.term ==> (t, p) in h.acks;
          assert t <= request.term;
        } else {
          assert Ack(h, t, q) == Ack(g, t, q);
        }
      }
    }
  }

  lemma AcceptCommits(c: Cluster, h: History, p: NodeId, s: NodeState, term: nat)
    requires p in c.nodes && CommitsOk(c, h) && CommitOk(c, h, s) && term in h.logs
    requires Extends(h, WithAck(h, term, p))
    ensures CommitsOk(WithNode(c, p, s), WithAck(h, term, p))
  {
    var d, g := WithNode(c, p, s), WithAck(h, term, p);
    assert d.nodes.Keys == c.nodes.Keys;
    CommittedGrows(h, g, c.nodes.Keys, s.log[..s.commit], s.term, s.term);
    CommittedGrows(h, g, c.nodes.Keys, s.log[..s.lastApplied], s.term, s.term);
    OthersStayCommitted(c, h, d, g, p);
  }

  lemma AcceptKeepsInv(c: Cluster, h: History, p: NodeId, request: AppendRequest)
    requires p in c.nodes && Inv(c, h) && Genuine(c, h, request) && c.nodes[p].term <= request.term
    ensures var s, g := ReceiveAppend(c.nodes[p], p, request).0, WithAck(h, request.term, p);
            Inv(WithNode(c, p, s), g) && Extends(h, g) && s.term == request.term
            && LastPosition(s.log).index == |h.logs[request.term]| == Ack(g, request.term, p)
  {
    var s, g := ReceiveAppend(c.nodes[p], p, request).0, WithAck(h, request.term, p);
    assert NodeOk(c.nodes[p]) && LogOk(h.logs[request.term], request.term);
    AcceptShape(c, h, p, request);
    AcceptVotes(c, h, p, s, request);
    AcceptElected(c, h, p, s, request);
    SoftNodes(c, p, s);
    AcceptLogs(c, h, p, s, request);
    AcceptAcks(c, h, p, s, request);
    AcceptLeaders(c, h, p, s, request.term);
    AcceptComplete(c, h, p, s, request);
    AcceptCommits(c, h, p, s, request.term);
  }
}
