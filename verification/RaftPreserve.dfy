/** The four kinds of single-node change the cluster methods are made of, each keeping the invariant. */
module RaftPreserve {
  import opened Options
  import opened Sets
  import opened RaftNode
  import opened RaftCluster
  import opened RaftHistory

  function WithVote(h: History, s: NodeState, n: NodeId): History {
    if s.votedFor.Some? then h.(votes := h.votes[(s.term, n) := s.votedFor.value]) else h
  }

  // ---------- a change that leaves the log alone ----------

  /** The term never falls and a vote already cast in it stands. */
  ghost predicate KeepsVote(x: NodeState, s: NodeState) {
    && s.log == x.log
    && x.term <= s.term
    && (s.term == x.term ==> s.votedFor == x.votedFor || x.votedFor == None)
  }

  /** Nobody starts to lead, and a leader that stays one only counts acknowledgements. */
  ghost predicate KeepsRole(c: Cluster, h: History, x: NodeState, s: NodeState) {
    s.role == Leader ==>
      && x.role == Leader && s.term == x.term && s.votedFor == x.votedFor
      && s.matchIndex.Keys == c.nodes.Keys
      && forall p :: p in s.matchIndex ==> s.matchIndex[p] <= Ack(h, s.term, p)
  }

  ghost predicate CommitOk(c: Cluster, h: History, s: NodeState) {
    && s.commit <= |s.log|
    && s.lastApplied <= |s.log|
    && Committed(h, c.nodes.Keys, s.log[..s.commit], s.term)
    && Committed(h, c.nodes.Keys, s.log[..s.lastApplied], s.term)
  }

  ghost predicate SoftChange(c: Cluster, h: History, n: NodeId, s: NodeState)
    requires n in c.nodes
  {
    KeepsVote(c.nodes[n], s) && KeepsRole(c, h, c.nodes[n], s) && CommitOk(c, h, s) && Consistent(s)
  }

  lemma SoftVotes(c: Cluster, h: History, n: NodeId, s: NodeState)
    requires n in c.nodes && VotesOk(c, h) && KeepsVote(c.nodes[n], s)
    ensures VotesOk(WithNode(c, n, s), WithVote(h, s, n)) && Extends(h, WithVote(h, s, n))
  {
    hide SameFrame, Sane;
  }

  lemma SoftElected(c: Cluster, h: History, n: NodeId, s: NodeState)
    requires n in c.nodes && ElectedOk(c, h) && c.nodes[n].term <= s.term
    requires Extends(h, WithVote(h, s, n))
    ensures ElectedOk(WithNode(c, n, s), WithVote(h, s, n))
  {
    var d, g := WithNode(c, n, s), WithVote(h, s, n);
    assert d.nodes.Keys == c.nodes.Keys;
    forall t | t in g.logs
      ensures |Voters(g, d.nodes.Keys, t, d.leaderByTerm[t])| >= Quorum(d.nodes.Keys)
    {
      SubsetSize(Voters(h, c.nodes.Keys, t, c.leaderByTerm[t]), Voters(g, d.nodes.Keys, t, d.leaderByTerm[t]));
    }
  }

  /** What could be chosen afterwards could be chosen before. */
  lemma ChoosableShrinks(c: Cluster, h: History, d: Cluster, g: History, t: nat, k: nat)
    requires d.nodes.Keys == c.nodes.Keys && OwnEntry(h, t, k)
    requires CouldAck(d, g, t, k) <= CouldAck(c, h, t, k)
    requires Choosable(d, g, t, k)
    ensures Choosable(c, h, t, k)
  {
    SubsetSize(CouldAck(d, g, t, k), CouldAck(c, h, t, k));
  }

  lemma SoftComplete(c: Cluster, h: History, n: NodeId, s: NodeState)
    requires n in c.nodes && Complete(c, h) && KeepsVote(c.nodes[n], s)
    ensures Complete(WithNode(c, n, s), WithVote(h, s, n))
  {
    var d, g := WithNode(c, n, s), WithVote(h, s, n);
    assert d.nodes.Keys == c.nodes.Keys && g.logs == h.logs && g.acks == h.acks;
    forall t: nat, k: nat | Choosable(d, g, t, k)
      ensures forall u :: u in g.logs && t < u ==> g.logs[t][..k] <= g.logs[u]
      ensures forall p :: p in d.nodes && Ack(g, t, p) >= k ==> g.logs[t][..k] <= d.nodes[p].log
    {
      ChoosableShrinks(c, h, d, g, t, k);
    }
  }

  lemma OthersStayCommitted(c: Cluster, h: History, d: Cluster, g: History, n: NodeId)
    requires n in c.nodes && d.nodes.Keys == c.nodes.Keys && Extends(h, g) && CommitsOk(c, h)
    requires forall m :: m in c.nodes && m != n ==> d.nodes[m] == c.nodes[m]
    requires CommitOk(d, g, d.nodes[n])
    ensures CommitsOk(d, g)
  {
    forall m | m in d.nodes
      ensures CommitOk(d, g, d.nodes[m])
    {
      var x := d.nodes[m];
      if m != n {
        CommittedGrows(h, g, c.nodes.Keys, x.log[..x.commit], x.term, x.term);
        CommittedGrows(h, g, c.nodes.Keys, x.log[..x.lastApplied], x.term, x.term);
      }
    }
  }

  lemma SoftCommits(c: Cluster, h: History, n: NodeId, s: NodeState)
    requires n in c.nodes && CommitsOk(c, h) && CommitOk(c, h, s) && Extends(h, WithVote(h, s, n))
    ensures CommitsOk(WithNode(c, n, s), WithVote(h, s, n))
  {
    var d, g := WithNode(c, n, s), WithVote(h, s, n);
    assert d.nodes.Keys == c.nodes.Keys;
    CommittedGrows(h, g, c.nodes.Keys, s.log[..s.commit], s.term, s.term);
    CommittedGrows(h, g, c.nodes.Keys, s.log[..s.lastApplied], s.term, s.term);
    OthersStayCommitted(c, h, d, g, n);
  }

  lemma SoftNodes(c: Cluster, n: NodeId, s: NodeState)
    requires n in c.nodes && NodesOk(c) && NodeOk(s)
    ensures NodesOk(WithNode(c, n, s))
  {
  }

  lemma SoftNode(x: NodeState, s: NodeState)
    requires NodeOk(x) && s.log == x.log && x.term <= s.term && s.commit <= |s.log| && Consistent(s)
    ensures NodeOk(s)
  {
  }

  lemma SoftLeaders(c: Cluster, h: History, n: NodeId, s: NodeState)
    requires n in c.nodes && LeadersOk(c, h) && KeepsVote(c.nodes[n], s) && KeepsRole(c, h, c.nodes[n], s)
    ensures LeadersOk(WithNode(c, n, s), WithVote(h, s, n))
  {
    var d, g := WithNode(c, n, s), WithVote(h, s, n);
    assert d.nodes.Keys == c.nodes.Keys && g.logs == h.logs && g.acks == h.acks;
    forall m | m in d.nodes
      ensures LeaderOk(d, g, m)
    {
      assert LeaderOk(c, h, m);
      assert forall t, p :: Ack(g, t, p) == Ack(h, t, p);
    }
  }

  lemma SoftLogs(c: Cluster, h: History, n: NodeId, s: NodeState)
    requires n in c.nodes && LogsOk(c, h) && s.log == c.nodes[n].log
    ensures LogsOk(WithNode(c, n, s), WithVote(h, s, n))
  {
  }

  lemma SoftAcks(c: Cluster, h: History, n: NodeId, s: NodeState)
    requires n in c.nodes && AcksOk(c, h) && s.log == c.nodes[n].log && c.nodes[n].term <= s.term
    ensures AcksOk(WithNode(c, n, s), WithVote(h, s, n))
  {
  }

  lemma SoftKeepsInv(c: Cluster, h: History, n: NodeId, s: NodeState)
    requires n in c.nodes && Inv(c, h) && SoftChange(c, h, n, s)
    ensures Inv(WithNode(c, n, s), WithVote(h, s, n)) && Extends(h, WithVote(h, s, n))
  {
    SoftVotes(c, h, n, s);
    SoftElected(c, h, n, s);
    SoftComplete(c, h, n, s);
    SoftCommits(c, h, n, s);
    SoftNode(c.nodes[n], s);
    SoftNodes(c, n, s);
    SoftLeaders(c, h, n, s);
    SoftLogs(c, h, n, s);
    SoftAcks(c, h, n, s);
  }

  // ---------- winning an election ----------

  function Elected(c: Cluster, n: NodeId): Cluster
    requires n in c.nodes
  {
    WithNode(c, n, BecomeLeader(c.nodes[n], n, Peers(c, n))).(leaderByTerm := c.leaderByTerm[c.nodes[n].term := n])
  }

  function WithLog(h: History, term: nat, n: NodeId, log: seq<Entry>): History {
    h.(logs := h.logs[term := log], acks := h.acks[(term, n) := |log|])
  }

  /** A majority in the candidate's term voted for it, each voter finding the candidate's log up to date. */
  ghost predicate WonBy(c: Cluster, h: History, n: NodeId, granted: set<NodeId>)
    requires n in c.nodes
  {
    var s := c.nodes[n];
    && 1 <= s.term
    && s.votedFor == Some(n)
    && granted <= c.nodes.Keys
    && |granted| >= Quorum(c.nodes.Keys)
    && forall p :: p in granted ==>
                     && (s.term, p) in h.votes && h.votes[(s.term, p)] == n
                     && c.nodes[p].term == s.term
                     && AtLeast(LastPosition(s.log), LastPosition(c.nodes[p].log))
  }

  /** If an up-to-date candidate's log ends in a later leader's term, it reaches past any earlier own entry. */
  lemma UpToDateHasPrefix(c: Cluster, h: History, term: nat, k: nat, voterLog: seq<Entry>, log: seq<Entry>, bound: nat)
    requires Complete(c, h) && Choosable(c, h, term, k)
    requires LogOk(voterLog, bound) && LogOk(log, bound) && Sourced(h, log)
    requires forall t :: t in h.logs ==> LogOk(h.logs[t], t)
    requires h.logs[term][..k] <= voterLog
    requires AtLeast(LastPosition(log), LastPosition(voterLog))
    ensures h.logs[term][..k] <= log
  {
    assert voterLog[k - 1] == h.logs[term][..k][k - 1];
    assert voterLog[|voterLog| - 1].term >= term;
    var last := log[|log| - 1].term;
    assert log[..|log|] == log;
    assert log <= h.logs[last];
    if last == term {
      assert |log| >= |voterLog|;
    } else {
      assert h.logs[term][..k] <= h.logs[last];
      assert h.logs[last][k - 1].term == term;
      assert h.logs[last][|log| - 1] == log[|log| - 1];
    }
  }

  /** Leader completeness, the inductive step: whatever may still be chosen is in the winner's log. */
  lemma WinnerHasChoosable(c: Cluster, h: History, n: NodeId, granted: set<NodeId>, term: nat, k: nat)
    requires n in c.nodes && WonBy(c, h, n, granted)
    requires Complete(c, h) && NodesOk(c) && LogsOk(c, h)
    requires Choosable(c, h, term, k) && term < c.nodes[n].term
    ensures h.logs[term][..k] <= c.nodes[n].log
  {
    var p := QuorumsMeet(c.nodes.Keys, granted, CouldAck(c, h, term, k));
    var bound := c.nodes[n].term;
    assert NodeOk(c.nodes[p]) && NodeOk(c.nodes[n]);
    assert h.logs[term][..k] <= c.nodes[p].log;
    UpToDateHasPrefix(c, h, term, k, c.nodes[p].log, c.nodes[n].log, bound);
  }

  /** No entry of a term exists before that term has a leader. */
  lemma NoEntryBeforeLeader(h: History, log: seq<Entry>, term: nat)
    requires Sourced(h, log) && term !in h.logs
    ensures forall k :: 0 <= k < |log| ==> log[k].term != term
  {
  }

  /** Election adds nothing choosable: only older terms can have anything choosable at that moment. */
  lemma WinChoosable(c: Cluster, h: History, n: NodeId, t: nat, k: nat)
    requires n in c.nodes && c.nodes[n].term !in h.logs && Sourced(h, c.nodes[n].log)
    requires Choosable(Elected(c, n), WithLog(h, c.nodes[n].term, n, c.nodes[n].log), t, k)
    ensures t != c.nodes[n].term && Choosable(c, h, t, k)
  {
    var s := c.nodes[n];
    var d, g := Elected(c, n), WithLog(h, s.term, n, s.log);
    assert d.nodes.Keys == c.nodes.Keys;
    NoEntryBeforeLeader(h, s.log, s.term);
    assert t != s.term;
    assert forall p :: Ack(g, t, p) == Ack(h, t, p);
    ChoosableShrinks(c, h, d, g, t, k);
  }

  lemma WinCompleteAt(c: Cluster, h: History, n: NodeId, t: nat, k: nat)
    requires n in c.nodes && c.nodes[n].term !in h.logs
    requires Complete(c, h) && Choosable(c, h, t, k) && t != c.nodes[n].term
    requires t < c.nodes[n].term ==> h.logs[t][..k] <= c.nodes[n].log
    ensures var d, g := Elected(c, n), WithLog(h, c.nodes[n].term, n, c.nodes[n].log);
            && (forall u :: u in g.logs && t < u ==> g.logs[t][..k] <= g.logs[u])
            && (forall p :: p in d.nodes && Ack(g, t, p) >= k ==> g.logs[t][..k] <= d.nodes[p].log)
  {
    hide Quorum, CouldAck;
    var s := c.nodes[n];
    var d, g := Elected(c, n), WithLog(h, s.term, n, s.log);
    assert g.logs[t] == h.logs[t];
    assert forall p :: Ack(g, t, p) == Ack(h, t, p);
    assert forall p :: p in d.nodes ==> d.nodes[p].log == c.nodes[p].log;
  }

  lemma WinComplete(c: Cluster, h: History, n: NodeId, granted: set<NodeId>)
    requires n in c.nodes && WonBy(c, h, n, granted) && c.nodes[n].term !in h.logs
    requires Complete(c, h) && NodesOk(c) && LogsOk(c, h)
    ensures Complete(Elected(c, n), WithLog(h, c.nodes[n].term, n, c.nodes[n].log))
  {
    var d, g := Elected(c, n), WithLog(h, c.nodes[n].term, n, c.nodes[n].log);
    forall t: nat, k: nat | Choosable(d, g, t, k)
      ensures forall u :: u in g.logs && t < u ==> g.logs[t][..k] <= g.logs[u]
      ensures forall p :: p in d.nodes && Ack(g, t, p) >= k ==> g.logs[t][..k] <= d.nodes[p].log
    {
      WinChoosable(c, h, n, t, k);
      if t < c.nodes[n].term {
        WinnerHasChoosable(c, h, n, granted, t, k);
      }
      WinCompleteAt(c, h, n, t, k);
    }
  }

  lemma WinExtends(c: Cluster, h: History, n: NodeId)
    requires n in c.nodes && AcksOk(c, h) && c.nodes[n].term !in h.logs
    ensures Extends(h, WithLog(h, c.nodes[n].term, n, c.nodes[n].log))
  {
  }

  lemma WinElected(c: Cluster, h: History, n: NodeId, granted: set<NodeId>)
    requires n in c.nodes && ElectedOk(c, h) && WonBy(c, h, n, granted) && c.nodes[n].term !in h.logs
    ensures ElectedOk(Elected(c, n), WithLog(h, c.nodes[n].term, n, c.nodes[n].log))
  {
    var s := c.nodes[n];
    var d, g := Elected(c, n), WithLog(h, s.term, n, s.log);
    assert d.nodes.Keys == c.nodes.Keys;
    SubsetSize(granted, Voters(g, d.nodes.Keys, s.term, n));
    forall t | t in g.logs
      ensures |Voters(g, d.nodes.Keys, t, d.leaderByTerm[t])| >= Quorum(d.nodes.Keys)
    {
      assert Voters(g, d.nodes.Keys, t, d.leaderByTerm[t]) == Voters(h, c.nodes.Keys, t, d.leaderByTerm[t]);
    }
  }

  /** A leader untouched by the change stays one, as long as its term's record and its own acknowledgement stay. */
  lemma LeaderStays(c: Cluster, h: History, d: Cluster, g: History, m: NodeId)
    requires m in c.nodes && LeaderOk(c, h, m)
    requires d.nodes.Keys == c.nodes.Keys && d.nodes[m] == c.nodes[m]
    requires c.nodes[m].role == Leader ==>
               var t := c.nodes[m].term;
               && t in d.leaderByTerm && d.leaderByTerm[t] == m
               && t in g.logs && g.logs[t] == c.nodes[m].log
               && Ack(g, t, m) == Ack(h, t, m)
               && forall p :: Ack(h, t, p) <= Ack(g, t, p)
    ensures LeaderOk(d, g, m)
  {
  }

  lemma WinLeaders(c: Cluster, h: History, n: NodeId)
    requires n in c.nodes && LeadersOk(c, h) && AcksOk(c, h) && WellIndexed(c.nodes[n].log)
    requires c.leaderByTerm.Keys == h.logs.Keys
    requires c.nodes[n].term !in h.logs && c.nodes[n].votedFor == Some(n)
    ensures LeadersOk(Elected(c, n), WithLog(h, c.nodes[n].term, n, c.nodes[n].log))
  {
    var s := c.nodes[n];
    var d, g := Elected(c, n), WithLog(h, s.term, n, s.log);
    assert d.nodes.Keys == c.nodes.Keys;
    assert forall t, p :: Ack(h, t, p) <= Ack(g, t, p);
    assert forall t, p :: t != s.term ==> Ack(h, t, p) == Ack(g, t, p);
    forall m | m in d.nodes
      ensures LeaderOk(d, g, m)
    {
      assert LeaderOk(c, h, m);
      if m != n {
        LeaderStays(c, h, d, g, m);
      } else {
        NewLeaderOk(c, h, n);
      }
    }
  }

  lemma NewLeaderOk(c: Cluster, h: History, n: NodeId)
    requires n in c.nodes && WellIndexed(c.nodes[n].log) && c.nodes[n].votedFor == Some(n)
    ensures LeaderOk(Elected(c, n), WithLog(h, c.nodes[n].term, n, c.nodes[n].log), n)
  {
    var d := Elected(c, n);
    assert d.nodes.Keys == c.nodes.Keys;
  }

  lemma WinLogs(c: Cluster, h: History, n: NodeId)
    requires n in c.nodes && LogsOk(c, h) && NodeOk(c.nodes[n])
    requires Extends(h, WithLog(h, c.nodes[n].term, n, c.nodes[n].log))
    ensures LogsOk(Elected(c, n), WithLog(h, c.nodes[n].term, n, c.nodes[n].log))
  {
    var s := c.nodes[n];
    var d, g := Elected(c, n), WithLog(h, s.term, n, s.log);
    forall log | Sourced(h, log)
      ensures Sourced(g, log)
    {
      SourcedGrows(h, g, log);
    }
    assert forall m :: m in d.nodes ==> m in c.nodes && d.nodes[m].log == c.nodes[m].log;
  }

  lemma WinAcks(c: Cluster, h: History, n: NodeId)
    requires n in c.nodes && AcksOk(c, h) && c.nodes[n].term !in h.logs
    ensures AcksOk(Elected(c, n), WithLog(h, c.nodes[n].term, n, c.nodes[n].log))
  {
    var s := c.nodes[n];
    assert s.log[..|s.log|] == s.log;
  }

  lemma WinNodes(c: Cluster, n: NodeId)
    requires n in c.nodes && NodesOk(c)
    ensures NodesOk(Elected(c, n))
  {
    var d := Elected(c, n);
    SoftNode(c.nodes[n], d.nodes[n]);
    forall m | m in d.nodes
      ensures NodeOk(d.nodes[m])
    {
      assert NodeOk(c.nodes[m]);
    }
  }

  lemma WinKeepsInv(c: Cluster, h: History, n: NodeId, granted: set<NodeId>)
    requires n in c.nodes && Inv(c, h) && WonBy(c, h, n, granted)
    requires c.nodes[n].term !in h.logs
    ensures var g := WithLog(h, c.nodes[n].term, n, c.nodes[n].log);
            Inv(Elected(c, n), g) && Extends(h, g)
  {
    var s := c.nodes[n];
    var d, g := Elected(c, n), WithLog(h, s.term, n, s.log);
    WinExtends(c, h, n);
    WinElected(c, h, n, granted);
    assert NodeOk(s);
    WinLeaders(c, h, n);
    WinLogs(c, h, n);
    WinAcks(c, h, n);
    WinNodes(c, n);
    WinComplete(c, h, n, granted);
    WinCommits(c, h, n);
    WinVotes(c, h, n);
  }

  lemma WinVotes(c: Cluster, h: History, n: NodeId)
    requires n in c.nodes && VotesOk(c, h)
    ensures VotesOk(Elected(c, n), WithLog(h, c.nodes[n].term, n, c.nodes[n].log))
  {
  }

  lemma WinCommits(c: Cluster, h: History, n: NodeId)
    requires n in c.nodes && CommitsOk(c, h) && Extends(h, WithLog(h, c.nodes[n].term, n, c.nodes[n].log))
    ensures CommitsOk(Elected(c, n), WithLog(h, c.nodes[n].term, n, c.nodes[n].log))
  {
    var s := c.nodes[n];
    var d, g := Elected(c, n), WithLog(h, s.term, n, s.log);
    assert d.nodes.Keys == c.nodes.Keys;
    CommittedGrows(h, g, c.nodes.Keys, s.log[..s.commit], s.term, s.term);
    CommittedGrows(h, g, c.nodes.Keys, s.log[..s.lastApplied], s.term, s.term);
    OthersStayCommitted(c, h, d, g, n);
  }
}
