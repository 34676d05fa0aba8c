/**
 * The invariant behind leader completeness, over a cluster and a record of what happened so far:
 * the votes cast, the log each elected leader has had, and what each node accepted from it.
 */
module RaftHistory {
  import opened Options
  import opened Sets
  import opened RaftNode
  import opened RaftCluster

  datatype History = History(
    votes: map<(nat, NodeId), NodeId>,
    logs: map<nat, seq<Entry>>,
    acks: map<(nat, NodeId), nat>)

  const EMPTY_HISTORY := History(map[], map[], map[])

  function Ack(h: History, term: nat, p: NodeId): nat {
    if (term, p) in h.acks then h.acks[(term, p)] else 0
  }

  // ---------- logs ----------

  ghost predicate LogOk(log: seq<Entry>, term: nat) {
    && WellIndexed(log)
    && (forall k :: 0 <= k < |log| ==> 1 <= log[k].term <= term)
    && (forall j, k :: 0 <= j <= k < |log| ==> log[j].term <= log[k].term)
  }

  /** Every entry was created by the leader of its term, with the same log in front of it. */
  ghost predicate Sourced(h: History, log: seq<Entry>) {
    forall k :: 0 <= k < |log| ==> log[k].term in h.logs && log[..k + 1] <= h.logs[log[k].term]
  }

  // ---------- votes, leaders, acknowledgements ----------

  function Voters(h: History, all: set<NodeId>, term: nat, candidate: NodeId): set<NodeId> {
    set p | p in all && (term, p) in h.votes && h.votes[(term, p)] == candidate
  }

  ghost predicate VotesOk(c: Cluster, h: History) {
    && (forall n, k :: n in c.nodes && c.nodes[n].votedFor == Some(k) ==>
                         (c.nodes[n].term, n) in h.votes && h.votes[(c.nodes[n].term, n)] == k)
    && (forall n :: n in c.nodes && c.nodes[n].votedFor == None ==> (c.nodes[n].term, n) !in h.votes)
    && (forall t, p :: (t, p) in h.votes ==> p in c.nodes && t <= c.nodes[p].term)
  }

  ghost predicate ElectedOk(c: Cluster, h: History) {
    && c.leaderByTerm.Keys == h.logs.Keys
    && forall t :: t in h.logs ==>
                     && 1 <= t
                     && c.leaderByTerm[t] in c.nodes
                     && t <= c.nodes[c.leaderByTerm[t]].term
                     && |Voters(h, c.nodes.Keys, t, c.leaderByTerm[t])| >= Quorum(c.nodes.Keys)
  }

  /** A node in the leader role is the elected leader of its term, and its match map only counts acknowledgements. */
  ghost predicate LeaderOk(c: Cluster, h: History, n: NodeId)
    requires n in c.nodes
  {
    var s := c.nodes[n];
    s.role == Leader ==>
      && s.term in c.leaderByTerm && c.leaderByTerm[s.term] == n
      && s.term in h.logs && h.logs[s.term] == s.log
      && s.votedFor == Some(n)
      && Ack(h, s.term, n) == |s.log|
      && s.matchIndex.Keys == c.nodes.Keys
      && forall p :: p in s.matchIndex ==> s.matchIndex[p] <= Ack(h, s.term, p)
  }

  ghost predicate LeadersOk(c: Cluster, h: History) {
    forall n :: n in c.nodes ==> LeaderOk(c, h, n)
  }

  ghost predicate NodeOk(s: NodeState) {
    LogOk(s.log, s.term) && s.commit <= |s.log| && Consistent(s)
  }

  ghost predicate NodesOk(c: Cluster) {
    forall n :: n in c.nodes ==> NodeOk(c.nodes[n])
  }

  ghost predicate LogsOk(c: Cluster, h: History) {
    && (forall t :: t in h.logs ==> LogOk(h.logs[t], t) && Sourced(h, h.logs[t]))
    && (forall n :: n in c.nodes ==> Sourced(h, c.nodes[n].log))
  }

  ghost predicate AcksOk(c: Cluster, h: History) {
    forall t, p :: (t, p) in h.acks ==>
                     && p in c.nodes && t in h.logs
                     && h.acks[(t, p)] <= |h.logs[t]|
                     && t <= c.nodes[p].term
                     && (c.nodes[p].term == t ==> h.logs[t][..h.acks[(t, p)]] <= c.nodes[p].log)
  }

  // ---------- chosen prefixes ----------

  function Acked(h: History, all: set<NodeId>, term: nat, k: nat): set<NodeId> {
    set p | p in all && Ack(h, term, p) >= k
  }

  /** Nodes that hold, or may still come to hold, the first `k` entries of the leader of `term`. */
  function CouldAck(c: Cluster, h: History, term: nat, k: nat): set<NodeId> {
    set p | p in c.nodes && (Ack(h, term, p) >= k || c.nodes[p].term <= term)
  }

  /** Index `k` of the leader's log in `term` ends with an entry of that very term. */
  ghost predicate OwnEntry(h: History, term: nat, k: nat) {
    term in h.logs && 1 <= k <= |h.logs[term]| && h.logs[term][k - 1].term == term
  }

  ghost predicate Chosen(h: History, all: set<NodeId>, term: nat, k: nat) {
    OwnEntry(h, term, k) && |Acked(h, all, term, k)| >= Quorum(all)
  }

  ghost predicate Choosable(c: Cluster, h: History, term: nat, k: nat) {
    OwnEntry(h, term, k) && |CouldAck(c, h, term, k)| >= Quorum(c.nodes.Keys)
  }

  /** Whatever may still be chosen is in every later leader's log, and in the log of every node that acknowledged it. */
  ghost predicate Complete(c: Cluster, h: History) {
    forall t: nat, k: nat :: Choosable(c, h, t, k) ==>
                     && (forall u :: u in h.logs && t < u ==> h.logs[t][..k] <= h.logs[u])
                     && (forall p :: p in c.nodes && Ack(h, t, p) >= k ==> h.logs[t][..k] <= c.nodes[p].log)
  }

  /** `prefix` lies within a prefix chosen in some term up to `bound`. */
  ghost predicate Committed(h: History, all: set<NodeId>, prefix: seq<Entry>, bound: nat) {
    prefix == [] || exists t: nat, k: nat :: t <= bound && Chosen(h, all, t, k) && prefix <= h.logs[t][..k]
  }

  ghost predicate CommitsOk(c: Cluster, h: History) {
    forall n :: n in c.nodes ==>
                  && c.nodes[n].commit <= |c.nodes[n].log|
                  && c.nodes[n].lastApplied <= |c.nodes[n].log|
                  && Committed(h, c.nodes.Keys, c.nodes[n].log[..c.nodes[n].commit], c.nodes[n].term)
                  && Committed(h, c.nodes.Keys, c.nodes[n].log[..c.nodes[n].lastApplied], c.nodes[n].term)
  }

  ghost predicate Inv(c: Cluster, h: History) {
    && VotesOk(c, h)
    && ElectedOk(c, h)
    && NodesOk(c)
    && LeadersOk(c, h)
    && LogsOk(c, h)
    && AcksOk(c, h)
    && Complete(c, h)
    && CommitsOk(c, h)
  }

  // ---------- how the record may grow ----------

  ghost predicate Extends(h: History, g: History) {
    && (forall v :: v in h.votes ==> v in g.votes && g.votes[v] == h.votes[v])
    && (forall t :: t in h.logs ==> t in g.logs && h.logs[t] <= g.logs[t])
    && (forall a :: a in h.acks ==> a in g.acks && h.acks[a] <= g.acks[a])
  }

  lemma ExtendsIsTransitive(f: History, g: History, h: History)
    requires Extends(f, g) && Extends(g, h)
    ensures Extends(f, h)
  {
  }

  /** Two quorums of the same nodes share a node. */
  lemma QuorumsMeet(all: set<NodeId>, a: set<NodeId>, b: set<NodeId>) returns (p: NodeId)
    requires a <= all && b <= all && |a| >= Quorum(all) && |b| >= Quorum(all)
    ensures p in a && p in b
  {
    SubsetSize(a + b, all);
    assert |a + b| == |a| + |b| - |a * b|;
    p :| p in a * b;
  }

  /** And no fewer nodes would do: two sets of one node less can do without each other. */
  lemma QuorumIsLeast(all: set<NodeId>) returns (a: set<NodeId>, b: set<NodeId>)
    requires all != {}
    ensures a <= all && b <= all && a !! b && |a| == |b| == Quorum(all) - 1
  {
    a := SomeOf(all, Quorum(all) - 1);
    b := SomeOf(all - a, Quorum(all) - 1);
  }

  lemma SomeOf(all: set<NodeId>, k: nat) returns (some: set<NodeId>)
    requires k <= |all|
    ensures some <= all && |some| == k
  {
    if k == 0 {
      some := {};
    } else {
      var p :| p in all;
      some := SomeOf(all - {p}, k - 1);
      some := some + {p};
    }
  }

  lemma SourcedGrows(h: History, g: History, log: seq<Entry>)
    requires Sourced(h, log) && Extends(h, g)
    ensures Sourced(g, log)
  {
  }

  lemma ChosenGrows(h: History, g: History, all: set<NodeId>, term: nat, k: nat)
    requires Chosen(h, all, term, k) && Extends(h, g)
    ensures Chosen(g, all, term, k) && h.logs[term][..k] == g.logs[term][..k]
  {
    SubsetSize(Acked(h, all, term, k), Acked(g, all, term, k));
  }

  lemma CommittedGrows(h: History, g: History, all: set<NodeId>, prefix: seq<Entry>, bound: nat, larger: nat)
    requires Committed(h, all, prefix, bound) && Extends(h, g) && bound <= larger
    ensures Committed(g, all, prefix, larger)
  {
    if prefix != [] {
      var t: nat, k: nat :| t <= bound && Chosen(h, all, t, k) && prefix <= h.logs[t][..k];
      ChosenGrows(h, g, all, t, k);
      assert t <= larger && Chosen(g, all, t, k) && prefix <= g.logs[t][..k];
    }
  }

  /** A committed prefix is in the log of every leader of a term at or above its bound. */
  lemma CommittedIsInLaterLogs(c: Cluster, h: History, prefix: seq<Entry>, bound: nat, term: nat)
    requires Complete(c, h) && Committed(h, c.nodes.Keys, prefix, bound)
    requires term in h.logs && bound <= term
    ensures prefix <= h.logs[term]
  {
    hide Quorum;
    if prefix != [] {
      var t: nat, k: nat :| t <= bound && Chosen(h, c.nodes.Keys, t, k) && prefix <= h.logs[t][..k];
      SubsetSize(Acked(h, c.nodes.Keys, t, k), CouldAck(c, h, t, k));
      assert Choosable(c, h, t, k);
    }
  }

  /** Committed prefixes never disagree. */
  lemma CommittedPrefixesAgree(c: Cluster, h: History, a: seq<Entry>, b: seq<Entry>, m: nat, n: nat)
    requires Complete(c, h)
    requires Committed(h, c.nodes.Keys, a, m) && Committed(h, c.nodes.Keys, b, n)
    ensures a <= b || b <= a
  {
    if a != [] && b != [] {
      var t: nat, k: nat :| t <= m && Chosen(h, c.nodes.Keys, t, k) && a <= h.logs[t][..k];
      var u: nat, l: nat :| u <= n && Chosen(h, c.nodes.Keys, u, l) && b <= h.logs[u][..l];
      if t <= u {
        assert Committed(h, c.nodes.Keys, a, t);
        CommittedIsInLaterLogs(c, h, a, t, u);
        PrefixesOfOne(a, b, h.logs[u]);
      } else {
        assert Committed(h, c.nodes.Keys, b, u);
        CommittedIsInLaterLogs(c, h, b, u, t);
        PrefixesOfOne(a, b, h.logs[t]);
      }
    }
  }

  lemma PrefixesOfOne<T>(a: seq<T>, b: seq<T>, whole: seq<T>)
    requires a <= whole && b <= whole
    ensures a <= b || b <= a
  {
    assert a == whole[..|a|] && b == whole[..|b|];
  }
}
