/** The mutable cluster of lab 25 over its node objects; its methods compute the steps of the value model. */
module RaftClusterObject {
  import opened Options
  import opened Sequences
  import opened RelayTasks
  import opened RaftNode
  import opened RaftObjects
  import Spec = RaftCluster

  /** One initial node object per listed id, with the other ids as its peers. */
  ghost predicate NodesFor(ids: seq<NodeId>, built: map<NodeId, ReplicatedLogNode>)
    reads built.Values
  {
    && (forall n :: n in built <==> n in ids)
    && (forall n :: n in built ==> built[n].id == n && built[n].State() == INITIAL)
    && (forall n :: n in built ==> built[n].Others() == (set m | m in ids && m != n))
    && (forall m, n :: m in built && n in built && m != n ==> built[m] != built[n])
  }

  method BuildNodes(ids: seq<NodeId>) returns (built: map<NodeId, ReplicatedLogNode>)
    requires Distinct(ids)
    ensures NodesFor(ids, built) && fresh(built.Values)
  {
    hide Spec.Without, INITIAL;
    built := map[];
    for i := 0 to |ids|
      invariant forall n :: n in built <==> n in ids[..i]
      invariant forall n :: n in built ==> fresh(built[n]) && built[n].id == n && built[n].State() == INITIAL
      invariant forall n :: n in built ==> built[n].peers == Spec.Without(ids, n)
      invariant forall m, n :: m in built && n in built && m != n ==> built[m] != built[n]
    {
      assert ids[i] !in ids[..i] && ids[..i + 1] == ids[..i] + [ids[i]];
      var node := new ReplicatedLogNode(ids[i], Spec.Without(ids, ids[i]));
      built := built[ids[i] := node];
    }
    assert ids[..|ids|] == ids;
  }

  /** One peer has received the request and the sender has taken note of its answer. */
  ghost function Sent(c: Spec.Cluster, n: NodeId, p: NodeId, request: AppendRequest): (d: Spec.Cluster)
    requires n in c.nodes && p in c.nodes
    ensures d.nodes.Keys == c.nodes.Keys
  {
    var (s, response) := ReceiveAppend(c.nodes[p], p, request);
    var received := c.(nodes := c.nodes[p := s]);
    received.(nodes := received.nodes[n := Noted(received.nodes[n], p, response)])
  }

  lemma SentIsNext(c: Spec.Cluster, n: NodeId, request: AppendRequest, peers: seq<NodeId>, responses: seq<AppendResponse>)
    requires WellIndexed(request.entries) && n in c.nodes && peers != [] && forall p :: p in peers ==> p in c.nodes
    ensures Spec.AppendRound(c, n, request, peers, responses)
            == Spec.AppendRound(Sent(c, n, peers[0], request), n, request, peers[1..],
                                responses + [ReceiveAppend(c.nodes[peers[0]], peers[0], request).1])
  {
    hide ReceiveAppend, ObserveHigherTerm, Spec.AppendRound;
    Spec.AppendRoundCons(c, n, request, peers, responses);
  }

  lemma LeaderKeepsTerm(s: NodeState, n: NodeId, peers: set<NodeId>)
    ensures BecomeLeader(s, n, peers).term == s.term
  {
  }

  lemma CommitsInLog(c: Spec.Cluster, n: NodeId)
    requires Spec.WellFormed(c) && n in c.nodes
    ensures c.nodes[n].commit <= |c.nodes[n].log|
  {
  }

  lemma AdvanceAtIs(c: Spec.Cluster, n: NodeId, majority: nat)
    requires n in c.nodes && c.nodes[n].commit <= |c.nodes[n].log| && majority == |c.nodes.Keys| / 2 + 1
    ensures var (s, moved) := AdvanceCommit(c.nodes[n], majority);
            Spec.AdvanceAt(c, n) == (c.(nodes := c.nodes[n := s]), moved)
  {
    hide AdvanceCommit;
  }

  class ReplicatedRelayCluster {
    const order: seq<NodeId>
    const nodes: map<NodeId, ReplicatedLogNode>
    var groups: seq<set<NodeId>>
    var leaderByTerm: map<nat, NodeId>

    /** Distinct ids have distinct node objects, each knowing its own id and all the others as peers. */
    ghost predicate Linked() {
      && (forall m, n :: m in nodes && n in nodes && m != n ==> nodes[m] != nodes[n])
      && (forall n :: n in nodes ==> nodes[n].id == n)
      && (forall n :: n in nodes ==> nodes[n].Others() == nodes.Keys - {n})
    }

    function View(): (c: Spec.Cluster)
      reads this, nodes.Values
      ensures c.nodes.Keys == nodes.Keys
    {
      Spec.Cluster(order, map n | n in nodes :: nodes[n].State(), groups, leaderByTerm)
    }

    ghost predicate Valid()
      reads this, nodes.Values
    {
      Linked() && Spec.WellFormed(View())
    }

    constructor (order: seq<NodeId>, built: map<NodeId, ReplicatedLogNode>)
      requires Distinct(order) && 3 <= |order| && NodesFor(order, built)
      ensures Valid() && nodes == built && View() == Spec.Fresh(order)
    {
      this.order := order;
      nodes := built;
      groups := [set n | n in order];
      leaderByTerm := map[];
      new;
      Spec.FreshIsWellFormed(order);
      hide Spec.WellFormed;
      assert View().nodes == Spec.Fresh(order).nodes;
    }

    /** If at most one node object changed, the view changed at most in that node. */
    twostate lemma OnlyOneChanged(p: NodeId)
      requires p in nodes && Linked()
      requires forall n :: n in nodes && n != p ==> unchanged(nodes[n])
      requires unchanged(this)
      ensures View() == old(View()).(nodes := old(View()).nodes[p := nodes[p].State()])
    {
      assert View().nodes == old(View()).nodes[p := nodes[p].State()];
    }

    /** Bookkeeping of the cluster alone leaves the nodes as they were. */
    twostate lemma NoNodeChanged()
      requires forall n :: n in nodes ==> unchanged(nodes[n])
      ensures View().nodes == old(View()).nodes
    {
    }

    method SetPartition(newGroups: seq<set<NodeId>>) returns (error: Option<Spec.Error>)
      requires Valid()
      modifies this`groups
      ensures Valid()
      ensures View() == Spec.Step(old(View()), Spec.SetPartition(newGroups))
      ensures error == if Spec.ValidGroups(newGroups, nodes.Keys, {}) then None else Some(Spec.InvalidPartition)
    {
      Spec.StepKeepsWellFormed(View(), Spec.SetPartition(newGroups));
      hide Spec.WellFormed, Spec.ValidGroups, Linked;
      if !Spec.ValidGroups(newGroups, nodes.Keys, {}) { return Some(Spec.InvalidPartition); }
      groups := newGroups;
      NoNodeChanged();
      error := None;
    }

    method Heal()
      requires Valid()
      modifies this`groups
      ensures Valid() && View() == Spec.Step(old(View()), Spec.Heal)
    {
      hide Spec.WellFormed, Spec.ValidGroups;
      Spec.StepKeepsWellFormed(View(), Spec.Heal);
      groups := [nodes.Keys];
      NoNodeChanged();
    }

    method CrashNode(n: NodeId) returns (error: Option<Spec.Error>)
      requires Valid()
      modifies nodes.Values
      ensures Valid() && View() == Spec.Step(old(View()), Spec.CrashNode(n))
      ensures error == if n in nodes then None else Some(Spec.UnknownNode)
    {
      hide Spec.WellFormed, Spec.SameFrame;
      Spec.StepKeepsWellFormed(View(), Spec.CrashNode(n));
      if n !in nodes { return Some(Spec.UnknownNode); }
      nodes[n].Crash();
      OnlyOneChanged(n);
      error := None;
    }

    method RestartNode(n: NodeId) returns (error: Option<Spec.Error>)
      requires Valid()
      modifies nodes.Values
      ensures Valid() && View() == Spec.Step(old(View()), Spec.RestartNode(n))
      ensures error == if n in nodes then None else Some(Spec.UnknownNode)
    {
      hide Spec.WellFormed, Spec.SameFrame;
      Spec.StepKeepsWellFormed(View(), Spec.RestartNode(n));
      if n !in nodes { return Some(Spec.UnknownNode); }
      nodes[n].Restart();
      OnlyOneChanged(n);
      error := None;
    }

    /** Delivers a vote request: only the receiver changes. */
    method SendVoteRequest(p: NodeId, request: VoteRequest) returns (response: VoteResponse)
      requires Linked() && p in nodes
      modifies nodes[p]
      ensures View() == old(View()).(nodes := old(View()).nodes[p := nodes[p].State()])
      ensures (nodes[p].State(), response) == ReceiveVote(old(nodes[p].State()), p, request)
    {
      response := nodes[p].ReceiveVoteRequest(request);
      OnlyOneChanged(p);
    }

    method StepDown(n: NodeId, term: nat)
      requires Linked() && n in nodes
      modifies nodes[n]
      ensures View() == old(View()).(nodes := old(View()).nodes[n := ObserveHigherTerm(old(nodes[n].State()), term)])
    {
      nodes[n].ObserveHigherTerm(term);
      OnlyOneChanged(n);
    }

    method Campaign(n: NodeId) returns (request: VoteRequest)
      requires Linked() && n in nodes
      modifies nodes[n]
      ensures View() == old(View()).(nodes := old(View()).nodes[n := StartElection(old(nodes[n].State()), n)])
      ensures request == VoteRequestOf(StartElection(old(nodes[n].State()), n), n)
    {
      request := nodes[n].StartElection();
      OnlyOneChanged(n);
    }

    /** The candidate's part of `trigger_timeout`: start the election, then ask peer after peer. */
    method CollectVotes(n: NodeId) returns (granted: set<NodeId>)
      requires Valid() && n in nodes
      modifies nodes.Values
      ensures Valid()
      ensures var r := Spec.TimeoutRound(old(View()), n); View() == r.cluster && granted == r.granted
    {
      hide Spec.WellFormed, Spec.ReachablePeers, RaftNode.StartElection, RaftNode.ReceiveVote, RaftNode.ObserveHigherTerm,
           Linked, Spec.VoteRound;
      var peers := Spec.ReachablePeers(View(), n);
      ghost var before, target := View(), Spec.TimeoutRound(View(), n);
      var request := Campaign(n);
      granted := {n};
      var i := 0;
      while i < |peers|
        invariant 0 <= i <= |peers|
        invariant Spec.VoteRound(View(), n, request, peers[i..], granted) == target
      {
        var rest := peers[i..];
        assert rest[0] == peers[i] && rest[1..] == peers[i + 1..];
        Spec.VoteRoundCons(View(), n, request, rest, granted);
        var response := SendVoteRequest(peers[i], request);
        if response.term > nodes[n].currentTerm {
          StepDown(n, response.term);
          break;
        }
        if response.granted {
          granted := granted + {peers[i]};
        }
        i := i + 1;
      }
      Spec.VoteRoundNil(View(), n, request, granted);
      assert View() == target.cluster && granted == target.granted;
      Spec.FrameKeepsWellFormed(before, target.cluster);
    }

    method Install(n: NodeId)
      requires Linked() && n in nodes
      modifies nodes[n]
      ensures View() == Spec.WithNode(old(View()), n, BecomeLeader(old(View()).nodes[n], n, Spec.Peers(old(View()), n)))
    {
      nodes[n].BecomeLeader();
      OnlyOneChanged(n);
    }

    /** `become_leader` followed by `_record_leader`, which refuses a second leader of one term. */
    method Promote(n: NodeId) returns (result: Result<Role, Spec.Error>)
      requires Linked() && n in nodes
      modifies this`leaderByTerm, nodes[n]
      ensures (View(), result) == Spec.Promote(old(View()), n)
    {
      hide RaftNode.BecomeLeader, Linked, Spec.SameFrame, RaftNode.Sane, Spec.Peers;
      LeaderKeepsTerm(View().nodes[n], n, Spec.Peers(View(), n));
      Install(n);
      label installed:
      var term := View().nodes[n].term;
      if term in leaderByTerm && leaderByTerm[term] != n {
        return Err(Spec.LeadershipConflict);
      }
      leaderByTerm := leaderByTerm[term := n];
      NoNodeChanged@installed();
      result := Ok(Leader);
    }

    method TriggerTimeout(n: NodeId) returns (result: Result<Role, Spec.Error>)
      requires Valid()
      modifies this`leaderByTerm, nodes.Values
      ensures Valid() && (View(), result) == Spec.TriggerTimeout(old(View()), n)
    {
      Spec.TimeoutKeepsWellFormed(View(), n);
      hide Spec.WellFormed, Spec.TimeoutRound, Spec.Promote;
      if !Spec.IsRunning(View(), n) { return Err(Spec.MissingOrCrashed(View(), n)); }
      var granted := CollectVotes(n);
      if |granted| >= |nodes| / 2 + 1 {
        result := Promote(n);
      } else {
        result := Ok(nodes[n].role);
      }
    }

    /** Delivers an AppendEntries request: only the receiver changes. */
    method SendAppendRequest(p: NodeId, request: AppendRequest) returns (response: AppendResponse)
      requires Linked() && p in nodes
      modifies nodes[p]
      ensures View() == old(View()).(nodes := old(View()).nodes[p := nodes[p].State()])
      ensures (nodes[p].State(), response) == ReceiveAppend(old(nodes[p].State()), p, request)
    {
      response := nodes[p].ReceiveAppendEntries(request);
      OnlyOneChanged(p);
    }

    /** What the sender does with one answer. */
    method NoteResponse(n: NodeId, p: NodeId, response: AppendResponse)
      requires Linked() && n in nodes
      modifies nodes[n]
      ensures View() == old(View()).(nodes := old(View()).nodes[n := Noted(old(View()).nodes[n], p, response)])
    {
      if response.term > nodes[n].currentTerm {
        nodes[n].ObserveHigherTerm(response.term);
      } else {
        nodes[n].matchIndexByPeer := nodes[n].matchIndexByPeer[p := response.matchIndex];
      }
      OnlyOneChanged(n);
    }

    method NoteOwnLog(n: NodeId)
      requires Linked() && n in nodes
      modifies nodes[n]
      ensures var leader := old(View()).nodes[n];
              View() == old(View()).(nodes := old(View()).nodes[n :=
                          leader.(matchIndex := leader.matchIndex[n := LastPosition(leader.log).index])])
    {
      nodes[n].matchIndexByPeer := nodes[n].matchIndexByPeer[n := LastPosition(nodes[n].log).index];
      OnlyOneChanged(n);
    }

    /** One round trip of `replicate_from_leader`. */
    method SendOne(n: NodeId, p: NodeId, request: AppendRequest) returns (response: AppendResponse)
      requires Linked() && n in nodes && p in nodes
      modifies nodes.Values
      ensures View() == Sent(old(View()), n, p, request)
      ensures response == ReceiveAppend(old(View()).nodes[p], p, request).1
    {
      hide Linked, ReceiveAppend, ObserveHigherTerm;
      response := SendAppendRequest(p, request);
      NoteResponse(n, p, response);
    }

    /** The loop of `replicate_from_leader`: one request to every peer. */
    method SendEach(n: NodeId, request: AppendRequest, peers: seq<NodeId>) returns (responses: seq<AppendResponse>)
      requires Linked() && n in nodes && WellIndexed(request.entries) && forall p :: p in peers ==> p in nodes
      modifies nodes.Values
      ensures Spec.AppendRound(old(View()), n, request, peers, []) == Spec.Sends(View(), responses)
    {
      hide *;
      ghost var target := Spec.AppendRound(View(), n, request, peers, []);
      responses := [];
      for i := 0 to |peers|
        invariant Spec.AppendRound(View(), n, request, peers[i..], responses) == target
      {
        var rest := peers[i..];
        assert rest[0] == peers[i] && rest[1..] == peers[i + 1..];
        SentIsNext(View(), n, request, rest, responses);
        var response := SendOne(n, peers[i], request);
        responses := responses + [response];
      }
      assert peers[|peers|..] == [];
      Spec.AppendRoundNil(View(), n, request, responses);
    }

    method SendToAll(n: NodeId) returns (responses: seq<AppendResponse>)
      requires Valid() && n in nodes
      modifies nodes.Values
      ensures Valid()
      ensures var r := Spec.ReplicateFrom(old(View()), n); View() == r.cluster && responses == r.responses
    {
      ghost var before, sends := View(), Spec.ReplicateFrom(View(), n);
      Spec.FrameKeepsWellFormed(before, sends.cluster);
      var peers := Spec.ReachablePeers(View(), n);
      var request := AppendRequest(nodes[n].currentTerm, n, nodes[n].log, nodes[n].commitIndex);
      assert WellIndexed(request.entries) && request == AppendRequestOf(View().nodes[n], n);
      hide Spec.WellFormed, Spec.ReachablePeers, Spec.AppendRound, Linked, WellIndexed, Sane;
      responses := SendEach(n, request, peers);
      NoteOwnLog(n);
    }

    method ReplicateFromLeader(n: NodeId) returns (result: Result<seq<AppendResponse>, Spec.Error>)
      requires Valid()
      modifies nodes.Values
      ensures Valid() && (View(), result) == Spec.ReplicateFromLeader(old(View()), n)
    {
      hide Spec.WellFormed, Spec.ReplicateFrom;
      var refused := CheckLeader(n);
      if refused.Some? { return Err(refused.value); }
      var responses := SendToAll(n);
      result := Ok(responses);
    }

    method AppendAt(n: NodeId, command: Command) returns (entry: Entry)
      requires Valid() && n in nodes
      modifies nodes[n]
      ensures Valid() && View() == Spec.AppendAt(old(View()), n, command)
      ensures entry == Entry(|old(View()).nodes[n].log| + 1, old(View()).nodes[n].term, command)
    {
      Spec.FrameKeepsWellFormed(View(), Spec.AppendAt(View(), n, command));
      entry := nodes[n].AppendLocalEntry(command);
      OnlyOneChanged(n);
    }

    method AdvanceAt(n: NodeId) returns (moved: bool)
      requires Valid() && n in nodes
      modifies nodes[n]
      ensures Valid() && (View(), moved) == Spec.AdvanceAt(old(View()), n)
    {
      hide Spec.WellFormed, AdvanceCommit, Spec.AdvanceAt, Spec.SameFrame;
      CommitsInLog(View(), n);
      Spec.FrameKeepsWellFormed(View(), Spec.AdvanceAt(View(), n).0);
      AdvanceAtIs(View(), n, |nodes| / 2 + 1);
      moved := nodes[n].AdvanceCommitIndex(|nodes| / 2 + 1);
      OnlyOneChanged(n);
    }

    /** The commit step of `submit_command`, and the second replication when it moved the commit index. */
    method Settle(n: NodeId) returns (error: Option<Spec.Error>)
      requires Valid() && n in nodes
      modifies nodes.Values
      ensures Valid() && (View(), error) == Spec.Settle(old(View()), n)
    {
      hide Spec.WellFormed, Spec.AdvanceAt, Spec.ReplicateFromLeader;
      error := None;
      var moved := AdvanceAt(n);
      if moved {
        var again := ReplicateFromLeader(n);
        if again.Err? { error := Some(again.error); }
      }
    }

    /** The two guards at the head of `submit_command` and `replicate_from_leader`. */
    method CheckLeader(n: NodeId) returns (error: Option<Spec.Error>)
      requires Valid()
      ensures Spec.WellFormed(View())
      ensures error == Spec.LeaderError(View(), n) && (error == None ==> n in nodes)
    {
      hide Spec.WellFormed;
      if !Spec.IsRunning(View(), n) { return Some(Spec.MissingOrCrashed(View(), n)); }
      if nodes[n].role != Leader { return Some(Spec.NotLeader); }
      error := None;
    }

    method SubmitCommand(n: NodeId, command: Command) returns (result: Result<Spec.CommandResult, Spec.Error>)
      requires Valid()
      modifies nodes.Values
      ensures Valid() && (View(), result) == Spec.SubmitCommand(old(View()), n, command)
    {
      hide *;
      var refused := CheckLeader(n);
      Spec.SubmitCommandUnfolds(View(), n, command);
      if refused.Some? { return Err(refused.value); }
      var entry := AppendAt(n, command);
      ghost var c1 := View();
      var responses := SendToAll(n);
      ghost var c2 := View();
      assert c1 == Spec.AppendAt(old(View()), n, command) && c2 == Spec.ReplicateFrom(c1, n).cluster;
      var error := Settle(n);
      if error.Some? { return Err(error.value); }
      result := Ok(Spec.ResultFor(View().nodes[n], n, entry, responses));
    }
  }

  /** The cluster's own constructor: duplicates are dropped and fewer than three nodes are refused. */
  method Create(ids: seq<NodeId>) returns (result: Result<ReplicatedRelayCluster, Spec.Error>)
    ensures match result
            case Ok(cluster) => fresh(cluster) && cluster.Valid() && Spec.Init(ids) == Ok(cluster.View())
            case Err(why) => Spec.Init(ids) == Err(why)
  {
    var order := Spec.Unique(ids);
    if |order| < 3 { return Err(Spec.TooFewNodes); }
    var built := BuildNodes(order);
    var cluster := new ReplicatedRelayCluster(order, built);
    result := Ok(cluster);
  }
}
