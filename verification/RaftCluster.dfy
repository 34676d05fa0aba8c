/** The cluster of lab 25 as a value, and one function for each of its public methods. */
module RaftCluster {
  import opened Options
  import opened Sequences
  import opened RelayTasks
  import opened RaftNode

  datatype Cluster = Cluster(
    order: seq<NodeId>,
    nodes: map<NodeId, NodeState>,
    groups: seq<set<NodeId>>,
    leaderByTerm: map<nat, NodeId>)

  datatype Error = TooFewNodes | InvalidPartition | UnknownNode | NodeCrashed | NotLeader | LeadershipConflict

  datatype CommandResult = CommandResult(
    leader: NodeId,
    index: nat,
    term: nat,
    committed: bool,
    replicatedTo: set<NodeId>,
    rejection: Option<Rejection>)

  // ---------- node lists and partitions ----------

  /** The ids in first-occurrence order, each once. */
  function Unique(ids: seq<NodeId>): (r: seq<NodeId>)
    ensures Distinct(r)
    ensures forall x :: x in r <==> x in ids
  {
    if ids == [] then []
    else
      var r := Unique(ids[..|ids| - 1]);
      assert ids == ids[..|ids| - 1] + [ids[|ids| - 1]];
      if ids[|ids| - 1] in r then r else r + [ids[|ids| - 1]]
  }

  /** The checks of `from_groups`, group by group: non-empty, known, not seen before, and in the end all seen. */
  predicate ValidGroups(groups: seq<set<NodeId>>, known: set<NodeId>, seen: set<NodeId>) {
    if groups == [] then seen == known
    else
      && groups[0] != {}
      && groups[0] <= known
      && groups[0] !! seen
      && ValidGroups(groups[1..], known, seen + groups[0])
  }

  function Covered(groups: seq<set<NodeId>>): set<NodeId> {
    if groups == [] then {} else groups[0] + Covered(groups[1..])
  }

  lemma {:induction false} ValidGroupsCover(groups: seq<set<NodeId>>, known: set<NodeId>, seen: set<NodeId>)
    requires ValidGroups(groups, known, seen)
    ensures seen + Covered(groups) == known
  {
    if groups != [] {
      ValidGroupsCover(groups[1..], known, seen + groups[0]);
    }
  }

  ghost predicate WellFormed(c: Cluster) {
    && Distinct(c.order)
    && 3 <= |c.order|
    && (forall n :: n in c.order <==> n in c.nodes)
    && ValidGroups(c.groups, c.nodes.Keys, {})
    && forall n :: n in c.nodes ==> Sane(c.nodes[n])
  }

  function Quorum(all: set<NodeId>): nat {
    |all| / 2 + 1
  }

  function Majority(c: Cluster): nat {
    Quorum(c.nodes.Keys)
  }

  /** The sequence without one id, as `peers` lists the others. */
  function Without(ids: seq<NodeId>, n: NodeId): (r: seq<NodeId>)
    ensures forall x :: x in r <==> x in ids && x != n
  {
    if ids == [] then []
    else
      var front := Without(ids[..|ids| - 1], n);
      assert ids == ids[..|ids| - 1] + [ids[|ids| - 1]];
      if ids[|ids| - 1] == n then front else front + [ids[|ids| - 1]]
  }

  function Fresh(order: seq<NodeId>): Cluster {
    var known := set n | n in order;
    Cluster(order, map n | n in known :: INITIAL, [known], map[])
  }

  lemma FreshIsWellFormed(order: seq<NodeId>)
    requires Distinct(order) && 3 <= |order|
    ensures WellFormed(Fresh(order))
  {
    assert order[0] in Fresh(order).groups[0];
  }

  function Init(ids: seq<NodeId>): Result<Cluster, Error> {
    var order := Unique(ids);
    if |order| < 3 then Err(TooFewNodes)
    else Ok(Fresh(order))
  }

  /** A cluster is made exactly of three distinct ids or more, and starts well-formed. */
  lemma InitAccepts(ids: seq<NodeId>)
    ensures Init(ids).Ok? <==> |Elements(ids)| >= 3
    ensures Init(ids).Ok? ==> WellFormed(Init(ids).value)
  {
    DistinctSize(Unique(ids));
    assert Elements(Unique(ids)) == Elements(ids);
    if Init(ids).Ok? {
      FreshIsWellFormed(Unique(ids));
    }
  }

  /** The group `n` belongs to; groups of a valid partition never overlap. */
  function GroupOf(groups: seq<set<NodeId>>, n: NodeId): (g: set<NodeId>)
    requires n in Covered(groups)
    ensures n in g && g in groups
  {
    if n in groups[0] then groups[0] else GroupOf(groups[1..], n)
  }

  function PeersIn(c: Cluster, n: NodeId, ids: seq<NodeId>, group: set<NodeId>): (peers: seq<NodeId>)
    requires forall p :: p in ids ==> p in c.nodes
    requires Distinct(ids)
    ensures forall p :: p in peers <==> p in ids && p in group && p != n && c.nodes[p].running
    ensures Distinct(peers)
  {
    if ids == [] then []
    else
      var last := ids[|ids| - 1];
      var front := PeersIn(c, n, ids[..|ids| - 1], group);
      assert ids == ids[..|ids| - 1] + [last];
      if last in group && last != n && c.nodes[last].running then front + [last] else front
  }

  function ReachablePeers(c: Cluster, n: NodeId): (peers: seq<NodeId>)
    requires WellFormed(c) && n in c.nodes
    ensures Distinct(peers)
    ensures forall p :: p in peers ==> p in c.nodes && p != n && c.nodes[p].running
  {
    ValidGroupsCover(c.groups, c.nodes.Keys, {});
    PeersIn(c, n, c.order, GroupOf(c.groups, n))
  }

  // ---------- elections ----------

  /** `d` differs from `c` at most in node states, and those states keep well-indexed logs. */
  ghost predicate SameFrame(c: Cluster, d: Cluster) {
    && d.order == c.order
    && d.groups == c.groups
    && d.nodes.Keys == c.nodes.Keys
    && d.leaderByTerm == c.leaderByTerm
    && forall n :: n in c.nodes && Sane(c.nodes[n]) ==> Sane(d.nodes[n])
  }

  lemma FrameKeepsWellFormed(c: Cluster, d: Cluster)
    requires SameFrame(c, d) && WellFormed(c)
    ensures WellFormed(d)
  {
  }

  function WithNode(c: Cluster, n: NodeId, s: NodeState): (d: Cluster)
    ensures n in c.nodes && (Sane(c.nodes[n]) ==> Sane(s)) ==> SameFrame(c, d)
  {
    c.(nodes := c.nodes[n := s])
  }

  datatype Round = Round(cluster: Cluster, granted: set<NodeId>, broke: bool)

  /** Asks the peers in order, and stops at the first one that answers with a higher term. */
  function VoteRound(c: Cluster, n: NodeId, request: VoteRequest, peers: seq<NodeId>, granted: set<NodeId>): (r: Round)
    requires n in c.nodes && forall p :: p in peers ==> p in c.nodes
    ensures SameFrame(c, r.cluster)
    decreases |peers|
  {
    if peers == [] then Round(c, granted, false)
    else
      var p := peers[0];
      var (s, response) := ReceiveVote(c.nodes[p], p, request);
      var c1 := WithNode(c, p, s);
      if response.term > c1.nodes[n].term then
        Round(WithNode(c1, n, ObserveHigherTerm(c1.nodes[n], response.term)), granted, true)
      else
        VoteRound(c1, n, request, peers[1..], if response.granted then granted + {p} else granted)
  }

  lemma VoteRoundCons(c: Cluster, n: NodeId, request: VoteRequest, peers: seq<NodeId>, granted: set<NodeId>)
    requires n in c.nodes && peers != [] && forall p :: p in peers ==> p in c.nodes
    ensures var (s, response) := ReceiveVote(c.nodes[peers[0]], peers[0], request);
            var c1 := c.(nodes := c.nodes[peers[0] := s]);
            VoteRound(c, n, request, peers, granted) ==
            if response.term > c1.nodes[n].term then
              Round(c1.(nodes := c1.nodes[n := ObserveHigherTerm(c1.nodes[n], response.term)]), granted, true)
            else
              VoteRound(c1, n, request, peers[1..], if response.granted then granted + {peers[0]} else granted)
  {
  }

  lemma VoteRoundNil(c: Cluster, n: NodeId, request: VoteRequest, granted: set<NodeId>)
    requires n in c.nodes
    ensures VoteRound(c, n, request, [], granted) == Round(c, granted, false)
  {
  }

  function Peers(c: Cluster, n: NodeId): set<NodeId> {
    c.nodes.Keys - {n}
  }

  predicate IsRunning(c: Cluster, n: NodeId) {
    n in c.nodes && c.nodes[n].running
  }

  function MissingOrCrashed(c: Cluster, n: NodeId): Error {
    if n in c.nodes then NodeCrashed else UnknownNode
  }

  /** The vote round a timeout of `n` runs, before the majority check. */
  function TimeoutRound(c: Cluster, n: NodeId): (r: Round)
    requires WellFormed(c) && n in c.nodes
    ensures SameFrame(c, r.cluster)
  {
    var candidate := StartElection(c.nodes[n], n);
    VoteRound(WithNode(c, n, candidate), n, VoteRequestOf(candidate, n), ReachablePeers(c, n), {n})
  }

  function Promote(c: Cluster, n: NodeId): (r: (Cluster, Result<Role, Error>))
    requires n in c.nodes
  {
    var d := WithNode(c, n, BecomeLeader(c.nodes[n], n, Peers(c, n)));
    var term := c.nodes[n].term;
    if term in d.leaderByTerm && d.leaderByTerm[term] != n then (d, Err(LeadershipConflict))
    else (d.(leaderByTerm := d.leaderByTerm[term := n]), Ok(Leader))
  }

  function TriggerTimeout(c: Cluster, n: NodeId): (Cluster, Result<Role, Error>)
    requires WellFormed(c)
  {
    if !IsRunning(c, n) then (c, Err(MissingOrCrashed(c, n)))
    else
      var r := TimeoutRound(c, n);
      if |r.granted| >= Majority(c) then Promote(r.cluster, n)
      else (r.cluster, Ok(r.cluster.nodes[n].role))
  }

  // ---------- replication ----------

  datatype Sends = Sends(cluster: Cluster, responses: seq<AppendResponse>)

  /** Sends the one request to every peer; a higher-term answer deposes the sender but the sends go on. */
  function AppendRound(c: Cluster, n: NodeId, request: AppendRequest, peers: seq<NodeId>, responses: seq<AppendResponse>): (r: Sends)
    requires WellIndexed(request.entries)
    requires n in c.nodes && forall p :: p in peers ==> p in c.nodes
    ensures SameFrame(c, r.cluster)
    decreases |peers|
  {
    if peers == [] then Sends(c, responses)
    else
      var p := peers[0];
      ReceiveAppendStaysSane(c.nodes[p], p, request);
      var (s, response) := ReceiveAppend(c.nodes[p], p, request);
      var c1 := WithNode(c, p, s);
      var c2 := WithNode(c1, n, Noted(c1.nodes[n], p, response));
      AppendRound(c2, n, request, peers[1..], responses + [response])
  }

  lemma AppendRoundCons(c: Cluster, n: NodeId, request: AppendRequest, peers: seq<NodeId>, responses: seq<AppendResponse>)
    requires WellIndexed(request.entries)
    requires n in c.nodes && peers != [] && forall p :: p in peers ==> p in c.nodes
    ensures var (s, response) := ReceiveAppend(c.nodes[peers[0]], peers[0], request);
            var c1 := c.(nodes := c.nodes[peers[0] := s]);
            var c2 := c1.(nodes := c1.nodes[n := Noted(c1.nodes[n], peers[0], response)]);
            AppendRound(c, n, request, peers, responses) == AppendRound(c2, n, request, peers[1..], responses + [response])
  {
    hide ReceiveAppend, ObserveHigherTerm;
  }

  lemma AppendRoundNil(c: Cluster, n: NodeId, request: AppendRequest, responses: seq<AppendResponse>)
    requires WellIndexed(request.entries) && n in c.nodes
    ensures AppendRound(c, n, request, [], responses) == Sends(c, responses)
  {
  }

  lemma {:induction false} ApplyCommittedKeepsLog(s: NodeState)
    requires s.commit <= |s.log|
    ensures SameButApplied(ApplyCommitted(s), s)
    decreases s.commit - s.lastApplied
  {
    if s.lastApplied < s.commit {
      ApplyCommittedKeepsLog(ApplyOne(s));
    }
  }

  lemma ReceiveAppendStaysSane(s: NodeState, id: NodeId, request: AppendRequest)
    requires WellIndexed(request.entries)
    ensures Sane(s) ==> Sane(ReceiveAppend(s, id, request).0)
  {
    if s.term <= request.term {
      var s1 := ObserveHigherTerm(s, request.term).(role := Follower, leaderId := Some(request.leader));
      RebuildReplays(s1.(log := request.entries, commit := Min(s1.commit, |request.entries|)));
      var s2 := ReplaceLog(s1, request.entries);
      ApplyCommittedKeepsLog(s2.(commit := Min(request.leaderCommit, |s2.log|)));
    }
  }

  /** The body of `replicate_from_leader` once the sender is known to be a running leader. */
  function ReplicateFrom(c: Cluster, n: NodeId): (r: Sends)
    requires WellFormed(c) && n in c.nodes
    ensures SameFrame(c, r.cluster)
  {
    var r := AppendRound(c, n, AppendRequestOf(c.nodes[n], n), ReachablePeers(c, n), []);
    var leader := r.cluster.nodes[n];
    Sends(WithNode(r.cluster, n, leader.(matchIndex := leader.matchIndex[n := LastPosition(leader.log).index])), r.responses)
  }

  function LeaderError(c: Cluster, n: NodeId): Option<Error> {
    if !IsRunning(c, n) then Some(MissingOrCrashed(c, n))
    else if c.nodes[n].role != Leader then Some(NotLeader)
    else None
  }

  function ReplicateFromLeader(c: Cluster, n: NodeId): (r: (Cluster, Result<seq<AppendResponse>, Error>))
    requires WellFormed(c)
    ensures SameFrame(c, r.0)
  {
    match LeaderError(c, n)
    case Some(e) => (c, Err(e))
    case None => var r := ReplicateFrom(c, n); (r.cluster, Ok(r.responses))
  }

  function Acknowledged(responses: seq<AppendResponse>): set<NodeId> {
    set i | 0 <= i < |responses| && responses[i].success :: responses[i].follower
  }

  function AppendAt(c: Cluster, n: NodeId, command: Command): (d: Cluster)
    requires n in c.nodes
    ensures SameFrame(c, d)
  {
    WithNode(c, n, AppendLocal(c.nodes[n], n, command))
  }

  function AdvanceAt(c: Cluster, n: NodeId): (r: (Cluster, bool))
    requires n in c.nodes && c.nodes[n].commit <= |c.nodes[n].log|
    ensures SameFrame(c, r.0)
  {
    var s := c.nodes[n];
    var (t, moved) := AdvanceCommit(s, Majority(c));
    ApplyCommittedKeepsLog(s.(commit := CommitCandidate(s, Majority(c), |s.log|)));
    (WithNode(c, n, t), moved)
  }

  /** The commit step after the entry was sent out: a moved commit index is sent out once more. */
  function Settle(c: Cluster, n: NodeId): (r: (Cluster, Option<Error>))
    requires WellFormed(c) && n in c.nodes
    ensures SameFrame(c, r.0)
  {
    var (d, moved) := AdvanceAt(c, n);
    if !moved then (d, None)
    else
      FrameKeepsWellFormed(c, d);
      match ReplicateFromLeader(d, n)
      case (e, Err(why)) => (e, Some(why))
      case (e, Ok(_)) => (e, None)
  }

  function ResultFor(leader: NodeState, n: NodeId, entry: Entry, responses: seq<AppendResponse>): CommandResult {
    CommandResult(
      n, entry.index, entry.term, entry.index <= leader.commit,
      {n} + Acknowledged(responses),
      if entry.index in leader.rejections then Some(leader.rejections[entry.index]) else None)
  }

  function SubmitCommand(c: Cluster, n: NodeId, command: Command): (r: (Cluster, Result<CommandResult, Error>))
    requires WellFormed(c)
    ensures SameFrame(c, r.0)
  {
    match LeaderError(c, n)
    case Some(e) => (c, Err(e))
    case None =>
      var c1 := AppendAt(c, n, command);
      FrameKeepsWellFormed(c, c1);
      var sends := ReplicateFrom(c1, n);
      FrameKeepsWellFormed(c1, sends.cluster);
      var (d, error) := Settle(sends.cluster, n);
      match error
      case Some(e) => (d, Err(e))
      case None =>
        (d, Ok(ResultFor(d.nodes[n], n, Entry(|c.nodes[n].log| + 1, c.nodes[n].term, command), sends.responses)))
  }

  /** The parts of a successful submit, in order. */
  lemma SubmitCommandUnfolds(c: Cluster, n: NodeId, command: Command)
    requires WellFormed(c)
    ensures WellFormed(SubmitCommand(c, n, command).0)
    ensures LeaderError(c, n) == None ==>
              var c1 := AppendAt(c, n, command);
              && WellFormed(c1)
              && var sends := ReplicateFrom(c1, n);
              && WellFormed(sends.cluster)
              && var (d, error) := Settle(sends.cluster, n);
              SubmitCommand(c, n, command) ==
              (d, match error
                  case Some(e) => Err(e)
                  case None => Ok(ResultFor(d.nodes[n], n, Entry(|c.nodes[n].log| + 1, c.nodes[n].term, command), sends.responses)))
    ensures LeaderError(c, n) != None ==> SubmitCommand(c, n, command) == (c, Err(LeaderError(c, n).value))
  {
    hide Distinct, ValidGroups, AppendRound, Settle, ResultFor, ReachablePeers;
    FrameKeepsWellFormed(c, SubmitCommand(c, n, command).0);
    if LeaderError(c, n) == None {
      var c1 := AppendAt(c, n, command);
      FrameKeepsWellFormed(c, c1);
      FrameKeepsWellFormed(c1, ReplicateFrom(c1, n).cluster);
    }
    hide WellFormed, ReplicateFrom, AppendAt, Settle, ResultFor;
  }

  // ---------- runs ----------

  /** One call of a public method. */
  datatype Event =
    | SetPartition(groups: seq<set<NodeId>>)
    | Heal
    | CrashNode(node: NodeId)
    | RestartNode(node: NodeId)
    | TriggerTimeoutOf(node: NodeId)
    | SubmitTo(node: NodeId, command: Command)
    | ReplicateOf(node: NodeId)

  function Step(c: Cluster, e: Event): Cluster
    requires WellFormed(c)
  {
    match e
    case SetPartition(groups) => if ValidGroups(groups, c.nodes.Keys, {}) then c.(groups := groups) else c
    case Heal => c.(groups := [c.nodes.Keys])
    case CrashNode(n) => if n in c.nodes then c.(nodes := c.nodes[n := Crash(c.nodes[n])]) else c
    case RestartNode(n) => if n in c.nodes then c.(nodes := c.nodes[n := Restart(c.nodes[n])]) else c
    case TriggerTimeoutOf(n) => TriggerTimeout(c, n).0
    case SubmitTo(n, command) => SubmitCommand(c, n, command).0
    case ReplicateOf(n) => ReplicateFromLeader(c, n).0
  }

  lemma StepKeepsWellFormed(c: Cluster, e: Event)
    requires WellFormed(c)
    ensures var d := Step(c, e); d.order == c.order && d.nodes.Keys == c.nodes.Keys && WellFormed(d)
  {
    match e
    case SetPartition(_) =>
    case Heal => HealIsValid(c);
    case CrashNode(n) => if n in c.nodes { FrameKeepsWellFormed(c, WithNode(c, n, Crash(c.nodes[n]))); }
    case RestartNode(n) =>
      if n in c.nodes {
        RebuildReplays(c.nodes[n].(running := true, role := Follower, leaderId := None, matchIndex := map[]));
        FrameKeepsWellFormed(c, WithNode(c, n, Restart(c.nodes[n])));
      }
    case TriggerTimeoutOf(n) => TimeoutKeepsWellFormed(c, n);
    case SubmitTo(n, command) => FrameKeepsWellFormed(c, SubmitCommand(c, n, command).0);
    case ReplicateOf(n) => FrameKeepsWellFormed(c, ReplicateFromLeader(c, n).0);
  }

  lemma HealIsValid(c: Cluster)
    requires WellFormed(c)
    ensures ValidGroups([c.nodes.Keys], c.nodes.Keys, {})
  {
    assert c.order[0] in c.nodes.Keys;
  }

  lemma LeaderStaysSane(s: NodeState, n: NodeId, peers: set<NodeId>)
    ensures Sane(s) ==> Sane(BecomeLeader(s, n, peers))
  {
  }

  lemma TimeoutKeepsWellFormed(c: Cluster, n: NodeId)
    requires WellFormed(c)
    ensures var d := TriggerTimeout(c, n).0; d.order == c.order && d.nodes.Keys == c.nodes.Keys && WellFormed(d)
  {
    hide WellFormed, TimeoutRound, Promote;
    if IsRunning(c, n) {
      var d := TimeoutRound(c, n).cluster;
      FrameKeepsWellFormed(c, d);
      PromoteKeepsWellFormed(d, n);
    }
  }

  lemma PromoteKeepsWellFormed(c: Cluster, n: NodeId)
    requires WellFormed(c) && n in c.nodes
    ensures var d := Promote(c, n).0; d.order == c.order && d.nodes.Keys == c.nodes.Keys && WellFormed(d)
  {
    LeaderStaysSane(c.nodes[n], n, Peers(c, n));
    hide BecomeLeader;
    var d := WithNode(c, n, BecomeLeader(c.nodes[n], n, Peers(c, n)));
    FrameKeepsWellFormed(c, d);
  }

  // ---------- the clean-round condition ----------

  /**
   * A check on the state before a timeout: among the first `i` reachable peers nobody is in a newer
   * term and enough would grant, but peer `i` is in a newer term.
   */
  ghost predicate BreaksAfterMajority(c: Cluster, n: NodeId, i: nat)
    requires WellFormed(c) && n in c.nodes
  {
    var peers := ReachablePeers(c, n);
    var request := VoteRequestOf(StartElection(c.nodes[n], n), n);
    && i < |peers|
    && c.nodes[peers[i]].term > request.term
    && (forall j :: 0 <= j < i ==> c.nodes[peers[j]].term <= request.term)
    && |Granters(c, peers[..i], request)| + 1 >= Majority(c)
  }

  function Granters(c: Cluster, peers: seq<NodeId>, request: VoteRequest): set<NodeId>
    requires forall p :: p in peers ==> p in c.nodes
  {
    set p | p in peers && WouldGrant(c.nodes[p], request)
  }

  /** The named hypothesis on a timeout: a round that breaks off on a higher term has no majority yet. */
  ghost predicate CleanRound(c: Cluster, n: NodeId)
    requires WellFormed(c)
  {
    IsRunning(c, n) ==> forall i :: 0 <= i < |ReachablePeers(c, n)| ==> !BreaksAfterMajority(c, n, i)
  }

  ghost predicate CleanStep(c: Cluster, e: Event)
    requires WellFormed(c)
  {
    e.TriggerTimeoutOf? ==> CleanRound(c, e.node)
  }

  // ---------- runs: the states before and after each of a list of calls ----------

  ghost predicate Follows(c: Cluster, e: Event, d: Cluster) {
    WellFormed(c) && d == Step(c, e)
  }

  ghost predicate FollowsCleanly(c: Cluster, e: Event, d: Cluster) {
    WellFormed(c) && CleanStep(c, e) && d == Step(c, e)
  }

  /** A run of public calls from a fresh cluster, with no restriction at all. */
  ghost predicate AnyRun(ids: seq<NodeId>, events: seq<Event>, states: seq<Cluster>) {
    && |states| == |events| + 1
    && Init(ids) == Ok(states[0])
    && forall i {:trigger Follows(states[i], events[i], states[i + 1])} ::
         0 <= i < |events| ==> Follows(states[i], events[i], states[i + 1])
  }

  /** A run in which every timeout meets the clean-round hypothesis in the state it is triggered in. */
  ghost predicate CleanRun(ids: seq<NodeId>, events: seq<Event>, states: seq<Cluster>) {
    && |states| == |events| + 1
    && Init(ids) == Ok(states[0])
    && forall i {:trigger FollowsCleanly(states[i], events[i], states[i + 1])} ::
         0 <= i < |events| ==> FollowsCleanly(states[i], events[i], states[i + 1])
  }
}
