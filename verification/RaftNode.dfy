/** One node of the replicated relay log (lab 25), as a value and the functions its methods compute. */
module RaftNode {
  import opened Options
  import opened RelayTasks

  type NodeId = nat

  datatype Role = Follower | Candidate | Leader

  datatype Entry = Entry(index: nat, term: nat, command: Command)

  datatype LogPosition = LogPosition(term: nat, index: nat)

  datatype VoteRequest = VoteRequest(term: nat, candidate: NodeId, last: LogPosition)

  datatype VoteResponse = VoteResponse(term: nat, voter: NodeId, granted: bool)

  datatype AppendRequest = AppendRequest(term: nat, leader: NodeId, entries: seq<Entry>, leaderCommit: nat)

  datatype AppendResponse = AppendResponse(term: nat, follower: NodeId, success: bool, matchIndex: nat)

  datatype NodeState = NodeState(
    term: nat,
    votedFor: Option<NodeId>,
    log: seq<Entry>,
    commit: nat,
    role: Role,
    leaderId: Option<NodeId>,
    running: bool,
    machine: Machine,
    lastApplied: nat,
    matchIndex: map<NodeId, nat>,
    rejections: map<nat, Rejection>)

  const INITIAL := NodeState(0, None, [], 0, Follower, None, true, EMPTY_MACHINE, 0, map[], map[])

  /** Every entry sits at its own index, so list positions and log indices agree. */
  ghost predicate WellIndexed(log: seq<Entry>) {
    forall k :: 0 <= k < |log| ==> log[k].index == k + 1
  }

  ghost predicate Sane(s: NodeState) {
    WellIndexed(s.log) && s.commit <= |s.log|
  }

  function LastPosition(log: seq<Entry>): LogPosition {
    if log == [] then LogPosition(0, 0) else LogPosition(log[|log| - 1].term, log[|log| - 1].index)
  }

  predicate AtLeast(a: LogPosition, b: LogPosition) {
    a.term > b.term || (a.term == b.term && a.index >= b.index)
  }

  function Min(a: nat, b: nat): nat {
    if a < b then a else b
  }

  // ---------- applying the log ----------

  function ApplyOne(s: NodeState): NodeState
    requires s.lastApplied < |s.log|
  {
    var entry := s.log[s.lastApplied];
    match Apply(s.machine, entry.command)
    case Ok(machine) => s.(machine := machine, lastApplied := s.lastApplied + 1)
    case Err(why) => s.(rejections := s.rejections[entry.index := why], lastApplied := s.lastApplied + 1)
  }

  function ApplyCommitted(s: NodeState): NodeState
    requires s.commit <= |s.log|
    decreases s.commit - s.lastApplied
  {
    if s.lastApplied < s.commit then ApplyCommitted(ApplyOne(s)) else s
  }

  lemma ApplyCommittedStep(s: NodeState)
    requires s.lastApplied < s.commit <= |s.log|
    ensures ApplyCommitted(s) == ApplyCommitted(ApplyOne(s))
  {
  }

  lemma ApplyCommittedEnds(s: NodeState)
    requires s.commit <= |s.log| && s.commit <= s.lastApplied
    ensures ApplyCommitted(s) == s
  {
  }

  function Rebuild(s: NodeState): NodeState {
    ApplyCommitted(s.(machine := EMPTY_MACHINE, rejections := map[], lastApplied := 0, commit := Min(s.commit, |s.log|)))
  }

  // ---------- roles, terms and votes ----------

  function Crash(s: NodeState): NodeState {
    s.(running := false, role := Follower, leaderId := None, matchIndex := map[])
  }

  function Restart(s: NodeState): NodeState {
    Rebuild(s.(running := true, role := Follower, leaderId := None, matchIndex := map[]))
  }

  function ObserveHigherTerm(s: NodeState, term: nat): NodeState {
    if term <= s.term then s
    else s.(term := term, votedFor := None, role := Follower, leaderId := None, matchIndex := map[])
  }

  function StartElection(s: NodeState, id: NodeId): NodeState {
    s.(term := s.term + 1, votedFor := Some(id), role := Candidate, leaderId := None)
  }

  function VoteRequestOf(s: NodeState, id: NodeId): VoteRequest {
    VoteRequest(s.term, id, LastPosition(s.log))
  }

  /** Whether this node would grant the request, read off its current state. */
  predicate WouldGrant(s: NodeState, request: VoteRequest) {
    && s.term <= request.term
    && (s.term < request.term || s.votedFor == None || s.votedFor == Some(request.candidate))
    && AtLeast(request.last, LastPosition(s.log))
  }

  function ReceiveVote(s: NodeState, id: NodeId, request: VoteRequest): (NodeState, VoteResponse) {
    if request.term < s.term then (s, VoteResponse(s.term, id, false))
    else
      var s1 := ObserveHigherTerm(s, request.term);
      var granted :=
        && (s1.votedFor == None || s1.votedFor == Some(request.candidate))
        && AtLeast(request.last, LastPosition(s1.log));
      var s2 := if granted then s1.(votedFor := Some(request.candidate), role := Follower, leaderId := None) else s1;
      (s2, VoteResponse(s2.term, id, granted))
  }

  function BecomeLeader(s: NodeState, id: NodeId, peers: set<NodeId>): NodeState {
    var last := LastPosition(s.log).index;
    s.(role := Leader, leaderId := Some(id),
       matchIndex := map p | p in peers + {id} :: if p == id then last else 0)
  }

  // ---------- replication ----------

  function AppendLocal(s: NodeState, id: NodeId, command: Command): NodeState {
    var index := |s.log| + 1;
    s.(log := s.log + [Entry(index, s.term, command)], matchIndex := s.matchIndex[id := index])
  }

  function AppendRequestOf(s: NodeState, id: NodeId): AppendRequest {
    AppendRequest(s.term, id, s.log, s.commit)
  }

  /** The log afterwards is exactly the authoritative one; state applied beyond the commit index is rebuilt. */
  function ReplaceLog(s: NodeState, entries: seq<Entry>): NodeState {
    var s1 := s.(log := entries, commit := Min(s.commit, |entries|));
    if s1.lastApplied > s1.commit then Rebuild(s1) else s1
  }

  function ReceiveAppend(s: NodeState, id: NodeId, request: AppendRequest): (NodeState, AppendResponse) {
    if request.term < s.term then (s, AppendResponse(s.term, id, false, LastPosition(s.log).index))
    else
      var s1 := ObserveHigherTerm(s, request.term).(role := Follower, leaderId := Some(request.leader));
      var s2 := ReplaceLog(s1, request.entries);
      var s3 := ApplyCommitted(s2.(commit := Min(request.leaderCommit, |s2.log|)));
      (s3, AppendResponse(s3.term, id, true, LastPosition(s3.log).index))
  }

  /** The index qualifies for commitment: an entry of the leader's own term held by enough nodes. */
  predicate Qualifies(s: NodeState, majority: nat, index: nat)
    requires 1 <= index <= |s.log|
  {
    && s.log[index - 1].term == s.term
    && |Holders(s, index)| >= majority
  }

  function Holders(s: NodeState, index: nat): set<NodeId> {
    set p | p in s.matchIndex && s.matchIndex[p] >= index
  }

  /** What the sender makes of a peer's answer: a later term deposes it, otherwise it notes what the peer holds. */
  function Noted(leader: NodeState, p: NodeId, response: AppendResponse): NodeState {
    if response.term > leader.term then ObserveHigherTerm(leader, response.term)
    else leader.(matchIndex := leader.matchIndex[p := response.matchIndex])
  }

  /** The last qualifying index above the commit index and at most `upTo`, or the commit index itself. */
  function CommitCandidate(s: NodeState, majority: nat, upTo: nat): (index: nat)
    requires s.commit <= upTo <= |s.log|
    ensures s.commit <= index <= upTo
    ensures index > s.commit ==> Qualifies(s, majority, index)
    ensures forall k :: index < k <= upTo ==> !Qualifies(s, majority, k)
    decreases upTo
  {
    if upTo == s.commit then s.commit
    else if Qualifies(s, majority, upTo) then upTo
    else CommitCandidate(s, majority, upTo - 1)
  }

  function AdvanceCommit(s: NodeState, majority: nat): (NodeState, bool)
    requires s.commit <= |s.log|
  {
    var index := CommitCandidate(s, majority, |s.log|);
    if index == s.commit then (s, false) else (ApplyCommitted(s.(commit := index)), true)
  }

  // ---------- the applied state is a replay of the applied prefix ----------

  datatype Applied = Applied(machine: Machine, rejections: map<nat, Rejection>)

  function Replay(log: seq<Entry>): Applied {
    if log == [] then Applied(EMPTY_MACHINE, map[])
    else
      var before := Replay(log[..|log| - 1]);
      var entry := log[|log| - 1];
      match Apply(before.machine, entry.command)
      case Ok(machine) => Applied(machine, before.rejections)
      case Err(why) => Applied(before.machine, before.rejections[entry.index := why])
  }

  /** Machine, history and rejections are what a fresh replay of the applied prefix gives. */
  ghost predicate Consistent(s: NodeState) {
    s.lastApplied <= |s.log| && Applied(s.machine, s.rejections) == Replay(s.log[..s.lastApplied])
  }

  ghost predicate SameButApplied(s: NodeState, t: NodeState) {
    s == t.(machine := s.machine, rejections := s.rejections, lastApplied := s.lastApplied)
  }

  function Max(a: nat, b: nat): nat {
    if a < b then b else a
  }

  lemma {:induction false} ApplyCommittedReplays(s: NodeState)
    requires s.commit <= |s.log| && Consistent(s)
    ensures var t := ApplyCommitted(s);
            Consistent(t) && SameButApplied(t, s) && t.lastApplied == Max(s.lastApplied, s.commit)
    decreases s.commit - s.lastApplied
  {
    if s.lastApplied < s.commit {
      var n := s.lastApplied + 1;
      assert s.log[..n][..n - 1] == s.log[..s.lastApplied];
      assert s.log[..n][n - 1] == s.log[s.lastApplied];
      ApplyCommittedReplays(ApplyOne(s));
    }
  }

  lemma RebuildReplays(s: NodeState)
    ensures var t := Rebuild(s);
            Consistent(t) && t.commit == Min(s.commit, |s.log|) && t.lastApplied == t.commit
            && SameButApplied(t, s.(commit := t.commit))
  {
    var t := s.(machine := EMPTY_MACHINE, rejections := map[], lastApplied := 0, commit := Min(s.commit, |s.log|));
    assert t.log[..0] == [];
    ApplyCommittedReplays(t);
  }

  /** What a successful AppendEntries leaves behind, when the new log keeps the applied prefix. */
  lemma ReceiveAppendReplays(s: NodeState, id: NodeId, request: AppendRequest)
    requires s.term <= request.term && Consistent(s)
    requires s.log[..s.lastApplied] <= request.entries
    ensures var (t, response) := ReceiveAppend(s, id, request);
            && Consistent(t) && response.success
            && t.log == request.entries && t.term == request.term && t.role == Follower && t.running == s.running
            && t.votedFor == (if s.term == request.term then s.votedFor else None)
            && t.commit == Min(request.leaderCommit, |request.entries|)
            && t.lastApplied <= |t.log|
            && (t.lastApplied == t.commit
                || t.lastApplied == s.lastApplied
                || t.lastApplied == Min(s.commit, |request.entries|))
  {
    hide Replay, ApplyCommitted;
    var s1 := ObserveHigherTerm(s, request.term).(role := Follower, leaderId := Some(request.leader));
    var r := s1.(log := request.entries, commit := Min(s.commit, |request.entries|));
    assert r.log[..s.lastApplied] == s.log[..s.lastApplied];
    RebuildReplays(r);
    var s2 := ReplaceLog(s1, request.entries);
    assert Consistent(s2) && s2.log == request.entries;
    ApplyCommittedReplays(s2.(commit := Min(request.leaderCommit, |s2.log|)));
  }
}
