/**
 * The mutable node and cluster of lab 25. Each method changes fields in place, as the repository's does,
 * and is proved to compute the function of the same name on the values of the fields.
 */
module RaftObjects {
  import opened Options
  import opened RelayTasks
  import opened RaftNode

  class ReplicatedLogNode {
    const id: NodeId
    const peers: seq<NodeId>
    var currentTerm: nat
    var votedFor: Option<NodeId>
    var log: seq<Entry>
    var commitIndex: nat
    var role: Role
    var leaderId: Option<NodeId>
    var running: bool
    var tasks: map<string, Task>
    var history: seq<Command>
    var lastApplied: nat
    var matchIndexByPeer: map<NodeId, nat>
    var rejections: map<nat, Rejection>

    function State(): NodeState
      reads this
    {
      NodeState(currentTerm, votedFor, log, commitIndex, role, leaderId, running,
                Machine(tasks, history), lastApplied, matchIndexByPeer, rejections)
    }

    /** The peers other than the node itself, as a set. */
    function Others(): set<NodeId> {
      set p | p in peers && p != id
    }

    constructor (id: NodeId, peers: seq<NodeId>)
      ensures this.id == id && this.peers == peers && State() == INITIAL
    {
      this.id, this.peers := id, peers;
      currentTerm, votedFor, log, commitIndex := 0, None, [], 0;
      role, leaderId, running := Follower, None, true;
      tasks, history, lastApplied := map[], [], 0;
      matchIndexByPeer, rejections := map[], map[];
    }

    /** The state machine's `apply`: a rejected command changes nothing. */
    method ApplyCommand(command: Command) returns (rejection: Option<Rejection>)
      modifies this`tasks, this`history
      ensures match Apply(Machine(old(tasks), old(history)), command)
              case Ok(machine) => rejection == None && Machine(tasks, history) == machine
              case Err(why) => rejection == Some(why) && tasks == old(tasks) && history == old(history)
    {
      var id := command.taskId;
      match command {
        case EnqueueTask(_, queue, tick) =>
          if id in tasks { return Some(AlreadyExists(id)); }
          tasks := tasks[id := Task(id, queue, Queued, tick, None, 0, None)];
        case StartTask(_, worker, attempt) =>
          if id !in tasks { return Some(DoesNotExist(id)); }
          var task := tasks[id];
          if task.status != Queued { return Some(NotQueued(id)); }
          tasks := tasks[id := Task(task.taskId, task.queue, Running, task.createdTick, Some(worker), attempt, None)];
        case CompleteTask(_, worker, tick) =>
          if id !in tasks { return Some(DoesNotExist(id)); }
          var task := tasks[id];
          if task.status != Running { return Some(NotRunning(id)); }
          if task.workerId != Some(worker) { return Some(OwnedBy(id, task.workerId)); }
          tasks := tasks[id := Task(task.taskId, task.queue, Completed, task.createdTick, task.workerId, task.attempt, Some(tick))];
      }
      history := history + [command];
      rejection := None;
    }

    method ApplyCommittedEntries()
      requires commitIndex <= |log|
      modifies this`tasks, this`history, this`rejections, this`lastApplied
      ensures State() == ApplyCommitted(old(State()))
    {
      hide ApplyCommitted, RelayTasks.Apply;
      while lastApplied < commitIndex
        invariant ApplyCommitted(State()) == ApplyCommitted(old(State()))
        decreases commitIndex - lastApplied
      {
        ApplyCommittedStep(State());
        var entry := log[lastApplied];
        var rejection := ApplyCommand(entry.command);
        if rejection.Some? {
          rejections := rejections[entry.index := rejection.value];
        }
        lastApplied := lastApplied + 1;
      }
      ApplyCommittedEnds(State());
    }

    method RebuildStateMachine()
      modifies this`tasks, this`history, this`rejections, this`lastApplied, this`commitIndex
      ensures State() == Rebuild(old(State()))
    {
      tasks, history := map[], [];
      rejections := map[];
      lastApplied := 0;
      commitIndex := Min(commitIndex, |log|);
      ApplyCommittedEntries();
    }

    method Crash()
      modifies this
      ensures State() == RaftNode.Crash(old(State()))
    {
      running := false;
      role := Follower;
      leaderId := None;
      matchIndexByPeer := map[];
    }

    method Restart()
      modifies this
      ensures State() == RaftNode.Restart(old(State()))
    {
      running := true;
      role := Follower;
      leaderId := None;
      matchIndexByPeer := map[];
      RebuildStateMachine();
    }

    method ObserveHigherTerm(term: nat)
      modifies this`currentTerm, this`votedFor, this`role, this`leaderId, this`matchIndexByPeer
      ensures State() == RaftNode.ObserveHigherTerm(old(State()), term)
    {
      if term <= currentTerm { return; }
      currentTerm := term;
      votedFor := None;
      role := Follower;
      leaderId := None;
      matchIndexByPeer := map[];
    }

    method StartElection() returns (request: VoteRequest)
      modifies this
      ensures State() == RaftNode.StartElection(old(State()), id)
      ensures request == VoteRequestOf(State(), id)
    {
      currentTerm := currentTerm + 1;
      votedFor := Some(id);
      role := Candidate;
      leaderId := None;
      request := VoteRequest(currentTerm, id, LastPosition(log));
    }

    method ReceiveVoteRequest(request: VoteRequest) returns (response: VoteResponse)
      modifies this
      ensures (State(), response) == ReceiveVote(old(State()), id, request)
    {
      if request.term < currentTerm {
        return VoteResponse(currentTerm, id, false);
      }
      if request.term > currentTerm {
        ObserveHigherTerm(request.term);
      }
      var canVote := votedFor == None || votedFor == Some(request.candidate);
      var upToDate := AtLeast(request.last, LastPosition(log));
      var granted := canVote && upToDate;
      if granted {
        votedFor := Some(request.candidate);
        role := Follower;
        leaderId := None;
      }
      response := VoteResponse(currentTerm, id, granted);
    }

    method BecomeLeader()
      modifies this
      ensures State() == RaftNode.BecomeLeader(old(State()), id, Others())
    {
      role := Leader;
      leaderId := Some(id);
      matchIndexByPeer := map[id := LastPosition(log).index];
      for i := 0 to |peers|
        invariant forall p :: p in matchIndexByPeer <==> p in peers[..i] || p == id
        invariant forall p :: p in matchIndexByPeer ==> matchIndexByPeer[p] == if p == id then LastPosition(log).index else 0
        invariant State() == old(State()).(role := Leader, leaderId := Some(id), matchIndex := matchIndexByPeer)
      {
        if peers[i] !in matchIndexByPeer {
          matchIndexByPeer := matchIndexByPeer[peers[i] := 0];
        }
      }
      assert peers[..|peers|] == peers;
      assert matchIndexByPeer == RaftNode.BecomeLeader(old(State()), id, Others()).matchIndex;
    }

    method AppendLocalEntry(command: Command) returns (entry: Entry)
      modifies this`log, this`matchIndexByPeer
      ensures State() == AppendLocal(old(State()), id, command)
      ensures entry == Entry(|old(log)| + 1, currentTerm, command)
    {
      entry := Entry(|log| + 1, currentTerm, command);
      log := log + [entry];
      matchIndexByPeer := matchIndexByPeer[id := entry.index];
    }

    /** Keeps the shared prefix, drops the rest and takes over the remaining entries. */
    method ReplaceLogWith(authoritative: seq<Entry>)
      modifies this
      ensures State() == ReplaceLog(old(State()), authoritative)
    {
      var shared := 0;
      while shared < |authoritative| && shared < |log| && authoritative[shared] == log[shared]
        invariant shared <= |authoritative| && shared <= |log|
        invariant authoritative[..shared] == log[..shared]
      {
        shared := shared + 1;
      }
      log := log[..shared];
      log := log + authoritative[shared..];
      assert log == authoritative;
      if commitIndex > |log| {
        commitIndex := |log|;
      }
      if lastApplied > commitIndex {
        RebuildStateMachine();
      }
    }

    method ReceiveAppendEntries(request: AppendRequest) returns (response: AppendResponse)
      modifies this
      ensures (State(), response) == ReceiveAppend(old(State()), id, request)
    {
      if request.term < currentTerm {
        return AppendResponse(currentTerm, id, false, LastPosition(log).index);
      }
      if request.term > currentTerm {
        ObserveHigherTerm(request.term);
      }
      role := Follower;
      leaderId := Some(request.leader);
      ReplaceLogWith(request.entries);
      commitIndex := Min(request.leaderCommit, |log|);
      ApplyCommittedEntries();
      response := AppendResponse(currentTerm, id, true, LastPosition(log).index);
    }

    /** `_advance_commit_index`, with the cluster's majority. */
    method AdvanceCommitIndex(majority: nat) returns (moved: bool)
      requires commitIndex <= |log|
      modifies this
      ensures (State(), moved) == AdvanceCommit(old(State()), majority)
    {
      var newCommitIndex := commitIndex;
      for candidate := commitIndex + 1 to |log| + 1
        invariant commitIndex <= candidate - 1 <= |log|
        invariant newCommitIndex == CommitCandidate(State(), majority, candidate - 1)
        invariant State() == old(State())
      {
        var entry := log[candidate - 1];
        if entry.term != currentTerm {
          continue;
        }
        assert (set p | p in matchIndexByPeer && matchIndexByPeer[p] >= candidate) == Holders(State(), candidate);
        if |set p | p in matchIndexByPeer && matchIndexByPeer[p] >= candidate| >= majority {
          newCommitIndex := candidate;
        }
      }
      if newCommitIndex == commitIndex {
        return false;
      }
      commitIndex := newCommitIndex;
      ApplyCommittedEntries();
      moved := true;
    }
  }
}
