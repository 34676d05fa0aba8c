/** The mutable relay replica of lab 22; its methods compute the value model's steps. */
module RelayReplicaObject {
  import opened Clocks
  import opened Causality

  datatype Recorded = Done(update: Update) | ContractError

  class RelayReplica {
    const nodeId: Node
    var counter: nat
    var vectors: map<TaskId, VectorClock>
    var history: map<TaskId, seq<Update>>

    function State(): Replica
      reads this
    {
      Replica(counter, vectors, history)
    }

    constructor (nodeId: Node)
      ensures this.nodeId == nodeId && State() == NEW_REPLICA
    {
      this.nodeId := nodeId;
      counter, vectors, history := 0, map[], map[];
    }

    /** `wellFormed` is the outcome of the update's own checks on its strings, made after the clock ticked. */
    method RecordLocalUpdate(task: TaskId, detail: string, wellFormed: bool) returns (result: Recorded)
      modifies this
      ensures wellFormed ==> State() == Record(old(State()), nodeId, task, detail)
                             && result == Done(NextUpdate(old(State()), nodeId, task, detail))
      ensures !wellFormed ==> State() == Refuse(old(State())) && result == ContractError
    {
      var base := if task in vectors then vectors[task] else map[];
      var next := Increment(base, nodeId);
      counter := counter + 1;
      if !wellFormed { return ContractError; }
      var update := Update(task, nodeId, detail, Stamp(counter, nodeId), next);
      vectors := vectors[task := next];
      history := history[task := (if task in history then history[task] else []) + [update]];
      result := Done(update);
    }

    method ObserveRemoteUpdate(update: Update)
      modifies this
      ensures State() == Observe(old(State()), update)
    {
      var merged := MergeClocks(if update.task in vectors then vectors[update.task] else map[], update.vector);
      vectors := vectors[update.task := merged];
      counter := Larger(counter, update.lamport.counter) + 1;
      history := history[update.task := (if update.task in history then history[update.task] else []) + [update]];
    }
  }
}
