/** The task state machine that the replicated log drives (lab 25). */
module RelayTasks {
  import opened Options

  datatype TaskStatus = Queued | Running | Completed

  datatype Task = Task(
    taskId: string,
    queue: string,
    status: TaskStatus,
    createdTick: int,
    workerId: Option<string>,
    attempt: int,
    completedTick: Option<int>)

  datatype Command =
    | EnqueueTask(taskId: string, queue: string, createdTick: int)
    | StartTask(taskId: string, startedBy: string, attempt: int)
    | CompleteTask(taskId: string, completedBy: string, completedTick: int)

  /** The domain errors of the state machine, one per message it raises. */
  datatype Rejection =
    | AlreadyExists(taskId: string)
    | DoesNotExist(taskId: string)
    | NotQueued(taskId: string)
    | NotRunning(taskId: string)
    | OwnedBy(taskId: string, owner: Option<string>)

  datatype Machine = Machine(tasks: map<string, Task>, history: seq<Command>)

  const EMPTY_MACHINE := Machine(map[], [])

  function Apply(m: Machine, command: Command): Result<Machine, Rejection> {
    var id := command.taskId;
    match command
    case EnqueueTask(_, queue, tick) =>
      if id in m.tasks then Err(AlreadyExists(id))
      else Accept(m, command, Task(id, queue, Queued, tick, None, 0, None))
    case StartTask(_, worker, attempt) =>
      if id !in m.tasks then Err(DoesNotExist(id))
      else if m.tasks[id].status != Queued then Err(NotQueued(id))
      else Accept(m, command, m.tasks[id].(status := Running, workerId := Some(worker), attempt := attempt, completedTick := None))
    case CompleteTask(_, worker, tick) =>
      if id !in m.tasks then Err(DoesNotExist(id))
      else if m.tasks[id].status != Running then Err(NotRunning(id))
      else if m.tasks[id].workerId != Some(worker) then Err(OwnedBy(id, m.tasks[id].workerId))
      else Accept(m, command, m.tasks[id].(status := Completed, completedTick := Some(tick)))
  }

  function Accept(m: Machine, command: Command, task: Task): Result<Machine, Rejection> {
    Ok(Machine(m.tasks[command.taskId := task], m.history + [command]))
  }

  /** Runs commands in order, skipping the ones the machine rejects. */
  function Run(commands: seq<Command>): Machine {
    if commands == [] then EMPTY_MACHINE
    else
      var before := Run(commands[..|commands| - 1]);
      match Apply(before, commands[|commands| - 1])
      case Ok(after) => after
      case Err(_) => before
  }

  lemma AcceptedIsRecorded(m: Machine, command: Command)
    ensures Apply(m, command).Ok? ==> Apply(m, command).value.history == m.history + [command]
  {
  }

  /** The history alone rebuilds the machine. */
  lemma {:induction false} HistoryRebuildsTheMachine(commands: seq<Command>)
    ensures Run(Run(commands).history) == Run(commands)
  {
    if commands != [] {
      var before := Run(commands[..|commands| - 1]);
      var last := commands[|commands| - 1];
      HistoryRebuildsTheMachine(commands[..|commands| - 1]);
      AcceptedIsRecorded(before, last);
      hide Apply;
      if Apply(before, last).Ok? {
        var h := Run(commands).history;
        assert h[..|h| - 1] == before.history && h[|h| - 1] == last;
      }
    }
  }

  /** Replaying the history never meets a rejection. */
  lemma {:induction false} HistoryIsNeverRejected(commands: seq<Command>, k: nat)
    requires k < |Run(commands).history|
    ensures Apply(Run(Run(commands).history[..k]), Run(commands).history[k]).Ok?
  {
    var before := Run(commands[..|commands| - 1]);
    var h := Run(commands).history;
    if k < |before.history| {
      HistoryIsNeverRejected(commands[..|commands| - 1], k);
      assert h[..k] == before.history[..k];
    } else {
      HistoryRebuildsTheMachine(commands[..|commands| - 1]);
      assert h[..k] == before.history;
    }
  }

  /** What a task may go through: a started task was queued, a completed one was running under the same worker. */
  ghost predicate LegalChange(before: Option<Task>, after: Option<Task>) {
    match (before, after)
    case (None, None) => true
    case (None, Some(t)) => t.status == Queued && t.workerId == None && t.completedTick == None
    case (Some(_), None) => false
    case (Some(b), Some(a)) =>
      a == b
      || (a.taskId == b.taskId && a.queue == b.queue && a.createdTick == b.createdTick
          && ((b.status == Queued && a.status == Running && a.workerId.Some?)
              || (b.status == Running && a.status == Completed && a.workerId == b.workerId && a.attempt == b.attempt)))
  }

  function Lookup(m: Machine, id: string): Option<Task> {
    if id in m.tasks then Some(m.tasks[id]) else None
  }

  ghost predicate TaskShape(m: Machine) {
    forall id :: id in m.tasks ==>
                   && m.tasks[id].taskId == id
                   && (m.tasks[id].status == Queued <==> m.tasks[id].workerId == None)
                   && (m.tasks[id].status == Completed <==> m.tasks[id].completedTick.Some?)
  }

  lemma {:induction false} RunKeepsTaskShape(commands: seq<Command>)
    ensures TaskShape(Run(commands))
  {
    if commands != [] {
      RunKeepsTaskShape(commands[..|commands| - 1]);
    }
  }

  /** One more command never removes a task, never moves it backwards and never re-assigns a running one. */
  lemma TasksOnlyMoveForward(commands: seq<Command>, next: Command, id: string)
    ensures LegalChange(Lookup(Run(commands), id), Lookup(Run(commands + [next]), id))
  {
    RunKeepsTaskShape(commands);
    assert (commands + [next])[..|commands|] == commands;
  }
}
