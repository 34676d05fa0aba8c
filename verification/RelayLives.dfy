/** The lives of tasks in the replicated machine (lab 25): what the accepted commands of a task are, and what they make of it. */
module RelayLives {
  import opened Options
  import opened Sequences
  import opened RelayTasks

  function AboutTask(id: string): Command -> bool {
    (c: Command) => c.taskId == id
  }

  /** The accepted commands of one task, in order. */
  function About(history: seq<Command>, id: string): seq<Command> {
    Filter(history, AboutTask(id))
  }

  /** A task is enqueued, then started, then completed by the worker that started it; this is how far it has come. */
  ghost predicate IsLife(life: seq<Command>) {
    && |life| <= 3
    && (|life| >= 1 ==> life[0].EnqueueTask?)
    && (|life| >= 2 ==> life[1].StartTask?)
    && (|life| == 3 ==> life[2].CompleteTask? && life[2].completedBy == life[1].startedBy)
  }

  /** The task that a life leaves behind. */
  ghost function Outcome(id: string, life: seq<Command>): Option<Task>
    requires IsLife(life)
  {
    if life == [] then None
    else
      Some(Task(
        id, life[0].queue, if |life| == 1 then Queued else if |life| == 2 then Running else Completed, life[0].createdTick,
        if |life| == 1 then None else Some(life[1].startedBy), if |life| == 1 then 0 else life[1].attempt,
        if |life| == 3 then Some(life[2].completedTick) else None))
  }

  /** The machine holds, for every task id, what that task's accepted commands leave behind. */
  ghost predicate Tells(m: Machine) {
    forall id :: IsLife(About(m.history, id)) && Lookup(m, id) == Outcome(id, About(m.history, id))
  }

  lemma AboutSnoc(history: seq<Command>, c: Command, id: string)
    ensures About(history + [c], id) == if c.taskId == id then About(history, id) + [c] else About(history, id)
  {
    FilterSnoc(history, c, AboutTask(id));
  }

  /** A command is accepted exactly when it is the next step of its task's life. */
  lemma AcceptsNextStep(m: Machine, c: Command)
    requires Tells(m)
    ensures Apply(m, c).Ok? <==> IsLife(About(m.history, c.taskId) + [c])
    ensures Apply(m, c).Ok? ==> Tells(Apply(m, c).value) && Apply(m, c).value.history == m.history + [c]
  {
    var life := About(m.history, c.taskId);
    assert IsLife(life) && Lookup(m, c.taskId) == Outcome(c.taskId, life);
    if Apply(m, c).Ok? {
      var n := Apply(m, c).value;
      forall id ensures IsLife(About(n.history, id)) && Lookup(n, id) == Outcome(id, About(n.history, id)) {
        AboutSnoc(m.history, c, id);
        assert IsLife(About(m.history, id)) && Lookup(m, id) == Outcome(id, About(m.history, id));
      }
    }
  }

  /** In every machine that commands can lead to, the accepted commands of a task tell all about it. */
  lemma {:induction false} TasksTellTheirHistory(commands: seq<Command>)
    ensures Tells(Run(commands))
  {
    hide Tells;
    if commands == [] {
      NothingTold();
    } else {
      TasksTellTheirHistory(commands[..|commands| - 1]);
      AcceptsNextStep(Run(commands[..|commands| - 1]), commands[|commands| - 1]);
    }
  }

  lemma NothingTold()
    ensures Tells(EMPTY_MACHINE)
  {
  }

  /** A command is accepted exactly when it is the next step of its task's life; a refusal says which step was missing. */
  lemma RefusalSaysWhy(commands: seq<Command>, next: Command)
    ensures var life, answer := About(Run(commands).history, next.taskId), Apply(Run(commands), next);
            && IsLife(life) && (answer.Ok? <==> IsLife(life + [next]))
            && (answer == Err(AlreadyExists(next.taskId)) <==> next.EnqueueTask? && life != [])
            && (answer == Err(DoesNotExist(next.taskId)) <==> !next.EnqueueTask? && life == [])
            && (answer == Err(NotQueued(next.taskId)) <==> next.StartTask? && |life| >= 2)
            && (answer == Err(NotRunning(next.taskId)) <==> next.CompleteTask? && life != [] && |life| != 2)
            && (answer.Err? && answer.error.OwnedBy? <==> next.CompleteTask? && |life| == 2 && life[1].startedBy != next.completedBy)
            && (answer.Err? && answer.error.OwnedBy? ==> answer.error == OwnedBy(next.taskId, Some(life[1].startedBy)))
  {
    TasksTellTheirHistory(commands);
    var m, id := Run(commands), next.taskId;
    AcceptsNextStep(m, next);
    assert IsLife(About(m.history, id)) && Lookup(m, id) == Outcome(id, About(m.history, id));
  }
}
