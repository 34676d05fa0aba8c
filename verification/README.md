# Verified models of the lab algorithms

This project models the protocols and algorithms at the heart of the repository's labs in Dafny and proves what they
are for. Each group of files stands for one lab. Where the original changes state step by step, the model has the
same objects and loops (`*Object.dfy`, `RaftObjects.dfy`, `RingBuffer.dfy`, the graph and DAG methods), proved
against functions on values; the theorems about whole runs are lemmas about those functions.

- **Replicated log (lab 25)**: `RelayTasks`, `RaftNode`, `RaftCluster`, `RaftHistory`, `RaftPreserve`, `RaftReplicate`,
  `RaftSteps`, `RaftSafety`, `RaftElections`, `RaftCommits`, `RaftLives`, `RaftBallots`, `RaftProgress`, `RaftReports`, `RelayLives`,
  `RaftScenarios`, `RaftDirty`, `RaftFork`, `RaftRegress`, `RaftObjects`, `RaftClusterObject`. A cluster of any size, any partitions, crashes, restarts and timeouts; every public method of the
  cluster is one step. Leader completeness, agreement of applied and committed prefixes, log matching, election safety
  and "state equals a replay of the applied prefix" hold in every run in which every timeout satisfies
  `RaftCluster.CleanRound`: a vote round that breaks off on a newer term has no majority yet. That is a condition on the
  state before the call. Without it the original installs a leader in a term it has no vote in (lines 497-506), and the
  safety is lost: in `RaftFork.CommitsFork` one such round among eleven calls on five nodes is enough for two nodes to
  commit different commands at the same index. `RaftDirty.ConflictIsReachable` exhibits six calls on three nodes that
  end in the original's own leadership-conflict error. `RaftSteps.ConflictExactly` says in every well-formed state
  exactly when a timeout ends in that error, and `RaftSafety.ConflictExactlyAfterCleanRun` that after a clean run only
  such a round can. Election safety is exact over all runs, with no hypothesis: by
  `RaftElections.ElectionSafetyExactly` no two nodes ever lead one term if and only if no timeout meets a state that
  `RaftSteps.WillConflict` describes, and by `RaftElections.ConflictIsAlwaysReported` the original's error misses no
  violation. A commit index may fall (lines 375-379): `RaftRegress.CommitRegresses` is a clean run of ten calls in which
  it does, and `RaftCommits.StepCommitFallsExactly` says exactly which calls make it fall. Safety is therefore stated
  over everything ever committed or applied. Beside safety, the calls are described exactly: who is up and whom it
  reaches (`RaftLives`), what a timeout and a replication do to every node (`RaftBallots`), when a submit commits and what
  it reports (`RaftProgress`, `RaftReports`), and what a task's accepted commands say about it (`RelayLives`).
- **DAG engine (lab 30)**: `DagModel`, `DagPlans`, `DagCycles`, `DagRun`, `DagTimes`, `DagBound`, `DagOrder`, `DagEngine`. The cycle check and the event
  loop with retries, failures, skips and a worker cap. Its outcome is characterised without reference to the schedule
  (`DagModel.Settled`), task by task from its plan alone (`DagPlans`), and its length by Graham's bound, proved for runs with retries and failures too.
- **Graphs (lab 06)**: `Walks`, `BellmanFord`, `Dijkstra`, `Digraphs`, `Traversal`, `Ordering`. Shortest paths against the set of all
  walks; depth-first order against the recursive preorder, which is pinned node by node; shortest routes by hops; topological order. The original's
  cycle error says that the cycle "contains" the nodes it names, but its code names all nodes that a cycle leads to;
  the model follows the code (`Ordering.IsBlocked`). `Ordering.NamedOffCycle` is a graph in which a named node is on no
  cycle, and `Ordering.BlockedAreOnCyclesExactly` says when all named nodes are on cycles.
- **Red-black tree (lab 06)**: `RedBlackModel`, `RedBlackObject`. Linked nodes rotated and recoloured in place compute the
  insertion on tree values, which is proved to be a map, ordered, balanced and logarithmic in height.
- **Admission control (lab 33)**: `Admission`, `AdmissionReplies`, `AdmissionObject`. A bounded queue before equally fast workers, its worst-case
  latency and the completion time that each accepted request is promised on acceptance. Times out of order break the
  first-in-first-out order; `Admission.FifoExactlyInTime` says exactly which runs keep it. What callers are told, retry times included, holds
  for calls in any order.
- **Logical clocks (lab 22)**: `Clocks`, `Causality`, `CausalityCounters`,
  `RelayReplicaObject`. The original keeps one vector
  clock for each task and one Lamport counter for each replica. Vector clocks decide, in every run of replicas, which
  update of a task reached which other through updates of that task (`Causality.TaskCauses`). News that travels through
  another task's updates they do not see: `Causality.CrossTaskCauseIsConcurrent` is such a run, and
  `Causality.VectorsDecideExactly` says in which runs BEFORE is happened-before across tasks. Lamport stamps and the
  logical order respect happened-before across tasks in every run.
- **Framing (lab 16)**: `Framing`, `RingBuffer`, `FrameReader`. The bytes on the wire, the lengths most significant byte first; a wrapping array refines a byte queue; reading depends only on the bytes,
  not on how they are cut into chunks.
- **Partitioned store (lab 28)**: `HashRing`, `TaskStore`, `TaskHistory`, `TaskStoreObject`. Ring stability for any hash, and
  what quorum reads return, stated over the write calls of the run alone (`TaskHistory.Current`).
- **Resource scheduler (lab 38)**: `Scheduler`, `SchedulerSafety`, `SchedulerRuns`, `SchedulerOnNode`, `SchedulerLeases`,
  `SchedulerPlacement`, `SchedulerOrder`, `SchedulerDevices`, `SchedulerCalls`, `SchedulerObject`. Allocation
  safety, quotas, job lifecycle, the log as the whole truth, and maximality of a scheduling pass; and for each call
  exactly when it is accepted and all that it changes: which leases end, which jobs come first, which node, CPUs and GPUs
  they get. Two things the
  original does are kept as they are: CPU affinity is not cut down to the node's CPUs unless a NUMA node is given (lines
  535-540), and a heartbeat may report less than is in use, of CPUs and GPUs as of memory (lines 228-234).
  `SchedulerOnNode.RunOnNodeExactly` says exactly which runs keep every allocation on CPUs and GPUs of its node, and
  `OffNodeReservation` and `ShrinkingHeartbeat` are one run for each way to leave it; `SchedulerRuns.MemoryFitsExactly`
  says exactly which runs keep memory within bounds.

`Options`, `Sets`, `Sequences` and `Sums` are shared helpers.

Ids are natural numbers in their usual order; where only equality matters nothing else is used. Weights are reals.
Times, durations and counters are unbounded integers, as in Python. Hash functions are arbitrary.

## Model

| member | source | states |
|---|---|---|
| RelayTasks.HistoryRebuildsTheMachine | labs/25-replicated-log/src/lab_25_replicated_log/simulation.py:219-265 | running the accepted history alone rebuilds tasks and history, whatever was rejected in between |
| RelayTasks.HistoryIsNeverRejected | labs/25-replicated-log/src/lab_25_replicated_log/simulation.py:219-256 | replaying the history never meets a rejection |
| RelayTasks.RunKeepsTaskShape | labs/25-replicated-log/src/lab_25_replicated_log/simulation.py:219-256 | in every reachable machine a task's id, status, worker and completion tick fit together |
| RelayTasks.TasksOnlyMoveForward | labs/25-replicated-log/src/lab_25_replicated_log/simulation.py:219-256 | no command removes a task, moves it backwards or hands a running task to another worker |
| RelayLives.TasksTellTheirHistory | labs/25-replicated-log/src/lab_25_replicated_log/simulation.py:219-256 | in every reachable machine a task is exactly what its accepted commands say: queue and tick of its enqueuing, worker and attempt of its start, tick of its completion, in this order and each at most once |
| RelayLives.RefusalSaysWhy | labs/25-replicated-log/src/lab_25_replicated_log/simulation.py:219-256 | a command is accepted if and only if it is the next step of its task's accepted commands; each refusal names exactly the step that is missing or already taken, and changes nothing |
| RaftNode.ApplyCommittedReplays | labs/25-replicated-log/src/lab_25_replicated_log/simulation.py:404-413 | applying committed entries one by one reaches the fresh replay of the committed prefix |
| RaftNode.RebuildReplays | labs/25-replicated-log/src/lab_25_replicated_log/simulation.py:423-431 | a rebuild reaches the replay of the committed prefix and clamps the commit index to the log |
| RaftNode.ReceiveAppendReplays | labs/25-replicated-log/src/lab_25_replicated_log/simulation.py:363-385 | accepting the leader's log leaves machine, history and rejections equal to a replay, also when the commit index regresses |
| RaftCluster.StepKeepsWellFormed | labs/25-replicated-log/src/lab_25_replicated_log/simulation.py:479-569 | every public call keeps partitions, peers and log indices well-formed |
| RaftCluster.InitAccepts | labs/25-replicated-log/src/lab_25_replicated_log/simulation.py:455-467 | a cluster is accepted exactly with at least three distinct ids, and starts well-formed |
| RaftLives.ReachableExactly | labs/25-replicated-log/src/lab_25_replicated_log/simulation.py:571-576 | a node's peers are exactly the other running nodes that share a partition group with it, each once, in cluster order |
| RaftLives.GroupsAccepted | labs/25-replicated-log/src/lab_25_replicated_log/simulation.py:180-203 | the checks on partition groups accept exactly the groups that split the nodes: none empty, no two overlapping, all nodes and no others |
| RaftLives.PartitionTakesEffect | labs/25-replicated-log/src/lab_25_replicated_log/simulation.py:479-483 | after an accepted partition nodes reach each other exactly along its groups, after healing all running ones do; no node changes |
| RaftLives.CrashTakesDown | labs/25-replicated-log/src/lab_25_replicated_log/simulation.py:485-486 | after a crash the node is nobody's peer and every call to it is refused as crashed and changes nothing; its term, vote, log and commit index stay, and no other node changes |
| RaftLives.RestartBringsUp | labs/25-replicated-log/src/lab_25_replicated_log/simulation.py:488-491 | after a restart the node is up, a follower of nobody, reached by its whole group and not refused; its term, vote, log and commit index stay, all it committed is applied, and no other node changes |
| RaftLives.StepRuns | labs/25-replicated-log/src/lab_25_replicated_log/simulation.py:479-569 | only a node's own crash takes it down and only its own restart brings it up |
| RaftLives.RunningExactly | labs/25-replicated-log/src/lab_25_replicated_log/simulation.py:316-327 | in any run a node is up if and only if its last crash or restart so far is a restart, or it has had none |
| RaftHistory.QuorumsMeet | labs/25-replicated-log/src/lab_25_replicated_log/simulation.py:469-471 | two majorities share a node |
| RaftHistory.QuorumIsLeast | labs/25-replicated-log/src/lab_25_replicated_log/simulation.py:469-471 | a majority is the least size for that: two sets of one node less can be disjoint |
| RaftHistory.CommittedIsInLaterLogs | labs/25-replicated-log/src/lab_25_replicated_log/simulation.py:552-569 | a committed prefix is part of the log of every leader elected in its bound or later |
| RaftSteps.VoteRoundOutcome | labs/25-replicated-log/src/lab_25_replicated_log/simulation.py:497-503 | closed form of the vote loop: who granted, and whether it broke off, from the state before the round |
| RaftBallots.TimeoutExactly | labs/25-replicated-log/src/lab_25_replicated_log/simulation.py:493-507 | a timeout in any well-formed state, node by node: peers are asked in order up to the first in a later term; each asked one enters the new term and votes if its vote is free and the candidate's log ends no earlier than its own; more than half of all nodes make a leader; a later term is taken over; the answer, the record of leaders and the conflict error follow |
| RaftBallots.ReplicateExactly | labs/25-replicated-log/src/lab_25_replicated_log/simulation.py:530-550 | a replication, node by node: those reached in no later term take over log, commit index and term and follow the sender, all others are untouched, the sender steps down into the latest term it is told of, and the answers say so in order |
| RaftSteps.CleanRoundIsExact | labs/25-replicated-log/src/lab_25_replicated_log/simulation.py:493-507 | the hypothesis checked before the timeout fails exactly when a round that breaks off has a majority |
| RaftSteps.VoteRoundKeepsInv | labs/25-replicated-log/src/lab_25_replicated_log/simulation.py:349-361 | collecting votes keeps the invariant, with the granted set backed by recorded votes |
| RaftSteps.TimeoutKeepsInv | labs/25-replicated-log/src/lab_25_replicated_log/simulation.py:493-507 | a clean timeout keeps the invariant; the recorded history only grows |
| RaftSteps.ConflictExactly | labs/25-replicated-log/src/lab_25_replicated_log/simulation.py:493-507 | in every well-formed state a timeout raises the leadership conflict if and only if, judged by the state before it, the node wins a term or steps into one with a majority that somebody else is recorded to lead |
| RaftSteps.AppendRoundKeepsInv | labs/25-replicated-log/src/lab_25_replicated_log/simulation.py:541-549 | whole-log replication keeps the invariant through stale match indices and a leader deposed midway |
| RaftSteps.QualifiedIsChosen | labs/25-replicated-log/src/lab_25_replicated_log/simulation.py:554-564 | an index that passes the commit test of a sitting leader is chosen in the leader's term |
| RaftSteps.AdvanceKeepsInv | labs/25-replicated-log/src/lab_25_replicated_log/simulation.py:552-569 | advancing the commit index keeps the invariant |
| RaftSteps.SubmitKeepsInv | labs/25-replicated-log/src/lab_25_replicated_log/simulation.py:509-528 | a whole submit keeps the invariant, also when the leader steps down during it |
| RaftSteps.StepKeepsInv | labs/25-replicated-log/src/lab_25_replicated_log/simulation.py:479-569 | every clean public call keeps the invariant |
| RaftSteps.InitialInv | labs/25-replicated-log/src/lab_25_replicated_log/simulation.py:455-467 | a new cluster satisfies the invariant |
| RaftSafety.LeaderCompleteness | labs/25-replicated-log/src/lab_25_replicated_log/simulation.py:493-569 | whatever a node ever had committed is at the same index in the log of every leader of no smaller term, then or later |
| RaftSafety.AppliedPrefixesAgree | labs/25-replicated-log/src/lab_25_replicated_log/simulation.py:404-445 | what any two nodes applied, at any two moments, is one log read to two depths |
| RaftSafety.CommittedPrefixesNeverFork | labs/25-replicated-log/src/lab_25_replicated_log/simulation.py:552-569 | committed prefixes of any two nodes at any two moments agree likewise |
| RaftSafety.AppliedStateIsReplay | labs/25-replicated-log/src/lab_25_replicated_log/simulation.py:316-445 | machine, history and rejections of every node equal a replay of its applied prefix in every reachable state |
| RaftSafety.LogMatching | labs/25-replicated-log/src/lab_25_replicated_log/simulation.py:394-402 | equal index and term in two logs, at any two moments, means equal logs up to there |
| RaftSafety.ElectionSafety | labs/25-replicated-log/src/lab_25_replicated_log/simulation.py:493-507 | in a run of clean timeouts no two nodes ever lead the same term |
| RaftElections.ElectionSafetyExactly | labs/25-replicated-log/src/lab_25_replicated_log/simulation.py:479-590 | in any run of public calls, no two nodes are leaders of one term at any two moments if and only if no timeout of a running node meets a state that says it will seat the node in a term somebody else is on record for |
| RaftElections.ConflictIsAlwaysReported | labs/25-replicated-log/src/lab_25_replicated_log/simulation.py:584-590 | in any run two nodes lead one term if and only if some timeout raises the leadership conflict |
| RaftSafety.NoLeadershipConflict | labs/25-replicated-log/src/lab_25_replicated_log/simulation.py:584-590 | a clean timeout never raises the leadership conflict |
| RaftSafety.ConflictExactlyAfterCleanRun | labs/25-replicated-log/src/lab_25_replicated_log/simulation.py:584-590 | after a clean run a timeout raises the conflict if and only if its round breaks off with a majority on a peer whose term has a leader |
| RaftSafety.CommittedCommandSurvives | labs/25-replicated-log/src/lab_25_replicated_log/simulation.py:509-528 | a command reported as committed is at its reported index in every later leader's log |
| RaftProgress.LeaderCommits | labs/25-replicated-log/src/lab_25_replicated_log/simulation.py:509-569 | a leader that makes a majority with the nodes it reaches, none in a later term, commits a submitted command at once, and all it reaches end with its log, fully committed |
| RaftProgress.SubmitReportsTakers | labs/25-replicated-log/src/lab_25_replicated_log/simulation.py:509-528 | an answered submit names its node, index and term, and as replicas exactly that node and those that took the log |
| RaftReports.SubmitCommitsExactly | labs/25-replicated-log/src/lab_25_replicated_log/simulation.py:509-569 | after a clean run a submit to a running leader is answered, and reports the command as committed if and only if no node in reach is in a later term and they make a majority with the leader |
| RaftReports.RejectionIsTheMachines | labs/25-replicated-log/src/lab_25_replicated_log/simulation.py:415-421 | and the rejection it reports is the one with which the machine, after the commands before it in the log, answers the command; none while it is not committed |
| RaftSafety.StepVotesStand | labs/25-replicated-log/src/lab_25_replicated_log/simulation.py:329-361 | on every call at all, terms do not fall and a vote given in a term is not given to somebody else |
| RaftSafety.OneVotePerTerm | labs/25-replicated-log/src/lab_25_replicated_log/simulation.py:329-361 | the same over whole runs, with no hypothesis on timeouts |
| RaftSafety.TimeoutIsSafeExactlyWhenClean | labs/25-replicated-log/src/lab_25_replicated_log/simulation.py:497-506 | in every cleanly reached state a timeout leaves every leader with its own vote if and only if the round is clean |
| RaftDirty.ConflictIsReachable | labs/25-replicated-log/src/lab_25_replicated_log/simulation.py:493-507 | six public calls on three nodes reach the leadership-conflict error |
| RaftFork.CommitsFork | labs/25-replicated-log/src/lab_25_replicated_log/simulation.py:493-528 | eleven public calls on five nodes, all but one timeout clean, after which a leader of a later term lacks a committed command, and then two nodes have committed different commands at the same index |
| RaftCommits.CommitFallsExactly | labs/25-replicated-log/src/lab_25_replicated_log/simulation.py:363-385 | a received request lowers the commit index if and only if its term is not stale and the sender's commit index, cut to the log sent, is lower |
| RaftCommits.StepCommitFallsExactly | labs/25-replicated-log/src/lab_25_replicated_log/simulation.py:479-569 | a public call lowers a node's commit index if and only if it brings the node an accepted request of a running leader that knows of fewer commits |
| RaftRegress.CommitRegresses | labs/25-replicated-log/src/lab_25_replicated_log/simulation.py:375-379 | ten public calls on three nodes, all timeouts clean, after which a node has a lower commit index than before |
| RaftObjects.ReplicatedLogNode.ApplyCommand | labs/25-replicated-log/src/lab_25_replicated_log/simulation.py:219-256 | the machine's fields change as the value model says, and not at all on a rejection |
| RaftObjects.ReplicatedLogNode.ApplyCommittedEntries | labs/25-replicated-log/src/lab_25_replicated_log/simulation.py:404-413 | the loop computes the recursive specification |
| RaftObjects.ReplicatedLogNode.ReceiveVoteRequest | labs/25-replicated-log/src/lab_25_replicated_log/simulation.py:349-361 | new state and answer are those of the value model |
| RaftObjects.ReplicatedLogNode.ReplaceLogWith | labs/25-replicated-log/src/lab_25_replicated_log/simulation.py:433-445 | keeping the shared prefix and taking over the rest leaves exactly the authoritative log |
| RaftObjects.ReplicatedLogNode.ReceiveAppendEntries | labs/25-replicated-log/src/lab_25_replicated_log/simulation.py:363-385 | new state and answer are those of the value model |
| RaftObjects.ReplicatedLogNode.AdvanceCommitIndex | labs/25-replicated-log/src/lab_25_replicated_log/simulation.py:552-569 | the loop over candidate indices finds the last qualifying one |
| RaftClusterObject.ReplicatedRelayCluster.TriggerTimeout | labs/25-replicated-log/src/lab_25_replicated_log/simulation.py:493-507 | the object's timeout is the value model's step, error cases included |
| RaftClusterObject.ReplicatedRelayCluster.ReplicateFromLeader | labs/25-replicated-log/src/lab_25_replicated_log/simulation.py:530-550 | the object's replication is the value model's |
| RaftClusterObject.ReplicatedRelayCluster.SubmitCommand | labs/25-replicated-log/src/lab_25_replicated_log/simulation.py:509-528 | the object's submit is the value model's step |
| RaftClusterObject.ReplicatedRelayCluster.SetPartition | labs/25-replicated-log/src/lab_25_replicated_log/simulation.py:479-480 | groups are accepted exactly when they are non-empty, disjoint, known and cover all nodes |
| DagEngine.CreateAccepts | labs/30-dag-engine/src/lab_30_dag_engine/engine.py:71-92 | the constructor accepts exactly a positive width, distinct ids and known dependencies, and the graph then holds just the given nodes; otherwise its error names the first of these conditions that fails |
| DagCycles.Validate | labs/30-dag-engine/src/lab_30_dag_engine/engine.py:94-100 | the check passes exactly on acyclic graphs and otherwise names a cycle of the graph |
| DagModel.SettlesOneWay | labs/30-dag-engine/src/lab_30_dag_engine/engine.py:120-200 | the results of a graph are determined by graph and plans: the worker cap cannot change them |
| DagModel.SkippedBelowFailures | labs/30-dag-engine/src/lab_30_dag_engine/engine.py:188-200 | a task ends skipped exactly when a task above it failed |
| DagPlans.ResultFromPlan | labs/30-dag-engine/src/lab_30_dag_engine/engine.py:148-186 | the result of a started task from its plan alone: success in one attempt without a plan; otherwise it ends with the first outcome that is no retry or meets the attempt limit, succeeds if and only if that is a success, after as many attempts as outcomes read, and else carries its detail |
| DagPlans.ExhaustedHasNoEnd | labs/30-dag-engine/src/lab_30_dag_engine/engine.py:249-254 | a task whose due plan runs out has a plan with no outcome that ends it |
| DagPlans.NoPlansAllSucceed | labs/30-dag-engine/src/lab_30_dag_engine/engine.py:249-251 | without plans every task succeeds in one attempt |
| DagPlans.RecordsFromPlan | labs/30-dag-engine/src/lab_30_dag_engine/engine.py:157-165 | the records of a run from the plans: one successful tick for a task without a plan, otherwise the outcomes and durations of its plan in order, as many as its attempts |
| DagPlans.ParallelismIsExact | labs/30-dag-engine/src/lab_30_dag_engine/engine.py:139-142 | when every attempt took time the reported parallelism is the greatest number in progress at one instant |
| DagModel.HeightIsAPath | labs/30-dag-engine/src/lab_30_dag_engine/engine.py:257-258 | the critical-path measure is attained by a dependency path |
| DagModel.PathsAreBelowHeight | labs/30-dag-engine/src/lab_30_dag_engine/engine.py:257-258 | and no dependency path exceeds it |
| DagRun.FinishIsSteady | labs/30-dag-engine/src/lab_30_dag_engine/engine.py:148-186 | finishing an attempt keeps every task in one place, in dependency order, within its allowance and on track to its fate |
| DagTimes.LogIsWaited | labs/30-dag-engine/src/lab_30_dag_engine/engine.py:144-165 | finishing keeps "no attempt starts before its dependencies have succeeded" |
| DagTimes.AdvanceIsNarrow | labs/30-dag-engine/src/lab_30_dag_engine/engine.py:139-142 | while time moves no instant has more attempts in progress than workers |
| DagBound.FinishIsAhead | labs/30-dag-engine/src/lab_30_dag_engine/engine.py:148-186 | released and retried tasks have no longer path ahead of them than the attempt that released them |
| DagBound.AdvanceIsPaced | labs/30-dag-engine/src/lab_30_dag_engine/engine.py:120-142 | either all workers work or the longest path ahead shrinks with the clock |
| DagBound.FinishTakesOne | labs/30-dag-engine/src/lab_30_dag_engine/engine.py:168-186 | every recorded attempt uses up allowance: the loop ends |
| DagEngine.ExhaustedNeverSettles | labs/30-dag-engine/src/lab_30_dag_engine/engine.py:249-254 | a plan that runs out while its task is due leaves no consistent results at all |
| DagEngine.SkipSettles | labs/30-dag-engine/src/lab_30_dag_engine/engine.py:188-200 | skipping what waits below failures gives the results the plans determine |
| DagEngine.Descendants | labs/30-dag-engine/src/lab_30_dag_engine/engine.py:269-278 | the stack loop finds exactly the tasks strictly below one |
| DagEngine.Run | labs/30-dag-engine/src/lab_30_dag_engine/engine.py:102-207 | terminates; the cycle error, with a cycle, exactly on cyclic graphs; otherwise an exhausted plan exactly when no results agree with the plans; otherwise those results, attempts numbered, timed as planned, in order of their ends, after their dependencies, of two attempts that of the smaller task later only if it had to wait, never more at once than workers, the reported parallelism reached, the total time the end of the last attempt, and Graham's bound on it |
| Walks.ShortWalk | labs/06-trees-and-graphs/src/lab_06_trees_and_graphs/weighted_graph.py:153-164 | without a reachable negative cycle some walk of fewer edges than nodes is as light as any given one |
| BellmanFord.AllRoundsSettle | labs/06-trees-and-graphs/src/lab_06_trees_and_graphs/weighted_graph.py:153-167 | after the last round an edge still relaxes only if a negative cycle is reachable |
| BellmanFord.SettledMeansNoNegativeCycle | labs/06-trees-and-graphs/src/lab_06_trees_and_graphs/weighted_graph.py:163-167 | where nothing relaxes, early exit or not, there is no reachable negative cycle |
| BellmanFord.NoClosing | labs/06-trees-and-graphs/src/lab_06_trees_and_graphs/weighted_graph.py:159-162 | closing the predecessor map on itself would take a negative cycle |
| BellmanFord.Rehang | labs/06-trees-and-graphs/src/lab_06_trees_and_graphs/weighted_graph.py:160-161 | a new predecessor keeps every vertex on a chain from the source |
| BellmanFord.BellmanFord | labs/06-trees-and-graphs/src/lab_06_trees_and_graphs/weighted_graph.py:144-169 | the negative-cycle error exactly when one is reachable; otherwise exactly the reachable nodes with the least weight over all walks and a traceable predecessor map |
| BellmanFord.PathTo | labs/06-trees-and-graphs/src/lab_06_trees_and_graphs/weighted_graph.py:106-114 | terminates with a walk whose weight is the reported distance, or reports an unreachable target |
| Dijkstra.SettleFresh | labs/06-trees-and-graphs/src/lab_06_trees_and_graphs/weighted_graph.py:126-130 | a fresh smallest heap entry is final |
| Dijkstra.DropStale | labs/06-trees-and-graphs/src/lab_06_trees_and_graphs/weighted_graph.py:128-129 | a stale entry can be dropped |
| Dijkstra.ImproveEdge | labs/06-trees-and-graphs/src/lab_06_trees_and_graphs/weighted_graph.py:136-140 | an improvement keeps settled vertices final and every chain anchored, zero-weight cycles included |
| Dijkstra.Dijkstra | labs/06-trees-and-graphs/src/lab_06_trees_and_graphs/weighted_graph.py:117-141 | the negative-weight error exactly when a reachable node has a negative out-edge; otherwise the same result as specified for Bellman-Ford |
| Digraphs.PreorderConcat | labs/06-trees-and-graphs/src/lab_06_trees_and_graphs/graph.py:109-122 | visiting two lists in turn is visiting the second with the first's nodes seen |
| Digraphs.PreorderIsReachable | labs/06-trees-and-graphs/src/lab_06_trees_and_graphs/graph.py:109-122 | the preorder lists exactly the reachable nodes |
| Digraphs.DepthFirstGoesDeepest | labs/06-trees-and-graphs/src/lab_06_trees_and_graphs/graph.py:109-122 | each next node of the preorder is the first new neighbour of the latest listed node that has new neighbours, which with the source determines the order |
| Traversal.DepthFirst | labs/06-trees-and-graphs/src/lab_06_trees_and_graphs/graph.py:109-122 | the stack loop with duplicate entries lists the recursive neighbour-order preorder |
| Traversal.DepthFirstListsReachable | labs/06-trees-and-graphs/src/lab_06_trees_and_graphs/graph.py:109-122 | every reachable node once, and no other |
| Traversal.NoShorterRoute | labs/06-trees-and-graphs/src/lab_06_trees_and_graphs/graph.py:79-91 | nodes below the front's level are all discovered at their least hop count |
| Traversal.ShortestPath | labs/06-trees-and-graphs/src/lab_06_trees_and_graphs/graph.py:74-92 | a route with the fewest hops if there is one, the no-route error exactly if there is none |
| Ordering.StuckIsBehindCycle | labs/06-trees-and-graphs/src/lab_06_trees_and_graphs/graph.py:69-71 | nodes that all wait for one another lie behind a cycle |
| Ordering.OrderedIsFree | labs/06-trees-and-graphs/src/lab_06_trees_and_graphs/graph.py:62-68 | nothing a cycle leads to is ever ordered |
| Ordering.OrderMeansNoCycle | labs/06-trees-and-graphs/src/lab_06_trees_and_graphs/graph.py:55-72 | a topological order and a cycle exclude each other |
| Ordering.TopologicalOrder | labs/06-trees-and-graphs/src/lab_06_trees_and_graphs/graph.py:55-72 | an order of all nodes with all edges forward exactly when there is no cycle; otherwise exactly the nodes a cycle leads to |
| Ordering.NamedOffCycle | labs/06-trees-and-graphs/src/lab_06_trees_and_graphs/graph.py:69-71 | a graph whose cycle error names a node on no cycle |
| Ordering.BlockedAreOnCyclesExactly | labs/06-trees-and-graphs/src/lab_06_trees_and_graphs/graph.py:69-71 | the nodes the cycle error names are all on cycles if and only if no arc leads from a node on a cycle to one on none |
| RedBlackModel.LeftRepaired | labs/06-trees-and-graphs/src/lab_06_trees_and_graphs/red_black.py:120-127 | the repairs restore balance above a left subtree that became red, even twice over |
| RedBlackModel.RightRepaired | labs/06-trees-and-graphs/src/lab_06_trees_and_graphs/red_black.py:120-127 | the repairs restore balance above a right subtree that became red |
| RedBlackModel.InsertIsEven | labs/06-trees-and-graphs/src/lab_06_trees_and_graphs/red_black.py:103-127 | insertion keeps the black height, and two reds can meet only at a root that was red |
| RedBlackModel.InsertPlaces | labs/06-trees-and-graphs/src/lab_06_trees_and_graphs/red_black.py:103-127 | insertion puts the entry where it belongs among the items and moves no other |
| RedBlackModel.PutIsValid | labs/06-trees-and-graphs/src/lab_06_trees_and_graphs/red_black.py:44-48 | a put keeps the tree valid and updates its map |
| RedBlackModel.BuildIsMap | labs/06-trees-and-graphs/src/lab_06_trees_and_graphs/red_black.py:44-48 | after any sequence of puts the tree is valid and is the assigned map |
| RedBlackModel.FindIsLookup | labs/06-trees-and-graphs/src/lab_06_trees_and_graphs/red_black.py:50-59 | searching down from the root is looking up in the map |
| RedBlackModel.SizeIsCount | labs/06-trees-and-graphs/src/lab_06_trees_and_graphs/red_black.py:41-48 | a valid tree has one node for each key |
| RedBlackModel.InspectIsExact | labs/06-trees-and-graphs/src/lab_06_trees_and_graphs/red_black.py:80-99 | the validation below the root passes exactly on balanced trees with ascending keys, and returns the black height |
| RedBlackModel.HeightIsLogarithmic | labs/06-trees-and-graphs/src/lab_06_trees_and_graphs/red_black.py:34-48 | 2 to the power of half the height, rounded up, is at most the size plus one |
| RedBlackObject.RotateLeft | labs/06-trees-and-graphs/src/lab_06_trees_and_graphs/red_black.py:137-146 | the pointer rotation gives a proper tree of the same nodes, rotated as a value |
| RedBlackObject.RotateRight | labs/06-trees-and-graphs/src/lab_06_trees_and_graphs/red_black.py:148-157 | likewise to the right |
| RedBlackObject.InsertInto | labs/06-trees-and-graphs/src/lab_06_trees_and_graphs/red_black.py:103-127 | the recursive in-place insertion computes the value insertion and reports whether the key is new |
| RedBlackObject.RedBlackTree.Put | labs/06-trees-and-graphs/src/lab_06_trees_and_graphs/red_black.py:44-48 | the object stays valid, its size right, and its map is updated at the key |
| RedBlackObject.RedBlackTree.Get | labs/06-trees-and-graphs/src/lab_06_trees_and_graphs/red_black.py:50-59 | the search loop finds the map's value or nothing |
| RedBlackObject.RedBlackTree.ListItems | labs/06-trees-and-graphs/src/lab_06_trees_and_graphs/red_black.py:61-72 | the traversal returns the entries of the tree in key order and changes nothing |
| RedBlackObject.RedBlackTree.Validate | labs/06-trees-and-graphs/src/lab_06_trees_and_graphs/red_black.py:74-101 | validation of a valid tree never fails and returns its black height |
| Admission.CompleteKeepsTickets | labs/33-load-shedding/src/lab_33_load_shedding/backpressure.py:308-327 | a completion fulfils the first promised completion time and changes no other |
| Admission.SubmitAddsATicket | labs/33-load-shedding/src/lab_33_load_shedding/backpressure.py:291-303 | a submit adds one promise, due within the worst latency, or is refused by a full house and adds none |
| Admission.RunKeepsTickets | labs/33-load-shedding/src/lab_33_load_shedding/backpressure.py:291-346 | after any run with times in order the promises are those of exactly the accepted requests |
| Admission.WorstCaseLatency | labs/33-load-shedding/src/lab_33_load_shedding/backpressure.py:291-346 | with times in order: at most `workers` in flight, nobody waits beside an idle worker, requests start and complete in acceptance order, and every latency is between one service time and `ceil(queue_limit / workers) + 1` of them |
| Admission.TicketsStay | labs/33-load-shedding/src/lab_33_load_shedding/backpressure.py:291-346 | a ticket once issued keeps its place and its time through all later calls |
| Admission.DrainHonoursTickets | labs/33-load-shedding/src/lab_33_load_shedding/backpressure.py:329-334 | whatever ordered calls follow, draining completes each accepted request at the time on the ticket it was issued on acceptance, and completes no other |
| Admission.UnorderedTimesBreakFifo | labs/33-load-shedding/src/lab_33_load_shedding/backpressure.py:291-303 | with times out of order the later request can start first: two concrete calls |
| Admission.SubmitKeepsFifoExactly | labs/33-load-shedding/src/lab_33_load_shedding/backpressure.py:291-303 | a submit at any time keeps start and completion order if and only if all workers are busy then or nothing accepted completes later than the new request would |
| Admission.FifoExactlyInTime | labs/33-load-shedding/src/lab_33_load_shedding/backpressure.py:291-327 | with any times, what was accepted starts and completes in listed order throughout a run if and only if each submit meets that condition in the state it meets; and then completed, in-flight and waiting requests are the accepted ones in acceptance order |
| AdmissionReplies.DecisionTells | labs/33-load-shedding/src/lab_33_load_shedding/backpressure.py:291-303 | after any calls the decision tells what became of the request: started now, last in the queue behind busy workers, or refused by a full house with the exact time until the next completion; and the depth is the number then waiting |
| AdmissionReplies.RetryAfterIsExact | labs/33-load-shedding/src/lab_33_load_shedding/backpressure.py:348-350 | after any calls, a refused caller is refused again at every moment before the retry time, with the time that is then left, and accepted from it on |
| AdmissionReplies.DeepestIsReached | labs/33-load-shedding/src/lab_33_load_shedding/backpressure.py:300-300 | after any calls the reported depth is the longest the queue has been, and is reached |
| AdmissionObject.AdmissionController.Submit | labs/33-load-shedding/src/lab_33_load_shedding/backpressure.py:291-303 | the object's new state and decision are those of the value model |
| AdmissionObject.AdmissionController.AdvanceTo | labs/33-load-shedding/src/lab_33_load_shedding/backpressure.py:305-327 | the completion loop computes the recursive specification |
| Clocks.MergeClocks | labs/22-logical-clocks/src/lab_22_logical_clocks/clocks.py:90-94 | the loop over both clocks' nodes computes the pointwise maximum |
| Clocks.CompareClocks | labs/22-logical-clocks/src/lab_22_logical_clocks/clocks.py:96-110 | looking only at mentioned nodes decides the pointwise order over all nodes |
| Clocks.MergeIsLeastUpperBound | labs/22-logical-clocks/src/lab_22_logical_clocks/clocks.py:90-94 | a merge is the least clock that dominates both |
| Causality.ClocksAreKnowledge | labs/22-logical-clocks/src/lab_22_logical_clocks/relay.py:92-121 | at every moment a replica's clock for a task covers exactly the updates of that task it knows of, directly or through other updates of that task |
| Causality.ClocksAreHistory | labs/22-logical-clocks/src/lab_22_logical_clocks/relay.py:101-115 | an update's clock covers exactly itself and the updates of its task that lead to it through updates of its task |
| Causality.VectorOrderIsTaskCausality | labs/22-logical-clocks/src/lab_22_logical_clocks/relay.py:55-56 | BEFORE, AFTER and CONCURRENT say exactly which of two distinct updates of a task led to the other through updates of that task, in every run with any order and repetition of observations |
| Causality.BeforeHappenedBefore | labs/22-logical-clocks/src/lab_22_logical_clocks/relay.py:55-56 | BEFORE implies happened-before across all tasks |
| Causality.CrossTaskCauseIsConcurrent | labs/22-logical-clocks/src/lab_22_logical_clocks/relay.py:101-121 | a run in which an update happened before another of its task, through a second task, and the two compare as concurrent |
| Causality.VectorsDecideExactly | labs/22-logical-clocks/src/lab_22_logical_clocks/relay.py:101-121 | BEFORE is happened-before for all pairs of a run if and only if no replica records an update of a task after news of that task that reached it through other tasks alone |
| Causality.LamportRespectsCausality | labs/22-logical-clocks/src/lab_22_logical_clocks/clocks.py:49-55 | whatever happened before an update, through any tasks, has the smaller Lamport counter |
| CausalityCounters.CounterIsLongestChain | labs/22-logical-clocks/src/lab_22_logical_clocks/clocks.py:49-55 | in every run a replica's Lamport counter is the length of the longest chain of calls leading to it, refused ones included |
| CausalityCounters.UpdateSaysWho | labs/22-logical-clocks/src/lab_22_logical_clocks/relay.py:92-115 | an update carries the task, replica and words of its call |
| CausalityCounters.HistoryIsWhatWasShown | labs/22-logical-clocks/src/lab_22_logical_clocks/relay.py:92-125 | a replica's history of a task lists exactly the updates it recorded or observed, in order, repeats included |
| CausalityCounters.OrderIsByStamp | labs/22-logical-clocks/src/lab_22_logical_clocks/relay.py:127-130 | the logical order is by counter, equal counters by node |
| Causality.StampsAreUnique | labs/22-logical-clocks/src/lab_22_logical_clocks/clocks.py:49-55 | no two updates carry the same stamp |
| Causality.OrderIgnoresArrival | labs/22-logical-clocks/src/lab_22_logical_clocks/relay.py:127-130 | two sorted arrangements of the same distinctly stamped updates are equal |
| Causality.OrderExtendsCausality | labs/22-logical-clocks/src/lab_22_logical_clocks/relay.py:127-130 | in the logical order of updates of any tasks nothing precedes what happened before it |
| Causality.LogicalOrderIsDeterministic | labs/22-logical-clocks/src/lab_22_logical_clocks/relay.py:127-130 | the logical order of recorded updates does not depend on the order given |
| RelayReplicaObject.RelayReplica.RecordLocalUpdate | labs/22-logical-clocks/src/lab_22_logical_clocks/relay.py:92-115 | the object's step is the value model's; a refused update has already ticked the Lamport clock |
| RelayReplicaObject.RelayReplica.ObserveRemoteUpdate | labs/22-logical-clocks/src/lab_22_logical_clocks/relay.py:117-121 | the object's step is the value model's |
| Framing.FrameRoundTrip | labs/16-framed-protocol/src/lab_16_framed_protocol/framing.py:94-107 | encoding a payload gives a frame exactly when decoding that frame gives the payload |
| Framing.HeaderIsBigEndian | labs/16-framed-protocol/src/lab_16_framed_protocol/framing.py:94-98 | the length field written and read is the number its bytes denote in base 256, most significant first |
| Framing.DictionaryOrder | labs/16-framed-protocol/src/lab_16_framed_protocol/framing.py:194-194 | byte strings of one length denote numbers in dictionary order, so the reading is one-to-one |
| Framing.HeadersInOrder | labs/16-framed-protocol/src/lab_16_framed_protocol/framing.py:98-98 | a shorter payload's length field precedes a longer one's in dictionary order, and one below 256 uses the last byte alone |
| Framing.FrameErrorsExactly | labs/16-framed-protocol/src/lab_16_framed_protocol/framing.py:94-107 | exactly when a payload cannot be framed, and when a frame is refused as too large or as cut off |
| Framing.ParseConcat | labs/16-framed-protocol/src/lab_16_framed_protocol/framing.py:175-187 | parsing resumes where it stopped: cutting a byte string anywhere loses and adds nothing |
| Framing.OversizedStays | labs/16-framed-protocol/src/lab_16_framed_protocol/framing.py:190-197 | no further bytes mend an oversized length |
| Framing.ReadAllExactly | labs/16-framed-protocol/src/lab_16_framed_protocol/framing.py:168-197 | a stream reads as given payloads if and only if it is their frames end to end, is too large if and only if after whole frames a length exceeds the maximum, and cut off if and only if after whole frames it ends within one |
| Framing.StreamRoundTrip | labs/16-framed-protocol/src/lab_16_framed_protocol/framing.py:94-107 | the concatenated encodings of any payloads within the maximum read back as those payloads |
| Framing.StreamIsCanonical | labs/16-framed-protocol/src/lab_16_framed_protocol/framing.py:94-107 | a stream that reads without error is the concatenated encoding of what it reads as |
| RingBuffer.TwoPieces | labs/16-framed-protocol/src/lab_16_framed_protocol/framing.py:81-83 | two straight slices of the storage are a stretch of the unread bytes |
| RingBuffer.AppendTwoPieces | labs/16-framed-protocol/src/lab_16_framed_protocol/framing.py:70-74 | two straight writes append to the unread bytes and disturb none |
| RingBuffer.BoundedRingBuffer.Write | labs/16-framed-protocol/src/lab_16_framed_protocol/framing.py:66-74 | appends all bytes, or refuses them and changes nothing when they do not fit |
| RingBuffer.BoundedRingBuffer.Peek | labs/16-framed-protocol/src/lab_16_framed_protocol/framing.py:76-83 | the requested stretch of the queue, or the exact error |
| RingBuffer.BoundedRingBuffer.Read | labs/16-framed-protocol/src/lab_16_framed_protocol/framing.py:85-91 | removes and returns the oldest bytes, or errs and changes nothing |
| FrameReader.IncrementalFrameReader.DrainFrames | labs/16-framed-protocol/src/lab_16_framed_protocol/framing.py:175-187 | takes exactly the complete frames out of the buffer |
| FrameReader.IncrementalFrameReader.Feed | labs/16-framed-protocol/src/lab_16_framed_protocol/framing.py:147-160 | terminates, returns the frames that buffer and chunk complete together, and never raises the buffer-full error |
| FrameReader.IncrementalFrameReader.ReadChunks | labs/16-framed-protocol/src/lab_16_framed_protocol/framing.py:168-173 | the result depends only on the concatenation of the chunks |
| FrameReader.ChunkedRoundTrip | labs/16-framed-protocol/src/lab_16_framed_protocol/framing.py:131-173 | any payloads, encoded and cut anywhere, are read back exactly |
| HashRing.CreateRingAccepts | labs/28-partitioned-store/src/lab_28_partitioned_store/store.py:103-119 | a ring is accepted exactly with distinct nodes, at least one, and at least one point each; it then is valid and has all their points |
| HashRing.WalkIsRotation | labs/28-partitioned-store/src/lab_28_partitioned_store/store.py:128-135 | the lookup order is the ring rotated to the first point above the key |
| HashRing.SortIsStable | labs/28-partitioned-store/src/lab_28_partitioned_store/store.py:113-119 | sorting the points keeps hash ties in their order and loses none |
| HashRing.RingPointsExactly | labs/28-partitioned-store/src/lab_28_partitioned_store/store.py:113-118 | the points of a ring are exactly the hashes of its nodes under the indices from zero up to the number of points a node has |
| HashRing.OwnersInOrder | labs/28-partitioned-store/src/lab_28_partitioned_store/store.py:128-136 | a lookup begins behind the last point not above the key and goes round once; each owner is met there before every node not among the owners up to it |
| HashRing.OwnersAreDistinct | labs/28-partitioned-store/src/lab_28_partitioned_store/store.py:121-136 | a lookup succeeds exactly for counts between one and the number of nodes, with that many distinct nodes |
| HashRing.RingIsStable | labs/28-partitioned-store/src/lab_28_partitioned_store/store.py:103-136 | adding a node anywhere changes a key's owners only by inserting that node, for any hash with ties |
| HashRing.OwnersForKey | labs/28-partitioned-store/src/lab_28_partitioned_store/store.py:121-136 | the wrapping loop terminates with the specified owners |
| TaskStore.RunInv | labs/28-partitioned-store/src/lab_28_partitioned_store/store.py:198-234 | after any run every owner of a version holds it or is owed it, the acknowledging ones hold it, and nothing else is stored |
| TaskStore.WriteRefusedExactly | labs/28-partitioned-store/src/lab_28_partitioned_store/store.py:206-209 | a write is refused exactly when it names a version of its key that was never written |
| TaskStore.ReadMeetsWrite | labs/28-partitioned-store/src/lab_28_partitioned_store/store.py:240-245 | overlapping quorums share a node at every offset |
| TaskStore.HeadsOfAll | labs/28-partitioned-store/src/lab_28_partitioned_store/store.py:272-281 | the head computation over all versions of a key keeps exactly those with no descendant |
| TaskHistory.StrongReadIsExact | labs/28-partitioned-store/src/lab_28_partitioned_store/store.py:198-253 | with overlapping quorums every read, replication pending or not, returns exactly the accepted write calls of the key that no accepted call was built on, directly or through others, each with its position, status and observed versions, or not-found exactly if there are none |
| TaskHistory.ReplicatedReadIsExact | labs/28-partitioned-store/src/lab_28_partitioned_store/store.py:228-253 | with nothing pending reads of any size at any offset return the same |
| TaskHistory.WriteAnswers | labs/28-partitioned-store/src/lab_28_partitioned_store/store.py:206-214 | a write call is accepted exactly if all it observes are accepted writes of its key, and gets the next position, its key, status and what it observed; otherwise the error names exactly the unknown ones |
| TaskHistory.MergeSettles | labs/28-partitioned-store/src/lab_28_partitioned_store/store.py:198-253 | after a write that observes all current writes of its key every strong read returns that write and its status alone |
| TaskHistory.ReadContacts | labs/28-partitioned-store/src/lab_28_partitioned_store/store.py:240-245 | a read names the key's owners and contacts the asked number of them from the offset on and round |
| TaskStore.ReplicateClears | labs/28-partitioned-store/src/lab_28_partitioned_store/store.py:228-234 | replication leaves nothing pending and writes nothing new |
| TaskStore.FirstWriteIsFoundExactly | labs/28-partitioned-store/src/lab_28_partitioned_store/store.py:240-253 | a key's first write is found at every offset if and only if the quorums overlap |
| TaskStoreObject.ReplicatedTaskStore.Write | labs/28-partitioned-store/src/lab_28_partitioned_store/store.py:198-226 | the object's new state and result are those of the value model |
| TaskStoreObject.ReplicatedTaskStore.Replicate | labs/28-partitioned-store/src/lab_28_partitioned_store/store.py:228-234 | the loop over pending replications is the value model's |
| TaskStoreObject.ReplicatedTaskStore.Read | labs/28-partitioned-store/src/lab_28_partitioned_store/store.py:240-253 | the object's read is the value model's |
| Scheduler.SmallestAreLeast | labs/38-resource-scheduling/src/lab_38_resource_scheduling/scheduler.py:404-406 | the CPUs taken are the lowest-numbered free ones |
| SchedulerSafety.NewAllocationFills | labs/38-resource-scheduling/src/lab_38_resource_scheduling/scheduler.py:394-439 | a reservation holds exactly the requested counts, all free on the node before, each GPU once and matching |
| SchedulerSafety.QuotasAfterReserve | labs/38-resource-scheduling/src/lab_38_resource_scheduling/scheduler.py:441-455 | a reservation that passed the quota check keeps every quota of every project |
| SchedulerSafety.ReserveKeepsInv | labs/38-resource-scheduling/src/lab_38_resource_scheduling/scheduler.py:394-439 | a reservation on a fitting node keeps the whole invariant |
| SchedulerSafety.ReleaseKeepsInv | labs/38-resource-scheduling/src/lab_38_resource_scheduling/scheduler.py:335-343 | giving up an allocation keeps the invariant when the new state is what the logged event means |
| SchedulerSafety.RecoverKeepsInv | labs/38-resource-scheduling/src/lab_38_resource_scheduling/scheduler.py:366-381 | expiry of leases keeps the invariant, in whatever order allocations are looked at |
| SchedulerSafety.PlaceAllKeepsInv | labs/38-resource-scheduling/src/lab_38_resource_scheduling/scheduler.py:299-313 | a scheduling pass keeps the invariant and touches only queued jobs |
| SchedulerSafety.StepKeepsInv | labs/38-resource-scheduling/src/lab_38_resource_scheduling/scheduler.py:218-381 | every call, accepted or refused, keeps the invariant |
| SchedulerSafety.LogStep | labs/38-resource-scheduling/src/lab_38_resource_scheduling/scheduler.py:188-201 | an appended event keeps the log contiguous, its terms in order, and its replay equal to every job's state |
| SchedulerPlacement.ScheduleIsMaximal | labs/38-resource-scheduling/src/lab_38_resource_scheduling/scheduler.py:281-313 | after a pass no job waits for which its project's quota has room and a node with a fresh heartbeat has labels, open CPUs and GPUs and memory, all counted directly from the allocations |
| SchedulerPlacement.PassExactly | labs/38-resource-scheduling/src/lab_38_resource_scheduling/scheduler.py:299-313 | a pass only adds allocations, one for each job it schedules, each serving a queued job on a fresh node with usable CPUs and GPUs in the asked numbers and a lease that ends as asked; every other job stays as it was |
| SchedulerPlacement.ScheduleExactly | labs/38-resource-scheduling/src/lab_38_resource_scheduling/scheduler.py:281-313 | a scheduling call: refused to others and without a lease; otherwise first exactly the ended leases are given up, then waiting jobs are placed as above |
| SchedulerPlacement.LeasesAfterSchedule | labs/38-resource-scheduling/src/lab_38_resource_scheduling/scheduler.py:281-313 | afterwards every lease ends later than now, those that did before are kept, and new ones end the lease after now |
| SchedulerPlacement.QuotasHold | labs/38-resource-scheduling/src/lab_38_resource_scheduling/scheduler.py:441-455 | in every state of every run each quota holds for jobs, CPUs, memory and GPUs summed over the project's allocations |
| SchedulerLeases.RecoverExactly | labs/38-resource-scheduling/src/lab_38_resource_scheduling/scheduler.py:366-381 | looking at the allocations in any order gives up exactly those whose lease has ended; their jobs wait again if attempts are left and fail otherwise, with the expiry error; all else stays, and the log tells of exactly these |
| SchedulerLeases.RecoverExpiredExactly | labs/38-resource-scheduling/src/lab_38_resource_scheduling/scheduler.py:366-381 | the same for an accepted recovery call, and its refusal |
| SchedulerOrder.UrgentComesFirst | labs/38-resource-scheduling/src/lab_38_resource_scheduling/scheduler.py:295-298 | of two waiting jobs the one of higher priority, or of equal priority the one submitted first, comes first in the pass |
| SchedulerOrder.TwinsByUrgency | labs/38-resource-scheduling/src/lab_38_resource_scheduling/scheduler.py:295-313 | a pass never serves a job and leaves a more urgent one waiting that asks for the same on the same project |
| SchedulerOrder.TurnTakesTightest | labs/38-resource-scheduling/src/lab_38_resource_scheduling/scheduler.py:302-311 | a job's turn puts it on the tightest node that has room: fewest idle CPUs, then least idle memory, then smallest id; and does nothing only if no quota or no node has room |
| SchedulerDevices.TurnTakesFirst | labs/38-resource-scheduling/src/lab_38_resource_scheduling/scheduler.py:394-439 | and gives it the lowest open CPUs and the first open GPUs of that node |
| SchedulerDevices.PassIsTold | labs/38-resource-scheduling/src/lab_38_resource_scheduling/scheduler.py:394-439 | a pass logs exactly the allocations it makes, each with its job, node and term, under the revision that is its id |
| SchedulerCalls.StartExactly | labs/38-resource-scheduling/src/lab_38_resource_scheduling/scheduler.py:315-323 | a start is accepted from the leader for an allocation whose job has not started, each refusal has its error, and the job then runs and nothing else changes |
| SchedulerCalls.CompleteExactly | labs/38-resource-scheduling/src/lab_38_resource_scheduling/scheduler.py:325-343 | a completion is accepted from the leader for any allocation; the job ends as told, the allocation alone goes, and the log says so |
| SchedulerCalls.CancelExactly | labs/38-resource-scheduling/src/lab_38_resource_scheduling/scheduler.py:345-364 | a cancellation is accepted from the leader for a job that has not ended; exactly its allocation goes, and the log says so |
| SchedulerCalls.SubmitExactly | labs/38-resource-scheduling/src/lab_38_resource_scheduling/scheduler.py:236-279 | a submission is accepted if well-formed and new and some known node could serve it, or none is known; the job then waits, numbered last |
| SchedulerCalls.TakeOverExactly | labs/38-resource-scheduling/src/lab_38_resource_scheduling/scheduler.py:218-234 | leadership passes on with a higher term only, and an inventory is replaced by one that is no older |
| SchedulerCalls.RunGoesOn | labs/38-resource-scheduling/src/lab_38_resource_scheduling/scheduler.py:218-381 | over any run jobs keep what they were submitted with and stay numbered in order of submission, and terms, heartbeats and the log never go back |
| SchedulerRuns.AllocationSafety | labs/38-resource-scheduling/src/lab_38_resource_scheduling/scheduler.py:281-381 | in every state of every run allocations on a node share no CPU or GPU, hold exactly what was asked, and quotas are kept |
| SchedulerRuns.Lifecycle | labs/38-resource-scheduling/src/lab_38_resource_scheduling/scheduler.py:281-381 | in every state of every run a job is scheduled or running exactly when it owns an allocation, never two, within its attempts |
| SchedulerRuns.LogTellsAll | labs/38-resource-scheduling/src/lab_38_resource_scheduling/scheduler.py:178-201 | in every state of every run the log alone replays to every job's state and attempts, with contiguous revisions and rising terms |
| SchedulerRuns.MemorySafety | labs/38-resource-scheduling/src/lab_38_resource_scheduling/scheduler.py:457-467 | memory in use fits every node in every state of a run up to which accepted heartbeats report at least what is in use |
| SchedulerRuns.MemoryFitsExactly | labs/38-resource-scheduling/src/lab_38_resource_scheduling/scheduler.py:228-234 | memory in use fits every node throughout a run if and only if every accepted heartbeat of the run reports at least what is in use |
| SchedulerRuns.HeartbeatFitsExactly | labs/38-resource-scheduling/src/lab_38_resource_scheduling/scheduler.py:228-234 | an accepted heartbeat keeps memory within bounds if and only if it reports at least what is in use |
| SchedulerRuns.EligibleOnNodeExactly | labs/38-resource-scheduling/src/lab_38_resource_scheduling/scheduler.py:535-540 | eligible CPUs are the node's own if and only if a NUMA node is given or the affinity lies within the node |
| SchedulerOnNode.ReserveOnNodeExactly | labs/38-resource-scheduling/src/lab_38_resource_scheduling/scheduler.py:394-439 | a reservation keeps all allocations on CPUs and GPUs of their nodes if and only if a NUMA node is given, no affinity is given, or the lowest free CPUs of the affinity are the node's |
| SchedulerOnNode.PlaceAllOnNodeExactly | labs/38-resource-scheduling/src/lab_38_resource_scheduling/scheduler.py:299-313 | a scheduling pass keeps them there if and only if each turn's reservation meets that condition |
| SchedulerOnNode.HeartbeatOnNodeExactly | labs/38-resource-scheduling/src/lab_38_resource_scheduling/scheduler.py:228-234 | replacing an inventory keeps them there if and only if the new one lists every CPU and GPU in use on the node |
| SchedulerOnNode.StepOnNodeExactly | labs/38-resource-scheduling/src/lab_38_resource_scheduling/scheduler.py:218-381 | any call keeps them there if and only if it meets its condition |
| SchedulerOnNode.RunOnNodeExactly | labs/38-resource-scheduling/src/lab_38_resource_scheduling/scheduler.py:218-381 | allocations lie on CPUs and GPUs of their nodes in every state of a run if and only if every call meets its condition in the state it meets |
| SchedulerOnNode.OffNodeReservation | labs/38-resource-scheduling/src/lab_38_resource_scheduling/scheduler.py:535-540 | a run of four calls, its heartbeat complete, that ends with a job on a CPU its node does not have |
| SchedulerOnNode.ShrinkingHeartbeat | labs/38-resource-scheduling/src/lab_38_resource_scheduling/scheduler.py:228-234 | a run whose last heartbeat, accepted, takes the CPU of a running allocation away |
| SchedulerRuns.PenaltyNeverApplies | labs/38-resource-scheduling/src/lab_38_resource_scheduling/scheduler.py:469-483 | the score's penalty for distant GPUs is zero on every candidate |
| SchedulerObject.ResourceScheduler.PickBest | labs/38-resource-scheduling/src/lab_38_resource_scheduling/scheduler.py:310-310 | the loop over candidates finds the one of least score, node ids breaking ties |
| SchedulerObject.ResourceScheduler.SortQueue | labs/38-resource-scheduling/src/lab_38_resource_scheduling/scheduler.py:295-298 | the queued jobs, higher priority first and then in order of submission |
| SchedulerObject.ResourceScheduler.RunPass | labs/38-resource-scheduling/src/lab_38_resource_scheduling/scheduler.py:281-313 | the object's pass is the value model's step |
| SchedulerObject.ResourceScheduler.CompleteAllocation | labs/38-resource-scheduling/src/lab_38_resource_scheduling/scheduler.py:325-343 | the object's completion is the value model's step, error cases included |
| SchedulerObject.ResourceScheduler.CancelJob | labs/38-resource-scheduling/src/lab_38_resource_scheduling/scheduler.py:345-364 | the object's cancellation is the value model's step, error cases included |
| SchedulerObject.ResourceScheduler.BecomeLeaderFor | labs/38-resource-scheduling/src/lab_38_resource_scheduling/scheduler.py:218-226 | the object's change of leader is the value model's step, error cases included |
| SchedulerObject.ResourceScheduler.ReceiveHeartbeat | labs/38-resource-scheduling/src/lab_38_resource_scheduling/scheduler.py:228-234 | the object's heartbeat is the value model's step, error cases included |
| SchedulerObject.ResourceScheduler.MarkStarted | labs/38-resource-scheduling/src/lab_38_resource_scheduling/scheduler.py:315-323 | the object's start is the value model's step, error cases included |
| SchedulerObject.ResourceScheduler.RecoverExpiredLeases | labs/38-resource-scheduling/src/lab_38_resource_scheduling/scheduler.py:366-381 | the object's recovery is the value model's step for the order in which it looked at the leases |
| SchedulerObject.ResourceScheduler.SubmitJob | labs/38-resource-scheduling/src/lab_38_resource_scheduling/scheduler.py:236-279 | the object's submission is the value model's step, error cases included |

## Left out

- RaftSafety.LeaderCompleteness: carries the clean-round hypothesis on timeouts, because the code loses the property without it (RaftFork.CommitsFork).
- RaftSafety.ElectionSafety: carries the same hypothesis, because its proof shares the invariant of leader completeness; RaftElections.ElectionSafetyExactly says for all runs exactly when it holds, and RaftSafety.OneVotePerTerm needs no hypothesis.
- RaftSafety.CommittedPrefixesNeverFork: carries the same hypothesis for the same reason (RaftFork.CommitsFork).
- DagCycles.Validate: which cycle is named is left open, because the search is the standard library's; the model computes one with the properties documented for it.
- DagEngine.Run: durations are natural numbers.
- SchedulerRuns.MemorySafety: assumes heartbeats that do not shrink below use, because the code accepts any; SchedulerRuns.MemoryFitsExactly shows that nothing less will do.
- SchedulerRuns.AllocationSafety: does not say that allocated CPUs and GPUs exist on the node, because the code does not ensure it (SchedulerOnNode.OffNodeReservation, SchedulerOnNode.ShrinkingHeartbeat); SchedulerOnNode.RunOnNodeExactly says when they do.
- Causality.VectorOrderIsTaskCausality: speaks of news within one task, because the code keeps a clock for each task; Causality.VectorsDecideExactly says when that is all there is.
- Admission.WorstCaseLatency: takes calls with times in order, because the code loses the order without (Admission.UnorderedTimesBreakFifo); Admission.FifoExactlyInTime says when it does.
- Traversal.ShortestPath: nodes are never the null value, which the original's trace-back loop could not tell from the end of the path.
- RelayReplicaObject.RelayReplica.RecordLocalUpdate: the checks on strings and timestamps are one parameter saying whether they pass.
- TaskHistory.StrongReadIsExact: heads are a map by version id; the original lists them sorted by a zero-padded id.
- FrameReader.IncrementalFrameReader.Feed: the maximum frame size is a natural number; the original does not rule out a negative one.
- Lab 25: a cluster's node objects can be handed out by `node()` and called directly; runs consist of the cluster's own methods. Sorting node ids is any fixed enumeration. The simulation clock is not used by the protocol.
- Lab 24 is the election part of lab 25 on its own and has no separate model.
- Lab 30: task titles and the sample workflow. `heapq` and `TopologicalSorter` appear through their contracts.
- Lab 06: floating-point rounding of weights, building and editing graphs, breadth-first order, and the unbalanced search tree.
- Lab 33: retry budget, circuit breaker, dead letters and back-off.
- Lab 16: sending over a socket-like writer and the rendering of tasks.
- Lab 28: distribution and movement reports, the quorum constructor's error messages, and the details of a task record beyond key and status.
- Lab 38: dispatch plans and the text checks on job ids and names (one parameter says whether they pass); the log is only appended to by the scheduler itself; allocation ids are the revision numbers inside them, and leases are looked at in any order rather than that of the ids as text.
- Labs 26, 23 and 19 (leases, quorum registers, retrying client) are not modelled.
