/** The mutable admission controller of lab 33; its methods compute the value model's steps. */
module AdmissionObject {
  import opened Admission

  class AdmissionController {
    const workers: nat
    const queueLimit: nat
    const serviceTime: nat
    var completed: seq<Served>
    var maxObservedQueueDepth: nat
    var queue: seq<Queued>
    var inflight: seq<Served>

    function Settings(): Config {
      Config(workers, queueLimit, serviceTime)
    }

    function View(): State
      reads this
    {
      State(completed, inflight, queue, maxObservedQueueDepth)
    }

    constructor (workers: nat, queueLimit: nat, serviceTime: nat)
      requires 1 <= workers && 1 <= serviceTime
      ensures Settings() == Config(workers, queueLimit, serviceTime) && View() == IDLE
    {
      this.workers, this.queueLimit, this.serviceTime := workers, queueLimit, serviceTime;
      completed, queue, inflight, maxObservedQueueDepth := [], [], [], 0;
    }

    method AdvanceTo(now: int)
      modifies this
      ensures View() == Admission.AdvanceTo(Settings(), old(View()), now)
    {
      hide CompleteOne;
      while inflight != []
        invariant Admission.AdvanceTo(Settings(), View(), now) == Admission.AdvanceTo(Settings(), old(View()), now)
        decreases |inflight| + |queue|
      {
        var next := Soonest(inflight);
        if inflight[next].completed > now {
          break;
        }
        CompleteNext(next);
      }
    }

    /** The body of the loop: the soonest item is done and the head of the queue takes its place. */
    method CompleteNext(i: nat)
      requires inflight != [] && i == Soonest(inflight)
      modifies this
      ensures View() == CompleteOne(Settings(), old(View()))
      ensures |inflight| + |queue| < old(|inflight| + |queue|)
    {
      var next := inflight[i];
      inflight := inflight[..i] + inflight[i + 1..];
      completed := completed + [Served(next.id, next.accepted, next.started, next.completed)];
      if queue != [] {
        var head := queue[0];
        queue := queue[1..];
        StartMessage(head.id, head.accepted, next.completed);
      }
    }

    method StartMessage(id: nat, accepted: int, started: int)
      modifies this`inflight
      ensures inflight == old(inflight) + [Start(Settings(), id, accepted, started)]
    {
      inflight := inflight + [Served(id, accepted, started, started + serviceTime)];
    }

    method Submit(id: nat, now: int) returns (decision: Decision)
      requires ValidConfig(Settings())
      modifies this
      ensures (View(), decision) == Admission.Submit(Settings(), old(View()), id, now)
    {
      AdvanceTo(now);
      if |inflight| < workers {
        StartMessage(id, now, now);
        return Decision(true, Accepted, |queue|, 0);
      }
      if |queue| < queueLimit {
        queue := queue + [Queued(id, now)];
        maxObservedQueueDepth := if maxObservedQueueDepth < |queue| then |queue| else maxObservedQueueDepth;
        return Decision(true, QueuedUp, |queue|, 0);
      }
      var wait := inflight[Soonest(inflight)].completed - now;
      decision := Decision(false, QueueFull, |queue|, if wait < 1 then 1 else wait);
    }

    method Drain()
      modifies this
      ensures View() == Admission.Drain(Settings(), old(View()))
    {
      while inflight != []
        invariant Admission.Drain(Settings(), View()) == Admission.Drain(Settings(), old(View()))
        decreases |inflight| + |queue|
      {
        AdvanceMakesProgress(Settings(), View(), NextCompletion(View()));
        AdvanceTo(inflight[Soonest(inflight)].completed);
      }
    }
  }
}
