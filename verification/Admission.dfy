/** The admission controller of lab 33: a bounded FIFO queue in front of equally fast workers. */
module Admission {

  datatype Queued = Queued(id: nat, accepted: int)

  datatype Served = Served(id: nat, accepted: int, started: int, completed: int)

  datatype Config = Config(workers: nat, queueLimit: nat, serviceTime: nat)

  ghost predicate ValidConfig(k: Config) {
    1 <= k.workers && 1 <= k.serviceTime
  }

  datatype State = State(done: seq<Served>, inflight: seq<Served>, queue: seq<Queued>, deepest: nat)

  const IDLE := State([], [], [], 0)

  datatype Reason = Accepted | QueuedUp | QueueFull

  datatype Decision = Decision(accepted: bool, reason: Reason, depth: nat, retryAfter: int)

  function Start(k: Config, id: nat, accepted: int, now: int): Served {
    Served(id, accepted, now, now + k.serviceTime)
  }

  /** The first in-flight item with the least completion time, as `min` picks it. */
  function Soonest(inflight: seq<Served>): (k: nat)
    requires inflight != []
    ensures k < |inflight|
    ensures forall j :: 0 <= j < |inflight| ==> inflight[k].completed <= inflight[j].completed
    ensures forall j :: 0 <= j < k ==> inflight[k].completed < inflight[j].completed
  {
    if |inflight| == 1 then 0
    else
      var k := Soonest(inflight[..|inflight| - 1]);
      if inflight[|inflight| - 1].completed < inflight[k].completed then |inflight| - 1 else k
  }

  /** One completion: the soonest item leaves, and the head of the queue starts at that very moment. */
  function CompleteOne(k: Config, s: State): State
    requires s.inflight != []
  {
    var i := Soonest(s.inflight);
    var item := s.inflight[i];
    var left := s.inflight[..i] + s.inflight[i + 1..];
    if s.queue == [] then State(s.done + [item], left, [], s.deepest)
    else State(s.done + [item], left + [Start(k, s.queue[0].id, s.queue[0].accepted, item.completed)], s.queue[1..], s.deepest)
  }

  function AdvanceTo(k: Config, s: State, now: int): State
    decreases |s.inflight| + |s.queue|
  {
    if s.inflight == [] || s.inflight[Soonest(s.inflight)].completed > now then s
    else AdvanceTo(k, CompleteOne(k, s), now)
  }

  function NextCompletion(s: State): int
    requires s.inflight != []
  {
    s.inflight[Soonest(s.inflight)].completed
  }

  function Submit(k: Config, s: State, id: nat, now: int): (State, Decision)
    requires ValidConfig(k)
  {
    var a := AdvanceTo(k, s, now);
    if |a.inflight| < k.workers then
      (a.(inflight := a.inflight + [Start(k, id, now, now)]), Decision(true, Accepted, |a.queue|, 0))
    else if |a.queue| < k.queueLimit then
      (a.(queue := a.queue + [Queued(id, now)], deepest := if a.deepest < |a.queue| + 1 then |a.queue| + 1 else a.deepest),
       Decision(true, QueuedUp, |a.queue| + 1, 0))
    else
      (a, Decision(false, QueueFull, |a.queue|, var wait := NextCompletion(a) - now; if wait < 1 then 1 else wait))
  }

  function Drain(k: Config, s: State): State
    decreases |s.inflight| + |s.queue|
  {
    if s.inflight == [] then s
    else
      AdvanceMakesProgress(k, s, NextCompletion(s));
      Drain(k, AdvanceTo(k, s, NextCompletion(s)))
  }

  lemma {:induction false} AdvanceNeverGrows(k: Config, s: State, now: int)
    ensures |AdvanceTo(k, s, now).inflight| + |AdvanceTo(k, s, now).queue| <= |s.inflight| + |s.queue|
    decreases |s.inflight| + |s.queue|
  {
    if s.inflight != [] && NextCompletion(s) <= now {
      AdvanceNeverGrows(k, CompleteOne(k, s), now);
    }
  }

  lemma AdvanceMakesProgress(k: Config, s: State, now: int)
    requires s.inflight != [] && NextCompletion(s) <= now
    ensures |AdvanceTo(k, s, now).inflight| + |AdvanceTo(k, s, now).queue| < |s.inflight| + |s.queue|
  {
    AdvanceNeverGrows(k, CompleteOne(k, s), now);
  }

  // ---------- runs ----------

  datatype Call = SubmitAt(id: nat, now: int) | AdvanceAt(now: int)

  function Apply(k: Config, s: State, c: Call): State
    requires ValidConfig(k)
  {
    match c
    case SubmitAt(id, now) => Submit(k, s, id, now).0
    case AdvanceAt(now) => AdvanceTo(k, s, now)
  }

  function After(k: Config, calls: seq<Call>): State
    requires ValidConfig(k)
  {
    if calls == [] then IDLE else Apply(k, After(k, calls[..|calls| - 1]), calls[|calls| - 1])
  }

  ghost predicate InOrder(calls: seq<Call>) {
    forall i, j :: 0 <= i < j < |calls| ==> calls[i].now <= calls[j].now
  }

  // ---------- tickets: when each accepted request will be done ----------

  datatype Ticket = Ticket(id: nat, accepted: int, due: int)

  /** The completion time the state already fixes for the `i`-th waiting request. */
  function Due(k: Config, s: State, i: nat): int
    requires |s.inflight| == k.workers >= 1
  {
    s.inflight[i % k.workers].completed + (i / k.workers) * k.serviceTime + k.serviceTime
  }

  function TicketOf(r: Served): Ticket {
    Ticket(r.id, r.accepted, r.completed)
  }

  /**
   * Workers are filled first, in-flight work is sorted by completion, no two completions are a service time apart, and
   * everything started takes exactly a service time.
   */
  ghost predicate Tidy(k: Config, s: State) {
    && ValidConfig(k)
    && |s.inflight| <= k.workers
    && |s.queue| <= s.deepest <= k.queueLimit
    && (s.queue != [] ==> |s.inflight| == k.workers)
    && (forall i, j :: 0 <= i < j < |s.inflight| ==> s.inflight[i].completed <= s.inflight[j].completed)
    && (forall i :: 0 <= i < |s.inflight| ==> s.inflight[i].started <= s.inflight[0].completed)
    && (forall i :: 0 <= i < |s.inflight| ==> s.inflight[i].completed == s.inflight[i].started + k.serviceTime)
    && (forall i :: 0 <= i < |s.done| ==> s.done[i].completed == s.done[i].started + k.serviceTime)
  }

  function Tickets(k: Config, s: State): seq<Ticket>
    requires Tidy(k, s)
  {
    seq(|s.done|, i requires 0 <= i < |s.done| => TicketOf(s.done[i]))
    + seq(|s.inflight|, i requires 0 <= i < |s.inflight| => TicketOf(s.inflight[i]))
    + seq(|s.queue|, i requires 0 <= i < |s.queue| => Ticket(s.queue[i].id, s.queue[i].accepted, Due(k, s, i)))
  }

  lemma TidySoonest(k: Config, s: State)
    requires Tidy(k, s) && s.inflight != []
    ensures Soonest(s.inflight) == 0
  {
  }

  /** Moving the whole line up by one worker turn leaves every due time where it was. */
  lemma DueShifts(k: Config, s: State, i: nat)
    requires Tidy(k, s) && 1 <= i < |s.queue|
    ensures Tidy(k, CompleteOne(k, s)) && |CompleteOne(k, s).inflight| == k.workers
    ensures Due(k, CompleteOne(k, s), i - 1) == Due(k, s, i)
  {
    TidySoonest(k, s);
    CompleteKeepsTidy(k, s);
    TurnArithmetic(i, k.workers, k.serviceTime);
  }

  lemma TurnArithmetic(i: nat, w: nat, t: nat)
    requires 1 <= i && 1 <= w
    ensures i % w == 0 ==> (i - 1) % w == w - 1 && (i - 1) / w == i / w - 1
    ensures i % w != 0 ==> (i - 1) % w == i % w - 1 && (i - 1) / w == i / w
    ensures (i / w - 1) * t == (i / w) * t - t
  {
    var q, r := i / w, i % w;
    assert i == q * w + r;
    if r == 0 {
      assert i - 1 == (q - 1) * w + (w - 1);
      DivModUnique(i - 1, w, q - 1, w - 1);
    } else {
      DivModUnique(i - 1, w, q, r - 1);
    }
  }

  lemma DivModUnique(n: nat, w: nat, q: nat, r: nat)
    requires 1 <= w && n == q * w + r && r < w
    ensures n / w == q && n % w == r
  {
    var d := n / w - q;
    assert n == (n / w) * w + n % w;
    assert d * w == r - n % w;
  }

  lemma CompleteKeepsTidy(k: Config, s: State)
    requires Tidy(k, s) && s.inflight != []
    ensures Tidy(k, CompleteOne(k, s))
    ensures s.queue != [] ==> |CompleteOne(k, s).inflight| == k.workers
  {
    TidySoonest(k, s);
  }

  // ---------- one call ----------

  /** The ticket at position `i` of the whole line. */
  lemma TicketAt(k: Config, s: State, i: nat)
    requires Tidy(k, s) && i < |s.done| + |s.inflight| + |s.queue|
    ensures |Tickets(k, s)| == |s.done| + |s.inflight| + |s.queue|
    ensures var j := i - |s.done|;
            var q := j - |s.inflight|;
            Tickets(k, s)[i] == if j < 0 then TicketOf(s.done[i]) else if q < 0 then TicketOf(s.inflight[j])
                                else Ticket(s.queue[q].id, s.queue[q].accepted, Due(k, s, q))
  {
  }

  lemma CompleteOneShape(k: Config, s: State)
    requires Tidy(k, s) && s.inflight != []
    ensures var t := CompleteOne(k, s);
            && t.done == s.done + [s.inflight[0]]
            && t.queue == (if s.queue == [] then [] else s.queue[1..])
            && t.inflight == s.inflight[1..] + (if s.queue == [] then [] else
                 [Served(s.queue[0].id, s.queue[0].accepted, s.inflight[0].completed, s.inflight[0].completed + k.serviceTime)])
  {
    TidySoonest(k, s);
  }

  lemma FirstDue(k: Config, s: State)
    requires |s.inflight| == k.workers >= 1
    ensures Due(k, s, 0) == s.inflight[0].completed + k.serviceTime
  {
  }

  lemma CompleteKeepsTicketAt(k: Config, s: State, i: nat)
    requires Tidy(k, s) && s.inflight != [] && Tidy(k, CompleteOne(k, s)) && i < |s.done| + |s.inflight| + |s.queue|
    ensures i < |Tickets(k, s)| && i < |Tickets(k, CompleteOne(k, s))|
    ensures Tickets(k, CompleteOne(k, s))[i] == Tickets(k, s)[i]
  {
    var t := CompleteOne(k, s);
    CompleteOneShape(k, s);
    TicketAt(k, s, i);
    TicketAt(k, t, i);
    var q := i - |s.done| - |s.inflight|;
    if q == 0 { FirstDue(k, s); }
    if q >= 1 { DueShifts(k, s, q); }
    hide Tickets, Due, CompleteOne, Tidy;
  }

  /** A completion fulfils the first ticket and changes none. */
  lemma CompleteKeepsTickets(k: Config, s: State)
    requires Tidy(k, s) && s.inflight != []
    ensures Tidy(k, CompleteOne(k, s)) && Tickets(k, CompleteOne(k, s)) == Tickets(k, s)
  {
    CompleteKeepsTidy(k, s);
    CompleteOneShape(k, s);
    var t := CompleteOne(k, s);
    assert |Tickets(k, t)| == |Tickets(k, s)| == |s.done| + |s.inflight| + |s.queue|;
    hide Tickets, CompleteOne, Tidy;
    forall i | 0 <= i < |Tickets(k, s)|
      ensures Tickets(k, t)[i] == Tickets(k, s)[i]
    {
      CompleteKeepsTicketAt(k, s, i);
    }
  }

  /** Completions so far are in order and not after those in flight. */
  ghost predicate DoneInOrder(s: State) {
    && (forall i, j :: 0 <= i < j < |s.done| ==> s.done[i].completed <= s.done[j].completed)
    && (forall i, j :: 0 <= i < |s.done| && 0 <= j < |s.inflight| ==> s.done[i].completed <= s.inflight[j].completed)
  }

  /** Nothing has started or completed after `now`. */
  ghost predicate NotAhead(s: State, now: int) {
    && (forall i :: 0 <= i < |s.done| ==> s.done[i].completed <= now)
    && (forall i :: 0 <= i < |s.inflight| ==> s.inflight[i].started <= now)
  }

  lemma CompleteKeepsOrder(k: Config, s: State)
    requires Tidy(k, s) && DoneInOrder(s) && s.inflight != []
    ensures DoneInOrder(CompleteOne(k, s))
    ensures forall now :: NotAhead(s, now) && s.inflight[0].completed <= now ==> NotAhead(CompleteOne(k, s), now)
    ensures var t := CompleteOne(k, s); |t.inflight| + |t.queue| < |s.inflight| + |s.queue| && t.deepest == s.deepest
  {
    CompleteOneShape(k, s);
    hide CompleteOne, Soonest;
  }

  lemma {:induction false} AdvanceKeeps(k: Config, s: State, now: int)
    requires Tidy(k, s) && DoneInOrder(s)
    ensures var t := AdvanceTo(k, s, now);
            && Tidy(k, t) && DoneInOrder(t) && Tickets(k, t) == Tickets(k, s)
            && (NotAhead(s, now) ==> NotAhead(t, now))
            && (forall i :: 0 <= i < |t.inflight| ==> now < t.inflight[i].completed)
            && t.deepest == s.deepest
    decreases |s.inflight| + |s.queue|
  {
    hide Tickets, CompleteOne, DoneInOrder, NotAhead;
    if s.inflight != [] {
      TidySoonest(k, s);
      if s.inflight[0].completed <= now {
        CompleteKeepsTickets(k, s);
        CompleteKeepsOrder(k, s);
        AdvanceKeeps(k, CompleteOne(k, s), now);
      }
    }
  }

  /** `ceil(queueLimit / workers) + 1` service times. */
  function WorstLatency(k: Config): int
    requires ValidConfig(k)
  {
    ((k.queueLimit + k.workers - 1) / k.workers + 1) * k.serviceTime
  }

  lemma QueueTurns(k: Config, i: nat)
    requires ValidConfig(k) && i < k.queueLimit
    ensures k.serviceTime + (i / k.workers) * k.serviceTime + k.serviceTime <= WorstLatency(k)
  {
    var turns := (k.queueLimit + k.workers - 1) / k.workers;
    assert i / k.workers + 1 == (i + k.workers) / k.workers by { DivModUnique(i + k.workers, k.workers, i / k.workers + 1, i % k.workers); }
    DivideMonotone(i + k.workers, k.queueLimit + k.workers - 1, k.workers);
    assert (i / k.workers + 2) * k.serviceTime <= (turns + 1) * k.serviceTime;
    assert (i / k.workers + 2) * k.serviceTime == (i / k.workers) * k.serviceTime + 2 * k.serviceTime;
  }

  lemma DivideMonotone(a: nat, b: nat, w: nat)
    requires a <= b && 1 <= w
    ensures a / w <= b / w
  {
    var p, q := a / w, b / w;
    assert a == p * w + a % w && b == q * w + b % w;
    assert p > q ==> p * w >= (q + 1) * w == q * w + w;
  }

  ghost predicate Saturated(k: Config, s: State) {
    |s.inflight| == k.workers && |s.queue| == k.queueLimit
  }

  lemma WorstIsAtLeastOne(k: Config)
    requires ValidConfig(k)
    ensures k.serviceTime <= WorstLatency(k)
  {
    var turns := (k.queueLimit + k.workers - 1) / k.workers;
    assert turns * k.serviceTime >= 0;
    assert (turns + 1) * k.serviceTime == turns * k.serviceTime + k.serviceTime;
  }

  function Started(k: Config, a: State, id: nat, now: int): State {
    a.(inflight := a.inflight + [Start(k, id, now, now)])
  }

  function Enqueued(a: State, id: nat, now: int): State {
    a.(queue := a.queue + [Queued(id, now)], deepest := if a.deepest < |a.queue| + 1 then |a.queue| + 1 else a.deepest)
  }

  /** What `AdvanceTo(now)` leaves: everything in flight is still due after `now`. */
  ghost predicate Current(k: Config, a: State, now: int) {
    && Tidy(k, a) && DoneInOrder(a) && NotAhead(a, now)
    && forall i :: 0 <= i < |a.inflight| ==> now < a.inflight[i].completed
  }

  lemma StartStaysTidy(k: Config, a: State, id: nat, now: int)
    requires Current(k, a, now) && |a.inflight| < k.workers
    ensures Tidy(k, Started(k, a, id, now))
  {
    var t := Started(k, a, id, now);
    forall i, j | 0 <= i < j < |t.inflight|
      ensures t.inflight[i].completed <= t.inflight[j].completed
    {
      if j == |a.inflight| { assert a.inflight[i].started <= now; }
    }
  }

  lemma StartStaysInOrder(k: Config, a: State, id: nat, now: int)
    requires Current(k, a, now)
    ensures DoneInOrder(Started(k, a, id, now)) && NotAhead(Started(k, a, id, now), now)
  {
    hide Tidy;
  }

  lemma StartIsLast(k: Config, a: State, id: nat, now: int)
    requires Current(k, a, now) && |a.inflight| < k.workers
    ensures Tidy(k, Started(k, a, id, now))
    ensures Tickets(k, Started(k, a, id, now)) == Tickets(k, a) + [Ticket(id, now, now + k.serviceTime)]
  {
    StartStaysTidy(k, a, id, now);
    assert a.queue == [];
    hide Tidy, DoneInOrder, NotAhead;
  }

  lemma EnqueueStaysTidy(k: Config, a: State, id: nat, now: int)
    requires Current(k, a, now) && |a.inflight| == k.workers && |a.queue| < k.queueLimit
    ensures var t := Enqueued(a, id, now); Tidy(k, t) && DoneInOrder(t) && NotAhead(t, now)
  {
  }

  lemma EnqueueIsLast(k: Config, a: State, id: nat, now: int)
    requires Current(k, a, now) && |a.inflight| == k.workers && |a.queue| < k.queueLimit
    ensures Tidy(k, Enqueued(a, id, now))
    ensures Tickets(k, Enqueued(a, id, now)) == Tickets(k, a) + [Ticket(id, now, Due(k, a, |a.queue|))]
  {
    EnqueueStaysTidy(k, a, id, now);
    assert ValidConfig(k);
    hide Tidy, DoneInOrder, NotAhead, Current;
    var t := Enqueued(a, id, now);
    assert forall j :: 0 <= j < |t.queue| ==> Due(k, t, j) == Due(k, a, j);
    hide Due;
  }

  lemma DueIsBounded(k: Config, a: State, now: int)
    requires Current(k, a, now) && |a.inflight| == k.workers && |a.queue| < k.queueLimit
    ensures now + k.serviceTime <= Due(k, a, |a.queue|) <= now + WorstLatency(k)
  {
    InFlightIsNear(k, a, now, |a.queue| % k.workers);
    hide Tidy, DoneInOrder, NotAhead, WorstLatency;
    assert Tidy(k, a) && ValidConfig(k) by { CurrentIsTidy(k, a, now); }
    QueueTurns(k, |a.queue|);
    TurnsAreNatural(|a.queue|, k.workers, k.serviceTime);
    DueParts(k, a, |a.queue|, (|a.queue| / k.workers) * k.serviceTime);
  }

  lemma CurrentIsTidy(k: Config, a: State, now: int)
    requires Current(k, a, now)
    ensures Tidy(k, a) && ValidConfig(k)
  {
  }

  lemma TurnsAreNatural(i: nat, w: nat, t: nat)
    requires 1 <= w
    ensures (i / w) * t >= 0
  {
  }

  lemma DueParts(k: Config, s: State, i: nat, turns: int)
    requires |s.inflight| == k.workers >= 1 && turns == (i / k.workers) * k.serviceTime
    ensures Due(k, s, i) == s.inflight[i % k.workers].completed + turns + k.serviceTime
  {
  }

  lemma InFlightIsNear(k: Config, a: State, now: int, j: nat)
    requires Current(k, a, now) && j < |a.inflight|
    ensures now < a.inflight[j].completed <= now + k.serviceTime
  {
  }

  /** The new ticket of an accepted submit. */
  ghost predicate AddsTicket(k: Config, before: seq<Ticket>, after: seq<Ticket>, id: nat, now: int)
    requires ValidConfig(k)
  {
    exists due :: after == before + [Ticket(id, now, due)] && now + k.serviceTime <= due <= now + WorstLatency(k)
  }

  /** A submit either adds one ticket, due within the worst latency, or is refused by a full house and adds none. */
  lemma SubmitAddsATicket(k: Config, s: State, id: nat, now: int)
    requires Tidy(k, s) && DoneInOrder(s) && NotAhead(s, now)
    ensures var (t, decision) := Submit(k, s, id, now);
            && Tidy(k, t) && DoneInOrder(t) && NotAhead(t, now)
            && (decision.accepted ==> AddsTicket(k, Tickets(k, s), Tickets(k, t), id, now))
            && (!decision.accepted <==> Saturated(k, AdvanceTo(k, s, now)))
            && (!decision.accepted ==> Tickets(k, t) == Tickets(k, s) && decision.retryAfter >= 1)
  {
    hide Tickets, AdvanceTo, Tidy, DoneInOrder, NotAhead, AddsTicket, NextCompletion, Current;
    AdvanceIsCurrent(k, s, now);
    SubmitWhenCurrent(k, AdvanceTo(k, s, now), id, now);
  }

  lemma AdvanceIsCurrent(k: Config, s: State, now: int)
    requires Tidy(k, s) && DoneInOrder(s) && NotAhead(s, now)
    ensures var a := AdvanceTo(k, s, now);
            && Current(k, a, now) && Tidy(k, a) && DoneInOrder(a) && NotAhead(a, now) && Tickets(k, a) == Tickets(k, s)
            && |a.inflight| <= k.workers && |a.queue| <= k.queueLimit
  {
    AdvanceKeeps(k, s, now);
    hide Tickets, AdvanceTo, DoneInOrder, NotAhead;
  }

  lemma SubmitWhenCurrent(k: Config, a: State, id: nat, now: int)
    requires Current(k, a, now)
    ensures |a.inflight| < k.workers ==>
              var t := Started(k, a, id, now);
              Tidy(k, t) && DoneInOrder(t) && NotAhead(t, now) && AddsTicket(k, Tickets(k, a), Tickets(k, t), id, now)
    ensures |a.inflight| == k.workers && |a.queue| < k.queueLimit ==>
              var t := Enqueued(a, id, now);
              Tidy(k, t) && DoneInOrder(t) && NotAhead(t, now) && AddsTicket(k, Tickets(k, a), Tickets(k, t), id, now)
  {
    assert ValidConfig(k);
    hide Tidy, DoneInOrder, NotAhead, Tickets, Due, WorstLatency, Started, Enqueued;
    WorstIsAtLeastOne(k);
    if |a.inflight| < k.workers {
      StartIsLast(k, a, id, now);
      StartStaysInOrder(k, a, id, now);
    } else if |a.inflight| == k.workers && |a.queue| < k.queueLimit {
      EnqueueIsLast(k, a, id, now);
      EnqueueStaysTidy(k, a, id, now);
      DueIsBounded(k, a, now);
    }
  }

  // ---------- whole runs ----------

  /** The requests a run accepted, in order, with their acceptance times. */
  function AcceptedBy(k: Config, calls: seq<Call>): seq<(nat, int)>
    requires ValidConfig(k)
  {
    if calls == [] then []
    else
      var front, last := calls[..|calls| - 1], calls[|calls| - 1];
      if last.SubmitAt? && Submit(k, After(k, front), last.id, last.now).1.accepted
      then AcceptedBy(k, front) + [(last.id, last.now)]
      else AcceptedBy(k, front)
  }

  /** The tickets are those of exactly the accepted requests, in order, each due within the worst latency. */
  ghost predicate Honoured(k: Config, tickets: seq<Ticket>, accepted: seq<(nat, int)>)
    requires ValidConfig(k)
  {
    && |tickets| == |accepted|
    && forall i :: 0 <= i < |tickets| ==>
                     && tickets[i].id == accepted[i].0 && tickets[i].accepted == accepted[i].1
                     && tickets[i].accepted + k.serviceTime <= tickets[i].due <= tickets[i].accepted + WorstLatency(k)
  }

  /** What a run keeps true of the state it leads to. */
  ghost predicate Kept(k: Config, s: State, accepted: seq<(nat, int)>)
    requires ValidConfig(k)
  {
    Tidy(k, s) && DoneInOrder(s) && Honoured(k, Tickets(k, s), accepted)
  }

  lemma HonourOneMore(k: Config, before: seq<Ticket>, after: seq<Ticket>, accepted: seq<(nat, int)>, id: nat, now: int)
    requires ValidConfig(k) && Honoured(k, before, accepted) && AddsTicket(k, before, after, id, now)
    ensures Honoured(k, after, accepted + [(id, now)])
  {
    hide WorstLatency;
  }

  lemma CallKeeps(k: Config, s: State, accepted: seq<(nat, int)>, c: Call)
    requires ValidConfig(k) && Kept(k, s, accepted) && NotAhead(s, c.now)
    ensures NotAhead(Apply(k, s, c), c.now)
    ensures Kept(k, Apply(k, s, c), if c.SubmitAt? && Submit(k, s, c.id, c.now).1.accepted then accepted + [(c.id, c.now)] else accepted)
  {
    hide Tidy, DoneInOrder, NotAhead, Tickets, Honoured, AddsTicket, Submit, AdvanceTo, Saturated;
    match c {
      case SubmitAt(id, now) =>
        SubmitAddsATicket(k, s, id, now);
        if Submit(k, s, id, now).1.accepted {
          HonourOneMore(k, Tickets(k, s), Tickets(k, Submit(k, s, id, now).0), accepted, id, now);
        }
      case AdvanceAt(now) => AdvanceKeeps(k, s, now);
    }
  }

  lemma NotAheadLater(s: State, now: int, later: int)
    requires NotAhead(s, now) && now <= later
    ensures NotAhead(s, later)
  {
  }

  lemma IdleIsKept(k: Config, now: int)
    requires ValidConfig(k)
    ensures Kept(k, IDLE, []) && NotAhead(IDLE, now)
  {
    hide WorstLatency, Due;
  }

  lemma {:induction false} RunKeepsTickets(k: Config, calls: seq<Call>)
    requires ValidConfig(k) && InOrder(calls)
    ensures Kept(k, After(k, calls), AcceptedBy(k, calls))
    ensures calls != [] ==> NotAhead(After(k, calls), calls[|calls| - 1].now)
  {
    hide Kept, NotAhead, Apply, Submit;
    if calls == [] {
      IdleIsKept(k, 0);
    } else {
      var front, last := calls[..|calls| - 1], calls[|calls| - 1];
      RunKeepsTickets(k, front);
      if front == [] {
        IdleIsKept(k, last.now);
      } else {
        NotAheadLater(After(k, front), front[|front| - 1].now, last.now);
      }
      CallKeeps(k, After(k, front), AcceptedBy(k, front), last);
    }
  }

  /** Completed, in-flight and waiting requests are, in this order, the accepted ones. */
  ghost predicate InAcceptanceOrder(s: State, accepted: seq<(nat, int)>) {
    && |accepted| == |s.done| + |s.inflight| + |s.queue|
    && (forall i :: 0 <= i < |s.done| ==> (s.done[i].id, s.done[i].accepted) == accepted[i])
    && (forall i :: 0 <= i < |s.inflight| ==> (s.inflight[i].id, s.inflight[i].accepted) == accepted[|s.done| + i])
    && (forall i :: 0 <= i < |s.queue| ==> (s.queue[i].id, s.queue[i].accepted) == accepted[|s.done| + |s.inflight| + i])
  }

  /** At most `workers` in flight, a bounded queue, and nobody waiting beside an idle worker. */
  ghost predicate WithinLimits(k: Config, s: State) {
    |s.inflight| <= k.workers && |s.queue| <= s.deepest <= k.queueLimit && (s.queue != [] ==> |s.inflight| == k.workers)
  }

  ghost predicate LatencyBounded(k: Config, s: State)
    requires ValidConfig(k)
  {
    forall i :: 0 <= i < |s.done| ==> k.serviceTime <= s.done[i].completed - s.done[i].accepted <= WorstLatency(k)
  }

  /** What has started, completed or not, is listed in the order in which it started and in which it completes. */
  ghost predicate Fifo(s: State) {
    var served := s.done + s.inflight;
    forall i, j :: 0 <= i < j < |served| ==> served[i].started <= served[j].started && served[i].completed <= served[j].completed
  }

  lemma TidyIsFifo(k: Config, s: State)
    requires Tidy(k, s) && DoneInOrder(s)
    ensures Fifo(s)
  {
    var served := s.done + s.inflight;
    forall i, j | 0 <= i < j < |served|
      ensures served[i].started <= served[j].started && served[i].completed <= served[j].completed
    {
      assert served[i].completed == served[i].started + k.serviceTime && served[j].completed == served[j].started + k.serviceTime;
    }
  }

  /** The three parts of the line. */
  lemma TicketParts(k: Config, s: State)
    requires Tidy(k, s)
    ensures |Tickets(k, s)| == |s.done| + |s.inflight| + |s.queue|
    ensures forall i :: 0 <= i < |s.done| ==> Tickets(k, s)[i] == TicketOf(s.done[i])
    ensures forall i :: 0 <= i < |s.inflight| ==> Tickets(k, s)[|s.done| + i] == TicketOf(s.inflight[i])
    ensures forall i :: 0 <= i < |s.queue| ==>
              Tickets(k, s)[|s.done| + |s.inflight| + i] == Ticket(s.queue[i].id, s.queue[i].accepted, Due(k, s, i))
  {
    hide Due;
  }

  lemma TicketsInOrder(k: Config, s: State, accepted: seq<(nat, int)>)
    requires Tidy(k, s) && Honoured(k, Tickets(k, s), accepted)
    ensures InAcceptanceOrder(s, accepted) && LatencyBounded(k, s)
  {
    assert ValidConfig(k);
    hide Tickets, Tidy, Due, WorstLatency;
    TicketParts(k, s);
  }

  /**
   * Worst-case latency and FIFO: after any run with times in order, at most `workers` requests are in flight, nobody
   * waits beside an idle worker, the accepted requests start and complete in acceptance order, and each completed one took at
   * least one service time and at most `ceil(queueLimit / workers) + 1` of them.
   */
  lemma WorstCaseLatency(k: Config, calls: seq<Call>)
    requires ValidConfig(k) && InOrder(calls)
    ensures WithinLimits(k, After(k, calls))
    ensures InAcceptanceOrder(After(k, calls), AcceptedBy(k, calls))
    ensures LatencyBounded(k, After(k, calls)) && Fifo(After(k, calls))
  {
    hide Tickets, Honoured, AcceptedBy, LatencyBounded, InAcceptanceOrder, After, WorstLatency, Fifo;
    RunKeepsTickets(k, calls);
    TicketsInOrder(k, After(k, calls), AcceptedBy(k, calls));
    TidyIsFifo(k, After(k, calls));
  }

  lemma {:induction false} DrainKeeps(k: Config, s: State)
    requires Tidy(k, s) && DoneInOrder(s)
    ensures var t := Drain(k, s); Tidy(k, t) && DoneInOrder(t) && t.inflight == [] && t.queue == [] && Tickets(k, t) == Tickets(k, s)
    decreases |s.inflight| + |s.queue|
  {
    if s.inflight != [] {
      AdvanceMakesProgress(k, s, NextCompletion(s));
      AdvanceKeeps(k, s, NextCompletion(s));
      DrainKeeps(k, AdvanceTo(k, s, NextCompletion(s)));
    }
  }

  /** Completing what is in flight and waiting turns every ticket into a completion. */
  lemma DrainCompletesTickets(k: Config, s: State)
    requires Tidy(k, s) && DoneInOrder(s)
    ensures var done := Drain(k, s).done;
            |done| == |Tickets(k, s)| && forall i :: 0 <= i < |done| ==> TicketOf(done[i]) == Tickets(k, s)[i]
  {
    hide Drain, Tickets, Tidy, DoneInOrder, TicketOf;
    DrainKeeps(k, s);
    AllDone(k, Drain(k, s));
  }

  /** No later call takes a ticket back or changes it. */
  lemma {:induction false} TicketsStay(k: Config, calls: seq<Call>, i: nat)
    requires ValidConfig(k) && InOrder(calls) && i <= |calls|
    ensures Tidy(k, After(k, calls[..i])) && Tidy(k, After(k, calls))
    ensures Tickets(k, After(k, calls[..i])) <= Tickets(k, After(k, calls))
    decreases |calls|
  {
    hide Tickets, Tidy, DoneInOrder, NotAhead, Honoured, AcceptedBy, Apply, AddsTicket;
    RunKeepsTickets(k, calls);
    RunKeepsTickets(k, calls[..i]);
    if i == |calls| {
      assert calls[..i] == calls;
    } else {
      var front, last := calls[..|calls| - 1], calls[|calls| - 1];
      assert front[..i] == calls[..i];
      TicketsStay(k, front, i);
      RunKeepsTickets(k, front);
      NotYetAhead(k, front, last.now);
      CallKeepsTickets(k, After(k, front), last);
    }
  }

  lemma NotYetAhead(k: Config, front: seq<Call>, now: int)
    requires ValidConfig(k) && InOrder(front) && (front != [] ==> front[|front| - 1].now <= now)
    ensures NotAhead(After(k, front), now)
  {
    hide NotAhead, Kept, Apply, AcceptedBy;
    if front == [] {
      IdleIsKept(k, now);
    } else {
      RunKeepsTickets(k, front);
      NotAheadLater(After(k, front), front[|front| - 1].now, now);
    }
  }

  lemma CallKeepsTickets(k: Config, s: State, c: Call)
    requires Tidy(k, s) && DoneInOrder(s) && NotAhead(s, c.now)
    ensures Tidy(k, Apply(k, s, c)) && Tickets(k, s) <= Tickets(k, Apply(k, s, c))
  {
    assert ValidConfig(k);
    hide Tidy, DoneInOrder, NotAhead, Tickets, Submit, AdvanceTo, Saturated;
    match c {
      case SubmitAt(id, now) => SubmitAddsATicket(k, s, id, now);
      case AdvanceAt(now) => AdvanceKeeps(k, s, now);
    }
  }

  /** The number of requests accepted before call `i`: the place of the ticket that call `i` issues, if it is accepted. */
  function Place(k: Config, calls: seq<Call>, i: nat): nat
    requires ValidConfig(k) && i <= |calls|
  {
    |AcceptedBy(k, calls[..i])|
  }

  ghost predicate AcceptsAt(k: Config, calls: seq<Call>, i: nat)
    requires ValidConfig(k) && i < |calls|
  {
    calls[i].SubmitAt? && Submit(k, After(k, calls[..i]), calls[i].id, calls[i].now).1.accepted
  }

  /** Right after an accepted submit its ticket is the last one, for that request and at most the worst latency away. */
  lemma TicketIsIssued(k: Config, calls: seq<Call>, i: nat)
    requires ValidConfig(k) && InOrder(calls) && i < |calls| && AcceptsAt(k, calls, i)
    ensures Tidy(k, After(k, calls[..i + 1]))
    ensures var tickets := Tickets(k, After(k, calls[..i + 1]));
            && |tickets| == Place(k, calls, i) + 1
            && var ticket := tickets[Place(k, calls, i)];
               ticket.id == calls[i].id && ticket.accepted == calls[i].now
               && calls[i].now + k.serviceTime <= ticket.due <= calls[i].now + WorstLatency(k)
  {
    hide Tickets, Tidy, DoneInOrder, After, Submit, WorstLatency;
    var front := calls[..i + 1];
    assert front[..|front| - 1] == calls[..i] && front[|front| - 1] == calls[i];
    RunKeepsTickets(k, front);
  }

  /**
   * The completion time of an accepted request is fixed on acceptance: whatever calls follow it, draining at the end
   * completes exactly the accepted requests, in order, each at the time of the ticket issued when it was accepted.
   */
  lemma DrainHonoursTickets(k: Config, calls: seq<Call>)
    requires ValidConfig(k) && InOrder(calls)
    ensures |Drain(k, After(k, calls)).done| == |AcceptedBy(k, calls)|
    ensures forall i :: 0 <= i < |calls| && AcceptsAt(k, calls, i) ==>
              && Tidy(k, After(k, calls[..i + 1])) && Place(k, calls, i) < |Tickets(k, After(k, calls[..i + 1]))|
              && Place(k, calls, i) < |Drain(k, After(k, calls)).done|
              && TicketOf(Drain(k, After(k, calls)).done[Place(k, calls, i)])
                 == Tickets(k, After(k, calls[..i + 1]))[Place(k, calls, i)]
  {
    hide AcceptedBy, After, Drain, Tickets, Tidy, DoneInOrder, TicketOf, AcceptsAt, Place, WorstLatency;
    RunKeepsTickets(k, calls);
    DrainCompletesTickets(k, After(k, calls));
    forall i | 0 <= i < |calls| && AcceptsAt(k, calls, i)
      ensures Tidy(k, After(k, calls[..i + 1])) && Place(k, calls, i) < |Tickets(k, After(k, calls[..i + 1]))|
      ensures Place(k, calls, i) < |Drain(k, After(k, calls)).done|
      ensures TicketOf(Drain(k, After(k, calls)).done[Place(k, calls, i)]) == Tickets(k, After(k, calls[..i + 1]))[Place(k, calls, i)]
    {
      TicketIsIssued(k, calls, i);
      TicketsStay(k, calls, i + 1);
    }
  }

  lemma AllDone(k: Config, t: State)
    requires Tidy(k, t) && t.inflight == [] && t.queue == []
    ensures |t.done| == |Tickets(k, t)| && forall i :: 0 <= i < |t.done| ==> TicketOf(t.done[i]) == Tickets(k, t)[i]
  {
  }

  // ---------- times out of order ----------

  /** Nothing that has started, and nothing completed, completes later than a request started at `now` would. */
  ghost predicate InTime(k: Config, s: State, now: int) {
    var a := AdvanceTo(k, s, now);
    |a.inflight| >= k.workers || forall i :: 0 <= i < |a.done + a.inflight| ==> (a.done + a.inflight)[i].completed <= now + k.serviceTime
  }

  /** A start keeps the order exactly when it is in time, and with the order it keeps everything tidy. */
  lemma StartKeepsFifoExactly(k: Config, a: State, id: nat, now: int)
    requires Tidy(k, a) && DoneInOrder(a) && |a.inflight| < k.workers
    requires forall i :: 0 <= i < |a.inflight| ==> now < a.inflight[i].completed
    ensures Fifo(Started(k, a, id, now)) <==>
              forall i :: 0 <= i < |a.done + a.inflight| ==> (a.done + a.inflight)[i].completed <= now + k.serviceTime
    ensures Fifo(Started(k, a, id, now)) ==> Tidy(k, Started(k, a, id, now)) && DoneInOrder(Started(k, a, id, now))
  {
    var t := Started(k, a, id, now);
    var before, after, n := a.done + a.inflight, t.done + t.inflight, |a.done| + |a.inflight|;
    assert after == before + [Start(k, id, now, now)];
    if Fifo(t) {
      hide Tidy, DoneInOrder;
      forall i | 0 <= i < n ensures before[i].completed <= now + k.serviceTime {
        assert after[i].completed <= after[n].completed;
      }
    }
    hide Fifo;
    if forall i :: 0 <= i < n ==> before[i].completed <= now + k.serviceTime {
      InTimeStartIsTidy(k, a, id, now);
      TidyIsFifo(k, t);
    }
  }

  lemma InTimeStartIsTidy(k: Config, a: State, id: nat, now: int)
    requires Tidy(k, a) && DoneInOrder(a) && |a.inflight| < k.workers
    requires forall i :: 0 <= i < |a.inflight| ==> now < a.inflight[i].completed
    requires forall i :: 0 <= i < |a.done + a.inflight| ==> (a.done + a.inflight)[i].completed <= now + k.serviceTime
    ensures Tidy(k, Started(k, a, id, now)) && DoneInOrder(Started(k, a, id, now))
  {
    var before := a.done + a.inflight;
    forall i | 0 <= i < |a.done| ensures a.done[i].completed <= now + k.serviceTime {
      assert before[i] == a.done[i];
    }
    forall i | 0 <= i < |a.inflight| ensures a.inflight[i].completed <= now + k.serviceTime {
      assert before[|a.done| + i] == a.inflight[i];
    }
  }

  lemma EnqueueKeepsFifo(k: Config, a: State, id: nat, now: int)
    requires Tidy(k, a) && DoneInOrder(a) && |a.inflight| == k.workers && |a.queue| < k.queueLimit
    ensures var t := Enqueued(a, id, now); Tidy(k, t) && DoneInOrder(t) && Fifo(t)
  {
    TidyIsFifo(k, Enqueued(a, id, now));
  }

  lemma AdvanceStaysTidy(k: Config, s: State, now: int)
    requires Tidy(k, s) && DoneInOrder(s)
    ensures var a := AdvanceTo(k, s, now);
            && Tidy(k, a) && DoneInOrder(a) && ValidConfig(k) && |a.inflight| <= k.workers && |a.queue| <= k.queueLimit
            && (|a.inflight| < k.workers ==> a.queue == [])
            && forall i :: 0 <= i < |a.inflight| ==> now < a.inflight[i].completed
  {
    AdvanceKeeps(k, s, now);
    hide AdvanceTo, DoneInOrder, Tickets, NotAhead;
  }

  /** Whatever the time given, a submit keeps the order of service exactly when it is in time. */
  lemma SubmitKeepsFifoExactly(k: Config, s: State, id: nat, now: int)
    requires Tidy(k, s) && DoneInOrder(s)
    ensures var t := Submit(k, s, id, now).0;
            (Fifo(t) <==> InTime(k, s, now)) && (Fifo(t) ==> Tidy(k, t) && DoneInOrder(t))
  {
    hide Tidy, DoneInOrder, AdvanceTo, Fifo, Tickets, NextCompletion, NotAhead, Soonest;
    AdvanceStaysTidy(k, s, now);
    var a := AdvanceTo(k, s, now);
    TidyIsFifo(k, a);
    if |a.inflight| < k.workers {
      StartKeepsFifoExactly(k, a, id, now);
    } else if |a.queue| < k.queueLimit {
      EnqueueKeepsFifo(k, a, id, now);
    }
  }

  /** Every submit of the run is in time in the state it meets. */
  ghost predicate AllInTime(k: Config, calls: seq<Call>)
    requires ValidConfig(k)
  {
    forall i :: 0 <= i < |calls| && calls[i].SubmitAt? ==> InTime(k, After(k, calls[..i]), calls[i].now)
  }

  ghost predicate AlwaysFifo(k: Config, calls: seq<Call>)
    requires ValidConfig(k)
  {
    forall i :: 0 <= i <= |calls| ==> Fifo(After(k, calls[..i]))
  }

  lemma CallKeepsFifoExactly(k: Config, s: State, c: Call)
    requires Tidy(k, s) && DoneInOrder(s)
    ensures ValidConfig(k)
    ensures var t := Apply(k, s, c);
            (Fifo(t) <==> (c.SubmitAt? ==> InTime(k, s, c.now))) && (Fifo(t) ==> Tidy(k, t) && DoneInOrder(t))
  {
    assert ValidConfig(k);
    hide Tidy, DoneInOrder, Fifo, InTime, Tickets, Submit, AdvanceTo, NotAhead;
    match c {
      case SubmitAt(id, now) => SubmitKeepsFifoExactly(k, s, id, now);
      case AdvanceAt(now) =>
        AdvanceKeeps(k, s, now);
        TidyIsFifo(k, AdvanceTo(k, s, now));
    }
  }

  // ---------- acceptance order, whatever the times ----------

  /** The tickets name the accepted requests in order, whenever they are due. */
  ghost predicate Names(tickets: seq<Ticket>, accepted: seq<(nat, int)>) {
    |tickets| == |accepted| && forall i :: 0 <= i < |tickets| ==> (tickets[i].id, tickets[i].accepted) == accepted[i]
  }

  lemma NamesExactly(k: Config, s: State, accepted: seq<(nat, int)>)
    requires Tidy(k, s)
    ensures InAcceptanceOrder(s, accepted) <==> Names(Tickets(k, s), accepted)
  {
    hide Tidy, Tickets, Due;
    TicketParts(k, s);
    var d, f := |s.done|, |s.inflight|;
    if InAcceptanceOrder(s, accepted) {
      forall i | 0 <= i < |Tickets(k, s)| ensures (Tickets(k, s)[i].id, Tickets(k, s)[i].accepted) == accepted[i] {
        if i < d {
          assert Tickets(k, s)[i] == TicketOf(s.done[i]);
        } else if i < d + f {
          assert Tickets(k, s)[d + (i - d)] == TicketOf(s.inflight[i - d]);
        } else {
          assert Tickets(k, s)[d + f + (i - d - f)].id == s.queue[i - d - f].id;
        }
      }
    }
  }

  lemma AdvanceKeepsAcceptance(k: Config, s: State, now: int, accepted: seq<(nat, int)>)
    requires Tidy(k, s) && DoneInOrder(s) && InAcceptanceOrder(s, accepted)
    ensures InAcceptanceOrder(AdvanceTo(k, s, now), accepted)
  {
    hide *;
    AdvanceKeeps(k, s, now);
    NamesExactly(k, s, accepted);
    NamesExactly(k, AdvanceTo(k, s, now), accepted);
  }

  lemma StartedIsNext(k: Config, a: State, id: nat, now: int, accepted: seq<(nat, int)>)
    requires InAcceptanceOrder(a, accepted) && a.queue == []
    ensures InAcceptanceOrder(Started(k, a, id, now), accepted + [(id, now)])
  {
  }

  lemma EnqueuedIsNext(a: State, id: nat, now: int, accepted: seq<(nat, int)>)
    requires InAcceptanceOrder(a, accepted)
    ensures InAcceptanceOrder(Enqueued(a, id, now), accepted + [(id, now)])
  {
  }

  /** A submit at any time at all puts the new request behind all that were accepted before it, or leaves them be. */
  lemma SubmitKeepsAcceptance(k: Config, s: State, id: nat, now: int, accepted: seq<(nat, int)>)
    requires Tidy(k, s) && DoneInOrder(s) && InAcceptanceOrder(s, accepted)
    ensures ValidConfig(k)
    ensures var (t, decision) := Submit(k, s, id, now);
            InAcceptanceOrder(t, if decision.accepted then accepted + [(id, now)] else accepted)
  {
    hide Tidy, DoneInOrder, AdvanceTo, InAcceptanceOrder, NextCompletion, Soonest;
    AdvanceKeepsAcceptance(k, s, now, accepted);
    AdvanceStaysTidy(k, s, now);
    var a := AdvanceTo(k, s, now);
    if |a.inflight| < k.workers {
      StartedIsNext(k, a, id, now, accepted);
    } else if |a.queue| < k.queueLimit {
      EnqueuedIsNext(a, id, now, accepted);
    }
  }

  lemma CallKeepsAcceptance(k: Config, s: State, c: Call, accepted: seq<(nat, int)>)
    requires Tidy(k, s) && DoneInOrder(s) && InAcceptanceOrder(s, accepted)
    ensures ValidConfig(k)
    ensures InAcceptanceOrder(Apply(k, s, c),
                              if c.SubmitAt? && Submit(k, s, c.id, c.now).1.accepted then accepted + [(c.id, c.now)] else accepted)
  {
    assert ValidConfig(k);
    hide Tidy, DoneInOrder, InAcceptanceOrder, Submit, AdvanceTo;
    match c {
      case SubmitAt(id, now) => SubmitKeepsAcceptance(k, s, id, now, accepted);
      case AdvanceAt(now) => AdvanceKeepsAcceptance(k, s, now, accepted);
    }
  }

  /**
   * With times in any order at all, what was accepted starts and completes in order throughout a run exactly when every
   * submit is in time; and then that order is the order of acceptance, with the waiting requests behind.
   */
  lemma {:induction false} FifoExactlyInTime(k: Config, calls: seq<Call>)
    requires ValidConfig(k)
    ensures AlwaysFifo(k, calls) <==> AllInTime(k, calls)
    ensures AlwaysFifo(k, calls) ==> InAcceptanceOrder(After(k, calls), AcceptedBy(k, calls))
    ensures AlwaysFifo(k, calls) ==> Tidy(k, After(k, calls)) && DoneInOrder(After(k, calls))
  {
    hide Tidy, DoneInOrder, Fifo, InTime, Apply, InAcceptanceOrder, Submit;
    if calls == [] {
      IdleIsTidy(k);
      TidyIsFifo(k, IDLE);
      NothingAccepted();
      assert calls[..0] == [];
    } else {
      var n := |calls| - 1;
      var front, last := calls[..n], calls[n];
      FifoExactlyInTime(k, front);
      assert calls[..|calls|] == calls;
      assert forall i :: 0 <= i <= n ==> front[..i] == calls[..i];
      assert AlwaysFifo(k, calls) <==> AlwaysFifo(k, front) && Fifo(After(k, calls));
      if AlwaysFifo(k, front) {
        CallKeepsFifoExactly(k, After(k, front), last);
        CallKeepsAcceptance(k, After(k, front), last, AcceptedBy(k, front));
      }
    }
  }

  lemma NothingAccepted()
    ensures InAcceptanceOrder(IDLE, [])
  {
  }

  lemma IdleIsTidy(k: Config)
    requires ValidConfig(k)
    ensures Tidy(k, IDLE) && DoneInOrder(IDLE)
  {
  }

  /** Without ordered times the guarantee fails: submitted at 10 and then at 0, the later request starts first. */
  lemma UnorderedTimesBreakFifo()
    ensures var k := Config(2, 0, 1);
            var s := After(k, [SubmitAt(1, 10), SubmitAt(2, 0)]);
            |s.inflight| == 2 && s.inflight[0].id == 1 && s.inflight[1].started < s.inflight[0].started
  {
    var k := Config(2, 0, 1);
    var one := After(k, [SubmitAt(1, 10)]);
    assert [SubmitAt(1, 10)][..0] == [];
    assert one == State([], [Served(1, 10, 10, 11)], [], 0);
    assert [SubmitAt(1, 10), SubmitAt(2, 0)][..1] == [SubmitAt(1, 10)];
    assert AdvanceTo(k, one, 0) == one;
  }
}
