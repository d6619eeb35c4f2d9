/** The KISS DATA ingress: the backend object that admits one message, and any
    number of client threads inside it at once, interleaved with parameter
    updates and with the worker that advances the queue. */
module Ingress {
  import opened Primitives
  import opened KissFraming
  import opened Control
  import opened ChannelAccess
  import opened AdmissionQueue
  import QueueRuns

  datatype Counters = Counters(received: nat, admitted: nat, invalid: nat, full: nat, late: nat, other: nat)

  function Settled(c: Counters, r: Result<Receipt, QueueError>): Counters {
    match r
    case Ok(_) => c.(admitted := c.admitted + 1)
    case Err(FrameRejected) => c.(invalid := c.invalid + 1)
    case Err(QueueFull) => c.(full := c.full + 1)
    case Err(TimeError) => c.(late := c.late + 1)
    case Err(_) => c.(other := c.other + 1)
  }

  predicate IsData(m: Message) { m.command == DATA && m.port == 0 }

  function Total(c: Counters): nat { c.admitted + c.invalid + c.full + c.late + c.other }

  // ---- Client threads inside the backend

  /** Where a client thread is within one call. */
  datatype Phase =
    | Idle
    | Received(frame: Bytes)
    | Captured(frame: Bytes, context: Context)
    | Answered(answer: Result<Receipt, QueueError>)

  datatype System = System(w: QueueRuns.World, parameters: Snapshot, clients: seq<Phase>, counters: Counters)

  datatype Step =
    | Deliver(client: nat, message: Message)
    | TakeContext(client: nat)
    | Admit(client: nat, now: real)
    | Settle(client: nat)
    | Look(now: real, raw: int, source: RandomSource, submitOk: bool)

  function Begin(capacity: nat, lifetime: real, initial: Snapshot, clients: nat): System {
    System(QueueRuns.Start(capacity, lifetime), initial, seq(clients, _ => Idle), Counters(0, 0, 0, 0, 0, 0))
  }

  predicate Enabled(s: System, step: Step) {
    match step
    case Look(_, _, _, _) => true
    case Deliver(i, _) => i < |s.clients| && s.clients[i].Idle?
    case TakeContext(i) => i < |s.clients| && s.clients[i].Received?
    case Admit(i, _) => i < |s.clients| && s.clients[i].Captured?
    case Settle(i) => i < |s.clients| && s.clients[i].Answered?
  }

  /** One step; a step that is not enabled changes nothing. */
  function Next(s: System, step: Step): System
    requires ValidSnapshot(s.parameters) && s.w.q.lifetime > 0.0
  {
    if !Enabled(s, step) then s else
      match step
      case Deliver(i, m) =>
        if IsData(m) then
          s.(clients := s.clients[i := Received(m.frame)], counters := s.counters.(received := s.counters.received + 1))
        else s.(parameters := Updated(s.parameters, m))
      case TakeContext(i) =>
        s.(clients := s.clients[i := Captured(s.clients[i].frame, Capture(s.parameters, s.w.q.lifetime))])
      case Admit(i, now) =>
        var p := s.clients[i];
        s.(w := QueueRuns.Next(s.w, QueueRuns.Admit(p.frame, p.context, now)),
           clients := s.clients[i := Answered(Enqueue(s.w.q, p.frame, p.context, now).1)])
      case Settle(i) =>
        s.(clients := s.clients[i := Idle], counters := Settled(s.counters, s.clients[i].answer))
      case Look(now, raw, source, submitOk) =>
        s.(w := QueueRuns.Next(s.w, QueueRuns.Sampled(now, raw, source, submitOk)))
  }

  // ---- Invariant

  datatype Class = InCall | WithReceipt | WithInvalid | WithFull

  predicate In(p: Phase, k: Class) {
    match k
    case InCall => !p.Idle?
    case WithReceipt => p.Answered? && p.answer.Ok?
    case WithInvalid => p == Answered(Err(FrameRejected))
    case WithFull => p == Answered(Err(QueueFull))
  }

  function One(b: bool): nat { if b then 1 else 0 }

  function Count(ps: seq<Phase>, k: Class): nat {
    if ps == [] then 0 else One(In(ps[0], k)) + Count(ps[1..], k)
  }

  lemma {:induction false} CountUpdate(ps: seq<Phase>, i: nat, p: Phase, k: Class)
    requires i < |ps|
    ensures Count(ps[i := p], k) + One(In(ps[i], k)) == Count(ps, k) + One(In(p, k))
  {
    hide In;
    if i == 0 {
      assert ps[0 := p][1..] == ps[1..];
    } else {
      assert ps[i := p][1..] == ps[1..][i - 1 := p];
      CountUpdate(ps[1..], i - 1, p, k);
    }
  }

  lemma {:induction false} NoneCounted(ps: seq<Phase>, k: Class)
    requires forall i :: 0 <= i < |ps| ==> ps[i].Idle?
    ensures Count(ps, k) == 0
  {
    if ps != [] {
      NoneCounted(ps[1..], k);
    }
  }

  /** A context as the backend captures it: one generation's policy, bounded by
      the queue's own lifetime. */
  predicate FullBound(c: Context, lifetime: real) { Coherent(c) && c.csma.maxWait == lifetime }

  ghost predicate Agrees(s: System) {
    var q, c := s.w.q, s.counters;
    && c.received == Total(c) + Count(s.clients, InCall) && c.other == 0
    && q.accepted == c.admitted + Count(s.clients, WithReceipt)
    && q.invalid == c.invalid + Count(s.clients, WithInvalid)
    && q.full == c.full + Count(s.clients, WithFull)
    && (forall i :: 0 <= i < |s.clients| && s.clients[i].Answered? && s.clients[i].answer.Err? ==>
          s.clients[i].answer.error in {TimeError, FrameRejected, QueueFull})
  }

  ghost predicate Bounded(s: System) {
    && (forall i :: 0 <= i < |s.w.q.pending| ==> FullBound(s.w.q.pending[i].context, s.w.q.lifetime))
    && (forall i :: 0 <= i < |s.clients| && s.clients[i].Captured? ==> FullBound(s.clients[i].context, s.w.q.lifetime))
  }

  ghost predicate SystemOk(s: System) {
    ValidSnapshot(s.parameters) && s.w.q.lifetime > 0.0 && QueueRuns.WorldOk(s.w) && Agrees(s) && Bounded(s)
  }

  lemma BeginOk(capacity: nat, lifetime: real, initial: Snapshot, clients: nat)
    requires capacity >= 1 && lifetime > 0.0 && ValidSnapshot(initial)
    ensures SystemOk(Begin(capacity, lifetime, initial, clients))
  {
    var s := Begin(capacity, lifetime, initial, clients);
    QueueRuns.StartOk(capacity, lifetime);
    NoneCounted(s.clients, InCall);
    NoneCounted(s.clients, WithReceipt);
    NoneCounted(s.clients, WithInvalid);
    NoneCounted(s.clients, WithFull);
  }

  lemma CountsMove(ps: seq<Phase>, i: nat, p: Phase)
    requires i < |ps|
    ensures forall k: Class :: Count(ps[i := p], k) + One(In(ps[i], k)) == Count(ps, k) + One(In(p, k))
  {
    forall k: Class ensures Count(ps[i := p], k) + One(In(ps[i], k)) == Count(ps, k) + One(In(p, k)) {
      CountUpdate(ps, i, p, k);
    }
  }

  lemma UpdatedValid(p: Snapshot, m: Message)
    requires ValidSnapshot(p)
    ensures ValidSnapshot(Updated(p, m))
  {
  }

  lemma AdmitShape(q: Queue, body: Bytes, context: Context, now: real)
    ensures var (q', r) := Enqueue(q, body, context, now);
            && q'.accepted == q.accepted + One(r.Ok?) && q'.invalid == q.invalid + One(r == Err(FrameRejected))
            && q'.full == q.full + One(r == Err(QueueFull)) && q'.lifetime == q.lifetime
            && (r.Ok? || (r.Err? && r.error in {TimeError, FrameRejected, QueueFull}))
            && (q'.pending == q.pending || (|q'.pending| == |q.pending| + 1 && q.pending <= q'.pending
                                            && q'.pending[|q.pending|].context == context))
  {
    hide Fcs.AppendFcs, Ax25.ParseFrame;
  }

  lemma AdmitOk(s: System, step: Step)
    requires SystemOk(s) && step.Admit? && Enabled(s, step)
    ensures SystemOk(Next(s, step))
  {
    hide QueueRuns.WorldOk, Enqueue, FullBound, Count, Capture, ValidSnapshot;
    var p := s.clients[step.client];
    QueueRuns.NextOk(s.w, QueueRuns.Admit(p.frame, p.context, step.now));
    AdmitShape(s.w.q, p.frame, p.context, step.now);
    CountsMove(s.clients, step.client, Answered(Enqueue(s.w.q, p.frame, p.context, step.now).1));
  }

  lemma LookOk(s: System, step: Step)
    requires SystemOk(s) && step.Look?
    ensures SystemOk(Next(s, step))
  {
    hide QueueRuns.WorldOk, ObserveQueue, FullBound, Count, QueueRuns.Takes, Capture, ValidSnapshot;
    QueueRuns.NextOk(s.w, QueueRuns.Sampled(step.now, step.raw, step.source, step.submitOk));
    ObserveShape(s.w.q, step.now, step.raw, step.source, step.submitOk);
  }

  lemma CallOk(s: System, step: Step)
    requires SystemOk(s) && Enabled(s, step) && (step.Deliver? || step.TakeContext? || step.Settle?)
    ensures SystemOk(Next(s, step))
  {
    hide QueueRuns.WorldOk, Count, ValidSnapshot, Updated, Coherent;
    match step
    case Deliver(i, m) =>
      if IsData(m) {
        CountsMove(s.clients, i, Received(m.frame));
      } else {
        UpdatedValid(s.parameters, m);
      }
    case TakeContext(i) =>
      CountsMove(s.clients, i, Captured(s.clients[i].frame, Capture(s.parameters, s.w.q.lifetime)));
    case Settle(i) =>
      CountsMove(s.clients, i, Idle);
  }

  lemma StepOk(s: System, step: Step)
    requires SystemOk(s)
    ensures SystemOk(Next(s, step))
  {
    hide SystemOk;
    assert ValidSnapshot(s.parameters) && s.w.q.lifetime > 0.0 by { Basics(s); }
    if step.Look? {
      LookOk(s, step);
    } else if Enabled(s, step) {
      if step.Admit? {
        AdmitOk(s, step);
      } else {
        CallOk(s, step);
      }
    }
  }

  lemma Basics(s: System)
    requires SystemOk(s)
    ensures ValidSnapshot(s.parameters) && s.w.q.lifetime > 0.0
  {
  }

  /** Every system reached from `s` by some sequence of steps. */
  ghost predicate Reaches(s: System, steps: seq<Step>, t: System)
    decreases |steps|
  {
    if steps == [] then s == t
    else ValidSnapshot(s.parameters) && s.w.q.lifetime > 0.0 && Reaches(Next(s, steps[0]), steps[1..], t)
  }

  lemma {:induction false} EveryRunOk(s: System, steps: seq<Step>, t: System)
    requires SystemOk(s) && Reaches(s, steps, t)
    ensures SystemOk(t)
    decreases |steps|
  {
    hide SystemOk, Next;
    if steps != [] {
      StepOk(s, steps[0]);
      EveryRunOk(Next(s, steps[0]), steps[1..], t);
    }
  }

  /** Whatever the interleaving, every DATA message received is in a call or in
      exactly one counter, and whenever no call is in progress the ingress
      counters equal those of the queue. */
  lemma CountersAgree(capacity: nat, lifetime: real, initial: Snapshot, clients: nat, steps: seq<Step>, t: System)
    requires capacity >= 1 && lifetime > 0.0 && ValidSnapshot(initial)
    requires Reaches(Begin(capacity, lifetime, initial, clients), steps, t)
    ensures t.counters.received == Total(t.counters) + Count(t.clients, InCall) && t.counters.other == 0
    ensures (forall i :: 0 <= i < |t.clients| ==> t.clients[i].Idle?) ==>
              && t.counters.received == Total(t.counters)
              && t.counters.admitted == t.w.q.accepted && t.counters.invalid == t.w.q.invalid
              && t.counters.full == t.w.q.full
  {
    hide QueueRuns.WorldOk, Reaches, Count, Bounded, Next, Begin;
    BeginOk(capacity, lifetime, initial, clients);
    EveryRunOk(Begin(capacity, lifetime, initial, clients), steps, t);
    if forall i :: 0 <= i < |t.clients| ==> t.clients[i].Idle? {
      NoneCounted(t.clients, InCall);
      NoneCounted(t.clients, WithReceipt);
      NoneCounted(t.clients, WithInvalid);
      NoneCounted(t.clients, WithFull);
    }
  }

  /** Because the backend captures the queue's lifetime as the access bound, no
      observation in any run ends a request by the access policy's own timeout:
      a request expires only at the deadline it was admitted with. */
  lemma OnlyTheLifetimeExpires(capacity: nat, lifetime: real, initial: Snapshot, clients: nat,
                               steps: seq<Step>, t: System, now: real, raw: int, source: RandomSource, submitOk: bool)
    requires capacity >= 1 && lifetime > 0.0 && ValidSnapshot(initial)
    requires Reaches(Begin(capacity, lifetime, initial, clients), steps, t)
    ensures var r := ObserveQueue(t.w.q, now, raw, source, submitOk).1;
            r.Ok? && r.value.state == Some(Expired) ==>
              r.value.access.None? && t.w.q.pending != [] && now >= t.w.q.pending[0].receipt.deadline
  {
    hide QueueRuns.WorldOk, Reaches, Agrees, ObserveHead;
    BeginOk(capacity, lifetime, initial, clients);
    EveryRunOk(Begin(capacity, lifetime, initial, clients), steps, t);
    QueueRuns.InnerTimeoutNeedsShortBound(t.w, QueueRuns.Sampled(now, raw, source, submitOk));
    ExpiryIsByDeadline(t.w.q, now, raw, source, submitOk);
  }

  lemma ExpiryIsByDeadline(q: Queue, now: real, raw: int, source: RandomSource, submitOk: bool)
    ensures var r := ObserveQueue(q, now, raw, source, submitOk).1;
            r.Ok? && r.value.state == Some(Expired) && r.value.access.None? ==>
              q.pending != [] && now >= q.pending[0].receipt.deadline
  {
    hide Observe, HeadAttempt;
  }

  // ---- The backend object

  datatype Reply = DataReply(result: Result<Receipt, QueueError>) | ControlReply(disposition: Disposition)

  class TNCTransmitBackend {
    const session: TNCSessionState
    const admission: KISSDataAdmissionQueue
    var counters: Counters

    ghost predicate Apart()
      reads admission, admission.HeadParts()
    {
      && (session as object) !in admission.HeadParts() && (session as object) != admission
      && (this as object) !in admission.HeadParts() && (this as object) != admission && (this as object) != session
    }

    /** Nothing is lost between the message counters and the queue's. */
    ghost predicate Valid()
      reads this, session, admission, admission.HeadParts()
    {
      && Apart() && session.Valid() && admission.Valid()
      && counters.received == Total(counters) && counters.other == 0
      && counters.admitted == admission.accepted && counters.invalid == admission.invalid
      && counters.full == admission.full
    }

    constructor (session: TNCSessionState, admission: KISSDataAdmissionQueue)
      requires session.Valid() && admission.Valid() && (session as object) != admission
      requires (session as object) !in admission.HeadParts()
      requires admission.accepted == 0 && admission.invalid == 0 && admission.full == 0
      ensures Valid() && this.session == session && this.admission == admission
    {
      this.session, this.admission := session, admission;
      counters := Counters(0, 0, 0, 0, 0, 0);
    }

    /** A port-0 DATA message is admitted with the parameters in force, or
        rejected for one reason; every other message is a control message. */
    method RejectClientMessage(m: Message, now: real) returns (reply: Reply)
      requires Valid()
      modifies this, session, admission
      ensures Valid()
      ensures IsData(m) ==>
                && reply.DataReply?
                && (admission.View(), reply.result) ==
                     Enqueue(old(admission.View()), m.frame, Capture(old(session.parameters), admission.lifetime), now)
                && counters == Settled(old(counters).(received := old(counters).received + 1), reply.result)
                && session.parameters == old(session.parameters)
      ensures !IsData(m) ==>
                && reply == ControlReply(Judge(m)) && session.parameters == Updated(old(session.parameters), m)
                && admission.View() == old(admission.View()) && counters == old(counters)
    {
      hide Enqueue, Updated, Judge, Capture, ValidSnapshot;
      if m.command != DATA || m.port != 0 {
        var d := session.Apply(m);
        return ControlReply(d);
      }
      counters := counters.(received := counters.received + 1);
      var context := session.CaptureTxContext(admission.lifetime);
      AdmitShape(admission.View(), m.frame, context, now);
      var r := admission.EnqueueFrame(m.frame, context, now);
      counters := Settled(counters, r);
      reply := DataReply(r);
    }
  }
}
