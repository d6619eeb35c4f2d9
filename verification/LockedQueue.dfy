/** The thread-safe queue: producers and the consumer as interleaved steps.
    Because the clock is read inside the lock, no interleaving can make the
    wrapped queue reject an operation as out of order; reading it before
    locking would. */
module LockedQueue {
  import opened Primitives
  import opened Control
  import opened ChannelAccess
  import opened AdmissionQueue

  datatype Operation =
    | Put(body: Bytes, context: Context)
    | Look(raw: int, source: RandomSource, submitOk: bool)

  /** Where a thread is within one call. */
  datatype Phase =
    | Idle
    | Calling(op: Operation)
    | Stamped(op: Operation, stamp: real)

  /** `clock` is the monotonic clock; `holder` owns the lock. */
  datatype System = System(clock: real, holder: Option<nat>, threads: map<nat, Phase>, q: Queue, timeErrors: nat)

  datatype Step =
    | Advance(amount: real)
    | Call(thread: nat, op: Operation)
    | Acquire(thread: nat)
    | ReadClock(thread: nat)
    | Execute(thread: nat)

  function PhaseOf(s: System, thread: nat): Phase { if thread in s.threads then s.threads[thread] else Idle }

  function Perform(q: Queue, op: Operation, now: real): (Queue, bool) {
    match op
    case Put(body, context) =>
      var (q', r) := Enqueue(q, body, context, now);
      (q', r == Err(TimeError))
    case Look(raw, source, submitOk) =>
      var (q', r) := ObserveQueue(q, now, raw, source, submitOk);
      (q', r == Err(TimeError))
  }

  /** One step; a step that is not enabled changes nothing.  With `early` the
      clock is read before the lock is taken, otherwise while it is held. */
  function Do(s: System, step: Step, early: bool): System {
    match step
    case Advance(amount) => if amount >= 0.0 then s.(clock := s.clock + amount) else s
    case Call(t, op) => if PhaseOf(s, t).Idle? then s.(threads := s.threads[t := Calling(op)]) else s
    case Acquire(t) =>
      if s.holder.None? && (if early then PhaseOf(s, t).Stamped? else PhaseOf(s, t).Calling?)
      then s.(holder := Some(t)) else s
    case ReadClock(t) =>
      if PhaseOf(s, t).Calling? && (early || s.holder == Some(t))
      then s.(threads := s.threads[t := Stamped(PhaseOf(s, t).op, s.clock)]) else s
    case Execute(t) =>
      if s.holder == Some(t) && PhaseOf(s, t).Stamped? then
        var (q, late) := Perform(s.q, PhaseOf(s, t).op, PhaseOf(s, t).stamp);
        System(s.clock, None, s.threads[t := Idle], q, if late then s.timeErrors + 1 else s.timeErrors)
      else s
  }

  function DoAll(s: System, steps: seq<Step>, early: bool): System
    decreases |steps|
  {
    if steps == [] then s else DoAll(Do(s, steps[0], early), steps[1..], early)
  }

  function Initial(capacity: nat, lifetime: real, clock: real): System {
    System(clock, None, map[], NewQueue(capacity, lifetime), 0)
  }

  /** Only the lock holder can have a stamp, and it lies between the queue's
      last operation and the present. */
  ghost predicate Ordered(s: System) {
    && 0.0 <= s.q.lastNow <= s.clock && s.timeErrors == 0
    && forall t: nat :: PhaseOf(s, t).Stamped? ==>
         s.holder == Some(t) && s.q.lastNow <= PhaseOf(s, t).stamp <= s.clock
  }

  lemma PerformInOrder(q: Queue, op: Operation, now: real)
    requires 0.0 <= q.lastNow <= now
    ensures Perform(q, op, now).0.lastNow == now && !Perform(q, op, now).1
  {
  }

  lemma DoKeepsOrder(s: System, step: Step)
    requires Ordered(s)
    ensures Ordered(Do(s, step, false))
  {
    hide Perform;
    if step.Execute? {
      ExecuteKeepsOrder(s, step.thread);
    } else {
      var s' := Do(s, step, false);
      forall t: nat | PhaseOf(s', t).Stamped?
        ensures s'.holder == Some(t) && s'.q.lastNow <= PhaseOf(s', t).stamp <= s'.clock
      {
        assert PhaseOf(s, t).Stamped? || step == ReadClock(t);
      }
    }
  }

  lemma ExecuteKeepsOrder(s: System, thread: nat)
    requires Ordered(s)
    ensures Ordered(Do(s, Execute(thread), false))
  {
    hide Perform;
    if s.holder == Some(thread) && PhaseOf(s, thread).Stamped? {
      PerformInOrder(s.q, PhaseOf(s, thread).op, PhaseOf(s, thread).stamp);
      var s' := Do(s, Execute(thread), false);
      assert forall t: nat :: PhaseOf(s', t).Stamped? ==> PhaseOf(s, t).Stamped? && t != thread;
    }
  }

  lemma {:induction false} OrderIsKept(s: System, steps: seq<Step>)
    requires Ordered(s)
    ensures Ordered(DoAll(s, steps, false))
    decreases |steps|
  {
    hide Do, Ordered;
    if steps != [] {
      DoKeepsOrder(s, steps[0]);
      OrderIsKept(Do(s, steps[0], false), steps[1..]);
    }
  }

  lemma InitialOrdered(capacity: nat, lifetime: real, clock: real)
    requires clock >= 0.0
    ensures Ordered(Initial(capacity, lifetime, clock))
  {
  }

  /** From a new queue, with any number of threads, any operations, any
      interleaving and any non-negative monotone clock, no call reports a time
      error, and no stamp in use is older than the last operation. */
  lemma LockOrdersTime(capacity: nat, lifetime: real, clock: real, steps: seq<Step>)
    requires clock >= 0.0
    ensures var s := DoAll(Initial(capacity, lifetime, clock), steps, false);
            && s.timeErrors == 0
            && forall t: nat :: PhaseOf(s, t).Stamped? ==> s.q.lastNow <= PhaseOf(s, t).stamp <= s.clock
  {
    hide DoAll, Initial;
    InitialOrdered(capacity, lifetime, clock);
    OrderIsKept(Initial(capacity, lifetime, clock), steps);
  }

  /** Reading the clock before locking admits a run with a time error: the
      first thread reads, the second reads later but locks first. */
  lemma EarlyReadFails(capacity: nat, lifetime: real, op: Operation)
    ensures var steps := [Call(1, op), ReadClock(1), Advance(1.0), Call(2, op), ReadClock(2),
                          Acquire(2), Execute(2), Acquire(1), Execute(1)];
            DoAll(Initial(capacity, lifetime, 0.0), steps, true).timeErrors == 1
  {
    hide Perform;
    var s0 := Initial(capacity, lifetime, 0.0);
    var s1 := Do(s0, Call(1, op), true);
    var s2 := Do(s1, ReadClock(1), true);
    var s3 := Do(s2, Advance(1.0), true);
    var s4 := Do(s3, Call(2, op), true);
    var s5 := Do(s4, ReadClock(2), true);
    var s6 := Do(s5, Acquire(2), true);
    var s7 := Do(s6, Execute(2), true);
    PerformInOrder(s6.q, op, 1.0);
    var s8 := Do(s7, Acquire(1), true);
    var s9 := Do(s8, Execute(1), true);
    assert Perform(s8.q, op, 0.0).1 by { PerformLate(s8.q, op, 0.0); }
    var steps := [Call(1, op), ReadClock(1), Advance(1.0), Call(2, op), ReadClock(2),
                  Acquire(2), Execute(2), Acquire(1), Execute(1)];
    assert steps[0..] == steps;
    Peel(s0, steps, 0);
    Peel(s1, steps, 1);
    Peel(s2, steps, 2);
    Peel(s3, steps, 3);
    Peel(s4, steps, 4);
    Peel(s5, steps, 5);
    Peel(s6, steps, 6);
    Peel(s7, steps, 7);
    Peel(s8, steps, 8);
  }

  lemma Peel(s: System, steps: seq<Step>, k: nat)
    requires k < |steps|
    ensures DoAll(s, steps[k..], true) == DoAll(Do(s, steps[k], true), steps[k + 1..], true)
    ensures k + 1 == |steps| ==> DoAll(s, steps[k..], true) == Do(s, steps[k], true)
  {
    hide Do;
    assert steps[k..][1..] == steps[k + 1..];
  }

  lemma PerformLate(q: Queue, op: Operation, now: real)
    requires now < q.lastNow
    ensures Perform(q, op, now) == (q, true)
  {
  }
}
