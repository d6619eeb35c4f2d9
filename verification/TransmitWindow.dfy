/** When a burst falls inside its own half-duplex window.  The consumer stops
    reception, hands the frame to the broker and waits; a burst belongs to that
    wait.  If the wait runs out first, the job stays with the broker, reception
    is restarted, and the worker still transmits.  Bursts stay inside their
    windows in every run that abandons no unfinished job, and every abandoned
    one can be sent outside. */
module TransmitWindow {
  import opened Primitives
  import opened Fcs
  import opened Ax25
  import opened Control
  import opened ChannelAccess
  import opened QueueRuns
  import AQ = AdmissionQueue
  import TxDelay
  import opened TransmitStack

  /** The consumer is waiting for this job: reception is stopped on its behalf. */
  predicate Awaited(s: System, job: nat) { s.flight.Some? && s.flight.value.stage == Waiting(job) }

  /** The step keys the transmitter. */
  predicate Keys(s: System, step: Step) {
    step.Transmit? && step.job < |s.jobs| && s.jobs[step.job].phase.Cleared?
  }

  /** How many bursts of a run were sent while their job was not awaited. */
  function Outside(s: System, steps: seq<Step>): nat
    decreases |steps|
  {
    if steps == [] then 0 else
      (if Keys(s, steps[0]) && !Awaited(s, steps[0].job) then 1 else 0) + Outside(Do(s, steps[0]), steps[1..])
  }

  /** The wait runs out before the worker is done with the job. */
  predicate Abandons(s: System, step: Step) {
    && step.GiveUp? && s.flight.Some? && s.flight.value.stage.Waiting?
    && s.flight.value.stage.job < |s.jobs| && !s.jobs[s.flight.value.stage.job].phase.Done?
  }

  predicate NeverAbandons(s: System, steps: seq<Step>)
    decreases |steps|
  {
    steps == [] || (!Abandons(s, steps[0]) && NeverAbandons(Do(s, steps[0]), steps[1..]))
  }

  // ---- Without abandoned jobs

  /** Every job is done or is the one waited for. */
  ghost predicate Windowed(s: System) {
    forall k :: 0 <= k < |s.jobs| ==> s.jobs[k].phase.Done? || Awaited(s, k)
  }

  lemma StepWindowed(s: System, step: Step)
    requires Windowed(s) && !Abandons(s, step)
    ensures Windowed(Do(s, step))
  {
    hide Next, Calls, Updated, PreparedFor, AQ.Enqueue, ValidSnapshot, Capture;
  }

  lemma {:induction false} RunWindowed(s: System, steps: seq<Step>)
    requires Windowed(s) && NeverAbandons(s, steps)
    ensures Outside(s, steps) == 0
    decreases |steps|
  {
    hide Do, Awaited;
    if steps != [] {
      StepWindowed(s, steps[0]);
      RunWindowed(Do(s, steps[0]), steps[1..]);
    }
  }

  /** In every run in which no wait runs out on an unfinished job, every burst is
      keyed while its own submission has reception stopped. */
  lemma BurstsStayInTheirWindow(capacity: nat, lifetime: real, initial: Snapshot, steps: seq<Step>)
    requires NeverAbandons(Begin(capacity, lifetime, initial), steps)
    ensures Outside(Begin(capacity, lifetime, initial), steps) == 0
  {
    RunWindowed(Begin(capacity, lifetime, initial), steps);
  }

  // ---- With one

  lemma {:induction false} DoAllConcat(s: System, a: seq<Step>, b: seq<Step>)
    ensures DoAll(s, a + b) == DoAll(DoAll(s, a), b)
    decreases |a|
  {
    hide Do;
    if a == [] {
      assert a + b == b;
    } else {
      assert (a + b)[1..] == a[1..] + b;
      DoAllConcat(Do(s, a[0]), a[1..], b);
    }
  }

  /** What a worker still has to do until it may transmit. */
  function Remaining(phase: Phase, job: nat): seq<Step> {
    match phase
    case Queued => [Fetch(job, true), AskStatus(job, Some(0))]
    case Fetched => [AskStatus(job, Some(0))]
    case _ => []
  }

  lemma RemainingClears(s: System, job: nat)
    requires job < |s.jobs| && !s.jobs[job].phase.Done?
    ensures var t := DoAll(s, Remaining(s.jobs[job].phase, job));
            t.flight == s.flight && |t.jobs| == |s.jobs| && t.jobs[job].phase.Cleared?
  {
    hide Next;
    var steps := Remaining(s.jobs[job].phase, job);
    if s.jobs[job].phase == Queued {
      var s1 := Do(s, Fetch(job, true));
      assert steps[1..] == [AskStatus(job, Some(0))];
      DoOne(s1, AskStatus(job, Some(0)));
    } else if s.jobs[job].phase == Fetched {
      DoOne(s, AskStatus(job, Some(0)));
    }
  }

  lemma DoOne(s: System, step: Step)
    ensures DoAll(s, [step]) == Do(s, step)
  {
    hide Do;
    assert [step][1..] == [];
  }

  /** And whenever a wait does run out on an unfinished job, that job can still
      be transmitted after reception was restarted and the submission is over. */
  lemma AbandonedJobIsSentOutside(s: System, job: nat)
    requires Awaited(s, job) && job < |s.jobs| && !s.jobs[job].phase.Done?
    ensures Abandons(s, GiveUp)
    ensures var t := DoAll(s, [GiveUp, Restore(true)] + Remaining(s.jobs[job].phase, job));
            t.flight.None? && Keys(t, Transmit(job, true)) && Outside(t, [Transmit(job, true)]) == 1
  {
    hide Next;
    var first := [GiveUp, Restore(true)];
    assert first[1..] == [Restore(true)];
    DoOne(Do(s, GiveUp), Restore(true));
    var over := DoAll(s, first);
    assert over.flight.None? && over.jobs == s.jobs;
    DoAllConcat(s, first, Remaining(s.jobs[job].phase, job));
    RemainingClears(over, job);
    assert [Transmit(job, true)][1..] == [];
  }

  lemma {:induction false} OutsideConcat(s: System, a: seq<Step>, b: seq<Step>)
    ensures Outside(s, a + b) == Outside(s, a) + Outside(DoAll(s, a), b)
    decreases |a|
  {
    hide Do, Keys, Awaited;
    if a == [] {
      assert a + b == b;
    } else {
      assert (a + b)[1..] == a[1..] + b;
      OutsideConcat(Do(s, a[0]), a[1..], b);
    }
  }

  lemma {:induction false} NothingToAbandon(s: System, steps: seq<Step>)
    requires forall i :: 0 <= i < |steps| ==> !steps[i].GiveUp?
    ensures NeverAbandons(s, steps)
    decreases |steps|
  {
    hide Do;
    if steps != [] {
      NothingToAbandon(Do(s, steps[0]), steps[1..]);
    }
  }

  /** A step leaves a job that is neither done nor awaited, where there was none,
      if and only if it abandons one. */
  lemma OnlyAbandoningOpensTheWindow(s: System, step: Step)
    requires Windowed(s)
    ensures Windowed(Do(s, step)) <==> !Abandons(s, step)
  {
    hide Next, Calls, Updated, PreparedFor, AQ.Enqueue, ValidSnapshot, Capture;
    if Abandons(s, step) {
      var job := s.flight.value.stage.job;
      assert !Do(s, step).jobs[job].phase.Done? && !Awaited(Do(s, step), job);
    } else {
      StepWindowed(s, step);
    }
  }

  /** And such a job is all it takes: from any state, no continuation without
      abandoning keys the transmitter outside its window if and only if every
      unfinished job is the one waited for. */
  lemma SafeIffWindowed(s: System)
    ensures Windowed(s) <==> forall more :: NeverAbandons(s, more) ==> Outside(s, more) == 0
  {
    hide Do, Keys, Outside, NeverAbandons;
    if Windowed(s) {
      forall more | NeverAbandons(s, more) ensures Outside(s, more) == 0 { RunWindowed(s, more); }
    } else {
      var job :| 0 <= job < |s.jobs| && !s.jobs[job].phase.Done? && !Awaited(s, job);
      var more := Remaining(s.jobs[job].phase, job) + [Transmit(job, true)];
      NothingToAbandon(s, more);
      UnawaitedIsSentOutside(s, job);
    }
  }

  lemma UnawaitedIsSentOutside(s: System, job: nat)
    requires job < |s.jobs| && !s.jobs[job].phase.Done? && !Awaited(s, job)
    ensures Outside(s, Remaining(s.jobs[job].phase, job) + [Transmit(job, true)]) >= 1
  {
    hide Next, Do;
    var steps := Remaining(s.jobs[job].phase, job);
    RemainingClears(s, job);
    OutsideConcat(s, steps, [Transmit(job, true)]);
    assert [Transmit(job, true)][1..] == [];
  }

  // ---- Such a wait is reached

  lemma QuietAttempt(p: CsmaParameters)
    requires 0.25 + SlotSeconds(p) < p.maxWait
    ensures var a1 := Observe(NewAttempt(0.0, p), 0.0, 100, NoSource);
            var a2 := Observe(a1.0, 0.25, 100, NoSource);
            var a3 := Observe(a2.0, 0.25 + SlotSeconds(p), 100, Yields(0));
            && a1.1.Ok? && a1.1.value.csma.state == WaitClear && a2.1.Ok? && a2.1.value.csma.state == WaitSlot
            && a3.1.Ok? && a3.1.value.csma.state == Ready
  {
  }

  /** The system in which `body` was admitted at time zero and has had the
      channel-access attempt `a` so far. */
  predicate Holds(s: System, body: Bytes, attempt: Option<Attempt>, lastNow: real) {
    && s.flight.None? && s.jobs == [] && s.log == [] && s.world.finished == [] && !s.latched
    && |s.world.q.pending| == 1 && s.world.q.lastNow == lastNow
    && ValidSnapshot(s.parameters) && s.world.q.lifetime > 0.0
    && s.world.q.pending[0] ==
         AQ.MakeRequest(AQ.NewQueue(1, s.world.q.lifetime), body, Capture(s.parameters, s.world.q.lifetime), 0.0)
           .(attempt := attempt)
  }

  lemma LookHolds(s: System, body: Bytes, attempt: Option<Attempt>, lastNow: real, now: real, source: RandomSource)
    requires Holds(s, body, attempt, lastNow) && 0.0 <= lastNow <= now < s.world.q.lifetime
    requires attempt.None? ==> now == 0.0
    ensures var p := Capture(s.parameters, s.world.q.lifetime).csma;
            var a := if attempt.None? then NewAttempt(0.0, p) else attempt.value;
            var (a', r) := Observe(a, now, 100, source);
            && (r.Ok? && r.value.csma.state in {WaitClear, WaitSlot} ==>
                  && Holds(Do(s, Look(now, 100, source)), body, Some(a'), now)
                  && Do(s, Look(now, 100, source)).parameters == s.parameters
                  && Do(s, Look(now, 100, source)).world.q.lifetime == s.world.q.lifetime)
            && (r.Ok? && r.value.csma.state == Ready ==>
                  && Calls(s.world, now, 100, source, true)
                  && Do(s, Look(now, 100, source)).flight == Some(Flight(now, 100, source, Handing)))
  {
    hide Observe, ValidSnapshot, AppendFcs, TxDelay.Resolve;
    assert AQ.HeadAttempt(s.world.q.pending[0], now) ==
           if attempt.None? then NewAttempt(0.0, Capture(s.parameters, s.world.q.lifetime).csma) else attempt.value;
  }

  /** The run in which `body` is admitted, three samples find the channel quiet
      (the hold begins, it is over, and so is the slot), and the frame goes to
      the broker. */
  function QuietRun(body: Bytes, slot: real): seq<Step> {
    [CaptureParameters(0), AdmitData(0, body, 0.0), Look(0.0, 100, NoSource), Look(0.25, 100, NoSource),
     Look(0.25 + slot, 100, Yields(0)), Hand(true), Put(true)]
  }

  lemma DoFirst(s: System, steps: seq<Step>, step: Step)
    requires steps != [] && steps[0] == step
    ensures DoAll(s, steps) == DoAll(Do(s, step), steps[1..])
  {
    hide Do;
  }

  predicate OneJobWaits(s: System) {
    Awaited(s, 0) && |s.jobs| == 1 && s.jobs[0].phase == Queued && s.log == [] && s.world.finished == []
  }

  lemma AdmitHolds(capacity: nat, lifetime: real, initial: Snapshot, body: Bytes)
    requires capacity >= 1 && lifetime > 0.0 && ValidSnapshot(initial) && ParseFrame(body, false).Ok?
    ensures var s := Do(Do(Begin(capacity, lifetime, initial), CaptureParameters(0)), AdmitData(0, body, 0.0));
            Holds(s, body, None, 0.0) && s.parameters == initial && s.world.q.lifetime == lifetime
  {
    hide ParseFrame, AppendFcs, ValidSnapshot;
  }

  lemma HandedOver(s: System, body: Bytes, now: real, source: RandomSource)
    requires s.flight == Some(Flight(now, 100, source, Handing)) && !s.latched && s.jobs == []
    requires s.log == [] && s.world.finished == []
    requires s.world.q.pending != [] && s.armed == Some(s.world.q.pending[0].context)
    requires ValidSnapshot(s.parameters) && s.world.q.lifetime > 0.0
    requires s.armed == Some(Capture(s.parameters, s.world.q.lifetime)) && s.world.q.pending[0].frame == AppendFcs(body)
    requires Due(Admission(body, s.parameters)).Ok?
    ensures var t := Do(Do(s, Hand(true)), Put(true)); OneJobWaits(t)
  {
    hide AppendFcs, TxDelay.Preparation, Next, Calls;
    TxDelay.PreambleIsTight(s.parameters.txdelay);
  }

  lemma LaunchShape(s: System, now: real, source: RandomSource)
    requires s.flight.None? && Calls(s.world, now, 100, source, true)
    ensures Do(s, Look(now, 100, source)) ==
              s.(armed := Some(s.world.q.pending[0].context), flight := Some(Flight(now, 100, source, Handing)))
  {
    hide Calls, Next;
  }

  /** Three samples of a quiet channel start the submission. */
  lemma QuietLooks(s2: System, body: Bytes)
    requires Holds(s2, body, None, 0.0) && ValidSnapshot(s2.parameters)
    requires s2.world.q.lifetime > 0.25 + s2.parameters.slottime as real / 100.0
    requires Due(Admission(body, s2.parameters)).Ok?
    ensures var slot := s2.parameters.slottime as real / 100.0;
            var s4 := Do(Do(s2, Look(0.0, 100, NoSource)), Look(0.25, 100, NoSource));
            var t := Do(Do(Do(s4, Look(0.25 + slot, 100, Yields(0))), Hand(true)), Put(true));
            OneJobWaits(t)
  {
    hide Due, Do, Observe, ParseFrame, Holds, OneJobWaits, Calls;
    var slot := s2.parameters.slottime as real / 100.0;
    var p := Capture(s2.parameters, s2.world.q.lifetime).csma;
    QuietAttempt(p);
    LookHolds(s2, body, None, 0.0, 0.0, NoSource);
    var s3 := Do(s2, Look(0.0, 100, NoSource));
    var a1 := Observe(NewAttempt(0.0, p), 0.0, 100, NoSource).0;
    LookHolds(s3, body, Some(a1), 0.0, 0.25, NoSource);
    var s4 := Do(s3, Look(0.25, 100, NoSource));
    var a2 := Observe(a1, 0.25, 100, NoSource).0;
    LookHolds(s4, body, Some(a2), 0.25, 0.25 + slot, Yields(0));
    Launched(s4, body, Some(a2), 0.25, 0.25 + slot, Yields(0));
  }

  lemma Launched(s: System, body: Bytes, attempt: Option<Attempt>, lastNow: real, now: real, source: RandomSource)
    requires Holds(s, body, attempt, lastNow) && Calls(s.world, now, 100, source, true)
    requires ValidSnapshot(s.parameters) && Due(Admission(body, s.parameters)).Ok?
    ensures OneJobWaits(Do(Do(Do(s, Look(now, 100, source)), Hand(true)), Put(true)))
  {
    hide Due, Do, ParseFrame, OneJobWaits, AppendFcs, Calls;
    LaunchShape(s, now, source);
    HandedOver(Do(s, Look(now, 100, source)), body, now, source);
  }

  /** Any body that parses and can be prepared gets that far, if it lives long
      enough for the hold and one slot. */
  lemma QuietRunWaits(capacity: nat, lifetime: real, initial: Snapshot, body: Bytes)
    requires capacity >= 1 && ValidSnapshot(initial) && ParseFrame(body, false).Ok?
    requires lifetime > 0.25 + initial.slottime as real / 100.0 && Due(Admission(body, initial)).Ok?
    ensures var s := DoAll(Begin(capacity, lifetime, initial), QuietRun(body, initial.slottime as real / 100.0));
            OneJobWaits(s)
  {
    hide ParseFrame, Due, Do, Holds, OneJobWaits, DoAll;
    var s0 := Begin(capacity, lifetime, initial);
    AdmitHolds(capacity, lifetime, initial, body);
    QuietLooks(Do(Do(s0, CaptureParameters(0)), AdmitData(0, body, 0.0)), body);
    DoSeven(s0, QuietRun(body, initial.slottime as real / 100.0));
  }

  lemma DoSeven(s: System, steps: seq<Step>)
    requires |steps| == 7
    ensures var s4 := Do(Do(Do(Do(s, steps[0]), steps[1]), steps[2]), steps[3]);
            DoAll(s, steps) == Do(Do(Do(s4, steps[4]), steps[5]), steps[6])
  {
    hide Do, DoAll;
    var s1 := Do(s, steps[0]);
    var s2 := Do(s1, steps[1]);
    var s3 := Do(s2, steps[2]);
    var s4 := Do(s3, steps[3]);
    var s5 := Do(s4, steps[4]);
    DoFirst(s, steps, steps[0]);
    DoFirst(s1, steps[1..], steps[1]);
    DoFirst(s2, steps[2..], steps[2]);
    DoFirst(s3, steps[3..], steps[3]);
    DoFirst(s4, steps[4..], steps[4]);
    DoFirst(s5, steps[5..], steps[5]);
    assert steps[6..] == [steps[6]];
    DoOne(Do(s5, steps[5]), steps[6]);
  }

  /** So for every such body there is a run from the start that keys the
      transmitter while reception is running. */
  lemma WindowCanBeMissed(capacity: nat, lifetime: real, initial: Snapshot, body: Bytes)
    requires capacity >= 1 && ValidSnapshot(initial) && ParseFrame(body, false).Ok?
    requires lifetime > 0.25 + initial.slottime as real / 100.0 && Due(Admission(body, initial)).Ok?
    ensures var late := [GiveUp, Restore(true)] + Remaining(Queued, 0) + [Transmit(0, true)];
            Outside(Begin(capacity, lifetime, initial), QuietRun(body, initial.slottime as real / 100.0) + late) >= 1
  {
    hide ValidSnapshot, ParseFrame, Due, Do, Outside, Remaining;
    var s0 := Begin(capacity, lifetime, initial);
    var quiet := QuietRun(body, initial.slottime as real / 100.0);
    var back := [GiveUp, Restore(true)] + Remaining(Queued, 0);
    QuietRunWaits(capacity, lifetime, initial, body);
    AbandonedJobIsSentOutside(DoAll(s0, quiet), 0);
    OutsideConcat(DoAll(s0, quiet), back, [Transmit(0, true)]);
    OutsideConcat(s0, quiet, back + [Transmit(0, true)]);
  }
}
