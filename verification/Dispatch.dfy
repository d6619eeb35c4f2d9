/** How a submission ends.  In every run the head leaves as dispatched exactly
    when the consumer did not stop waiting, the burst of its job was
    acknowledged and reception was restored; and from every wait for an
    unfinished job a healthy modem brings about that end. */
module Dispatch {
  import opened Primitives
  import opened Ax25
  import opened Fcs
  import opened Control
  import opened ChannelAccess
  import opened QueueRuns
  import AQ = AdmissionQueue
  import TxDelay
  import opened TransmitStack
  import opened TransmitWindow

  /** The modem acknowledged a burst of request `id`. */
  ghost predicate BurstAcknowledged(s: System, id: int) {
    exists p :: 0 <= p < |s.log| && s.log[p].BurstSent? && s.log[p].ok
                && s.log[p].job < |s.jobs| && s.jobs[s.log[p].job].id == id
  }

  lemma AcknowledgedIsABurst(s: System, id: int)
    requires LogMatches(s.jobs, s.log)
    ensures Acknowledged(s.jobs, id) <==> BurstAcknowledged(s, id)
  {
    if Acknowledged(s.jobs, id) {
      var k :| 0 <= k < |s.jobs| && s.jobs[k].id == id && s.jobs[k].phase == Done(true);
      var p :| 0 <= p < |s.log| && s.log[p].BurstSent? && s.log[p].job == k;
      assert s.log[p].ok && s.jobs[s.log[p].job].id == id;
    }
  }

  predicate GaveUp(s: System) {
    s.flight.Some? && s.flight.value.stage.Restoring? && s.flight.value.stage.gaveUp
  }

  /** A submission counts as given up from the step that stops waiting for its
      job until the submission ends, and at no other time. */
  lemma OnlyGivingUp(s: System, step: Step)
    ensures GaveUp(Do(s, step)) <==>
              || (step == GiveUp && s.flight.Some? && s.flight.value.stage.Waiting?)
              || (GaveUp(s) && !step.Restore?)
  {
    hide Next, Calls, Updated, PreparedFor, AQ.Enqueue, ValidSnapshot, Capture;
  }

  /** The submission under way ends well with this step. */
  ghost predicate EndsWell(s: System, step: Step) {
    step == Restore(true) && !GaveUp(s) && BurstAcknowledged(s, |s.world.finished| + 1)
  }

  lemma LandedAs(s: System, ok: bool, latched: bool)
    requires SystemOk(s) && s.flight.Some?
    ensures Landed(s.(latched := latched), ok).world.finished ==
              s.world.finished + [(|s.world.finished| + 1, if ok then AQ.Dispatched else AQ.DownstreamFailed)]
  {
    hide WorldOk, AdmissionsOk, JobsOk, LogMatches, DispatchedOk, AQ.SameRequests, SampleStep, Calls, Acknowledged,
         SubmittedFor;
    var f := s.flight.value;
    CallsEitherWay(s.world, f.now, f.raw, f.source);
    ObservationShape(s.world, f.now, f.raw, f.source, ok);
    WorldCounts(s.world);
  }

  /** Reception restored after the broker has answered. */
  lemma RestoringLaw(s: System)
    requires SystemOk(s) && s.flight.Some? && s.flight.value.stage.Restoring?
    ensures s.flight.value.stage.ok <==> !GaveUp(s) && BurstAcknowledged(s, |s.world.finished| + 1)
  {
    hide WorldOk, AdmissionsOk, JobsOk, LogMatches, DispatchedOk, Calls, BurstAcknowledged;
    WorldCounts(s.world);
    AcknowledgedIsABurst(s, |s.world.finished| + 1);
  }

  lemma SubmissionEnds(s: System, step: Step)
    requires SystemOk(s) && s.flight.Some? && Do(s, step).flight.None?
    ensures Do(s, step).world.finished == s.world.finished +
              [(|s.world.finished| + 1, if EndsWell(s, step) then AQ.Dispatched else AQ.DownstreamFailed)]
  {
    hide SystemOk, Next, Landed, Calls, Updated, PreparedFor, AQ.Enqueue, ValidSnapshot, Capture, BurstAcknowledged;
    match step
    case Hand(ok) =>
      LandedAs(s, false, s.latched);
      LandedAs(s, false, true);
    case Restore(ok) =>
      RestoringLaw(s);
      LandedAs(s, s.flight.value.stage.ok, s.latched);
      LandedAs(s, false, true);
    case _ =>
  }

  /** Over every run and interleaving: when a submission ends, its request, the
      first not yet finished, is reported exactly once, and as dispatched if and
      only if the modem acknowledged its burst, the consumer was still waiting
      when the broker answered, and this step restored reception. */
  lemma DispatchedIff(capacity: nat, lifetime: real, initial: Snapshot, steps: seq<Step>, step: Step)
    requires capacity >= 1 && lifetime > 0.0 && ValidSnapshot(initial)
    requires DoAll(Begin(capacity, lifetime, initial), steps).flight.Some?
    requires DoAll(Begin(capacity, lifetime, initial), steps + [step]).flight.None?
    ensures var s := DoAll(Begin(capacity, lifetime, initial), steps);
            var t := DoAll(Begin(capacity, lifetime, initial), steps + [step]);
            && |t.world.finished| == |s.world.finished| + 1 && s.world.finished <= t.world.finished
            && var (id, state) := t.world.finished[|s.world.finished|];
               && id == |s.world.finished| + 1 && state in {AQ.Dispatched, AQ.DownstreamFailed}
               && (state == AQ.Dispatched <==> step == Restore(true) && !GaveUp(s) && BurstAcknowledged(s, id))
  {
    hide DoAll, Do, SystemOk, BurstAcknowledged, GaveUp, ValidSnapshot;
    var s0 := Begin(capacity, lifetime, initial);
    BeginOk(capacity, lifetime, initial);
    TransmitStack.EveryRunOk(s0, steps);
    DoAllConcat(s0, steps, [step]);
    DoOne(DoAll(s0, steps), step);
    SubmissionEnds(DoAll(s0, steps), step);
  }

  // ---- A healthy modem dispatches

  lemma RemainingKeeps(s: System, job: nat)
    requires job < |s.jobs| && !s.jobs[job].phase.Done?
    ensures var t := DoAll(s, Remaining(s.jobs[job].phase, job));
            && t == s.(jobs := t.jobs, log := t.log) && |t.jobs| == |s.jobs| && t.jobs[job].phase.Cleared?
            && t.jobs[job] == s.jobs[job].(phase := t.jobs[job].phase)
            && s.log <= t.log && forall p :: |s.log| <= p < |t.log| ==> !t.log[p].BurstSent?
  {
    hide Next;
    var steps := Remaining(s.jobs[job].phase, job);
    if s.jobs[job].phase == Queued {
      var s1 := Do(s, Fetch(job, true));
      assert steps[1..] == [AskStatus(job, Some(0))];
      DoOne(s1, AskStatus(job, Some(0)));
    } else if s.jobs[job].phase == Fetched {
      DoOne(s, AskStatus(job, Some(0)));
    }
  }

  /** What is left to do for a waiting submission if nothing fails. */
  function Healthy(phase: Phase, job: nat): seq<Step> {
    Remaining(phase, job) + [Transmit(job, true), Resume, Restore(true)]
  }

  /** The bursts of a log. */
  function Bursts(log: seq<ModemEvent>): seq<ModemEvent> {
    if log == [] then []
    else Bursts(log[..|log| - 1]) + (if log[|log| - 1].BurstSent? then [log[|log| - 1]] else [])
  }

  lemma {:induction false} NoMoreBursts(log: seq<ModemEvent>, n: nat)
    requires n <= |log| && forall p :: n <= p < |log| ==> !log[p].BurstSent?
    ensures Bursts(log) == Bursts(log[..n])
    decreases |log|
  {
    if |log| == n {
      assert log[..n] == log;
    } else {
      NoMoreBursts(log[..|log| - 1], n);
      assert log[..|log| - 1][..n] == log[..n];
    }
  }

  /** The last three steps. */
  lemma KeyedAndRestored(s: System, job: nat)
    requires SystemOk(s) && Awaited(s, job) && job < |s.jobs| && s.jobs[job].phase.Cleared?
    ensures var t := DoAll(s, [Transmit(job, true), Resume, Restore(true)]);
            && t.flight.None? && |t.log| == |s.log| + 1 && s.log <= t.log
            && t.log[|s.log|] == BurstSent(job, s.jobs[job].phase.status, s.jobs[job].prepared.selectorCount,
                                           s.jobs[job].prepared.packed, true)
            && t.world.finished == s.world.finished + [(|s.world.finished| + 1, AQ.Dispatched)]
  {
    hide SystemOk, Next, Landed;
    var steps := [Transmit(job, true), Resume, Restore(true)];
    var s1 := Do(s, Transmit(job, true));
    var s2 := Do(s1, Resume);
    DoFirst(s, steps, Transmit(job, true));
    DoFirst(s1, steps[1..], Resume);
    assert steps[1..][1..] == [Restore(true)];
    DoOne(s2, Restore(true));
    TransmitStack.StepOk(s, Transmit(job, true));
    TransmitStack.StepOk(s1, Resume);
    assert s2.flight.value.stage == Restoring(true, false) && s2.world == s.world;
    LandedAs(s2, true, s2.latched);
    assert s2.(latched := s2.latched) == s2;
    LandedShape(s2);
  }

  lemma LandedShape(s: System)
    requires s.flight.Some?
    ensures Landed(s, true).flight.None? && Landed(s, true).log == s.log
  {
    hide Next;
  }

  /** From every reachable wait for an unfinished job, a modem that does what it
      is asked sends one burst, the prepared one, and the request is reported as
      dispatched. */
  lemma HealthyDispatches(s: System, job: nat)
    requires SystemOk(s) && Awaited(s, job) && job < |s.jobs| && !s.jobs[job].phase.Done?
    ensures var t := DoAll(s, Healthy(s.jobs[job].phase, job));
            && t.flight.None? && t.world.finished == s.world.finished + [(|s.world.finished| + 1, AQ.Dispatched)]
            && |Bursts(t.log)| == |Bursts(s.log)| + 1 && Bursts(s.log) <= Bursts(t.log)
            && var b := Bursts(t.log)[|Bursts(s.log)|];
               && b.BurstSent? && b.job == job && b.ok
               && b.count == s.jobs[job].prepared.selectorCount && b.packed == s.jobs[job].prepared.packed
  {
    hide SystemOk, Do, DoAll, Remaining;
    var first := Remaining(s.jobs[job].phase, job);
    var m := DoAll(s, first);
    RemainingKeeps(s, job);
    TransmitStack.EveryRunOk(s, first);
    DoAllConcat(s, first, [Transmit(job, true), Resume, Restore(true)]);
    KeyedAndRestored(m, job);
    var t := DoAll(m, [Transmit(job, true), Resume, Restore(true)]);
    NoMoreBursts(m.log, |s.log|);
    assert m.log[..|s.log|] == s.log && t.log[..|t.log| - 1] == m.log;
  }

  /** So every body that parses and can be prepared is dispatched by the run in
      which the channel is quiet and nothing fails, with exactly one burst. */
  lemma QuietRunDispatches(capacity: nat, lifetime: real, initial: Snapshot, body: Bytes)
    requires capacity >= 1 && ValidSnapshot(initial) && ParseFrame(body, false).Ok?
    requires lifetime > 0.25 + initial.slottime as real / 100.0 && Due(Admission(body, initial)).Ok?
    ensures var last := [Fetch(0, true), AskStatus(0, Some(0)), Transmit(0, true), Resume, Restore(true)];
            var t := DoAll(Begin(capacity, lifetime, initial),
                           QuietRun(body, initial.slottime as real / 100.0) + last);
            t.world.finished == [(1, AQ.Dispatched)] && |Bursts(t.log)| == 1 && t.flight.None?
  {
    hide ParseFrame, Due, Do, DoAll, SystemOk, QuietRun;
    var s0 := Begin(capacity, lifetime, initial);
    var quiet := QuietRun(body, initial.slottime as real / 100.0);
    var last := [Fetch(0, true), AskStatus(0, Some(0)), Transmit(0, true), Resume, Restore(true)];
    QuietRunWaits(capacity, lifetime, initial, body);
    BeginOk(capacity, lifetime, initial);
    TransmitStack.EveryRunOk(s0, quiet);
    HealthyDispatches(DoAll(s0, quiet), 0);
    assert Healthy(Queued, 0) == last;
    DoAllConcat(s0, quiet, last);
  }

  // ---- The latch

  /** The lifecycle latches when reception cannot be handed off or brought back,
      and at no other step; it never unlatches. */
  lemma LatchesIff(s: System, step: Step)
    ensures Do(s, step).latched <==>
              || s.latched
              || (s.flight.Some? && s.flight.value.stage == Handing && step == Hand(false))
              || (s.flight.Some? && s.flight.value.stage.Restoring? && step == Restore(false))
  {
    hide Next, Calls, Updated, PreparedFor, AQ.Enqueue, ValidSnapshot, Capture;
  }

  /** A latched lifecycle is never past its first check. */
  predicate LatchHolds(s: System) { s.latched ==> s.flight.None? || s.flight.value.stage == Handing }

  lemma StepLatched(s: System, step: Step)
    requires LatchHolds(s)
    ensures LatchHolds(Do(s, step)) && (s.latched ==> |Do(s, step).jobs| == |s.jobs|)
  {
    hide Next, Calls, Updated, PreparedFor, AQ.Enqueue, ValidSnapshot, Capture;
  }

  /** From the latch on, whatever happens, the broker gets no further job. */
  lemma {:induction false} LatchedSubmitsNothing(s: System, steps: seq<Step>)
    requires LatchHolds(s)
    ensures LatchHolds(DoAll(s, steps)) && (s.latched ==> DoAll(s, steps).latched && |DoAll(s, steps).jobs| == |s.jobs|)
    decreases |steps|
  {
    hide Do, LatchHolds;
    if steps != [] {
      StepLatched(s, steps[0]);
      LatchesIff(s, steps[0]);
      LatchedSubmitsNothing(Do(s, steps[0]), steps[1..]);
    }
  }

  // ---- Refused jobs

  /** The bursts of one job. */
  function BurstsOf(log: seq<ModemEvent>, job: nat): nat {
    if log == [] then 0
    else BurstsOf(log[..|log| - 1], job) +
         (if log[|log| - 1].BurstSent? && log[|log| - 1].job == job then 1 else 0)
  }

  lemma StepAfterDone(s: System, step: Step, job: nat)
    requires job < |s.jobs| && s.jobs[job].phase.Done?
    ensures job < |Do(s, step).jobs| && Do(s, step).jobs[job] == s.jobs[job]
    ensures Do(s, step).log == s.log || NotItsBurst(s.log, Do(s, step).log, job)
  {
    hide Next, Calls, Updated, PreparedFor, AQ.Enqueue, ValidSnapshot, Capture;
  }

  predicate NotItsBurst(log: seq<ModemEvent>, log': seq<ModemEvent>, job: nat) {
    |log'| == |log| + 1 && log <= log' && !(log'[|log|].BurstSent? && log'[|log|].job == job)
  }

  lemma BurstsKept(log: seq<ModemEvent>, log': seq<ModemEvent>, job: nat)
    requires log' == log || NotItsBurst(log, log', job)
    ensures BurstsOf(log', job) == BurstsOf(log, job)
  {
    if log' != log { assert log'[..|log|] == log; }
  }

  lemma {:induction false} DoneIsFinal(s: System, steps: seq<Step>, job: nat)
    requires job < |s.jobs| && s.jobs[job].phase.Done?
    ensures BurstsOf(DoAll(s, steps).log, job) == BurstsOf(s.log, job)
    decreases |steps|
  {
    hide Do, BurstsOf, NotItsBurst;
    if steps != [] {
      StepAfterDone(s, steps[0], job);
      BurstsKept(s.log, Do(s, steps[0]).log, job);
      DoneIsFinal(Do(s, steps[0]), steps[1..], job);
    }
  }

  lemma {:induction false} NoBurstYet(jobs: seq<Job>, log: seq<ModemEvent>, job: nat, n: nat)
    requires LogMatches(jobs, log) && job < |jobs| && !jobs[job].phase.Done? && n <= |log|
    ensures BurstsOf(log[..n], job) == 0
    decreases n
  {
    if n > 0 {
      NoBurstYet(jobs, log, job, n - 1);
      assert log[..n][..n - 1] == log[..n - 1];
    }
  }

  /** The worker turns a job away: the broker is stopping, or the modem failed to
      answer or still holds selectors. */
  predicate TurnsAway(s: System, step: Step, job: nat) {
    && job < |s.jobs|
    && match s.jobs[job].phase
       case Queued => step == Fetch(job, false)
       case Fetched => step.AskStatus? && step.job == job && step.remaining != Some(0)
       case _ => false
  }

  /** A job that was turned away is never transmitted, in any continuation. */
  lemma TurnedAwayIsNeverSent(s: System, step: Step, job: nat, more: seq<Step>)
    requires SystemOk(s) && TurnsAway(s, step, job)
    ensures BurstsOf(DoAll(Do(s, step), more).log, job) == 0
  {
    hide WorldOk, AdmissionsOk, JobsOk, FlightOk, DispatchedOk, LogMatches, DoAll;
    NoBurstYet(s.jobs, s.log, job, |s.log|);
    assert s.log[..|s.log|] == s.log;
    var t := Do(s, step);
    assert t.jobs[job].phase == Done(false);
    BurstsKept(s.log, t.log, job);
    DoneIsFinal(t, more, job);
  }

  // ---- What reaches the broker

  /** The broker is given a job: its queue has room, and the body of the first
      unfinished request can be prepared. */
  ghost predicate GivesJob(s: System, step: Step) {
    && step == Put(true) && s.flight.Some? && s.flight.value.stage == Submitting
    && var id := |s.world.finished| + 1;
       && id <= |s.admissions| && ValidSnapshot(s.admissions[id - 1].snapshot) && Due(s.admissions[id - 1]).Ok?
  }

  lemma OnlyPutGivesJobs(s: System, step: Step)
    requires !step.Put?
    ensures |Do(s, step).jobs| == |s.jobs|
  {
    hide Next, Calls, Updated, PreparedFor, AQ.Enqueue, ValidSnapshot, Capture;
  }

  /** A job is created exactly then: for that request, with the burst and TXDELAY
      of its admission, and the consumer waits for it.  Otherwise the submission
      goes on to restore reception as failed. */
  lemma JobsIff(s: System, step: Step)
    requires SystemOk(s)
    ensures var t, id := Do(s, step), |s.world.finished| + 1;
            && |t.jobs| == |s.jobs| + (if GivesJob(s, step) then 1 else 0)
            && (GivesJob(s, step) ==>
                  && t.jobs[|s.jobs|] ==
                       Job(id, s.admissions[id - 1].snapshot.txdelay, Due(s.admissions[id - 1]).value, Queued)
                  && Awaited(t, |s.jobs|))
            && (step.Put? && s.flight.Some? && s.flight.value.stage == Submitting && !GivesJob(s, step) ==>
                  t.flight.Some? && t.flight.value.stage == Restoring(false, false))
  {
    hide SystemOk, Do;
    if step.Put? {
      PutGives(s, step.ok);
    } else {
      OnlyPutGivesJobs(s, step);
    }
  }

  lemma PutGives(s: System, ok: bool)
    requires SystemOk(s)
    ensures var t, id := Do(s, Put(ok)), |s.world.finished| + 1;
            && |t.jobs| == |s.jobs| + (if GivesJob(s, Put(ok)) then 1 else 0)
            && (GivesJob(s, Put(ok)) ==>
                  && t.jobs[|s.jobs|] ==
                       Job(id, s.admissions[id - 1].snapshot.txdelay, Due(s.admissions[id - 1]).value, Queued)
                  && Awaited(t, |s.jobs|))
            && (s.flight.Some? && s.flight.value.stage == Submitting && !GivesJob(s, Put(ok)) ==>
                  t.flight.Some? && t.flight.value.stage == Restoring(false, false))
  {
    hide ParseFrame, WorldOk, DispatchedOk, AppendFcs, TxDelay.Preparation, Calls, LogMatches, JobsOk;
    if s.flight.Some? && s.flight.value.stage == Submitting {
      var head := s.world.q.pending[0];
      WorldCounts(s.world);
      assert head.context == Captured(s.admissions[head.receipt.id - 1], s.world.q.lifetime);
      TxDelay.PreambleIsTight(s.admissions[head.receipt.id - 1].snapshot.txdelay);
    }
  }

  // ---- What an admission captured

  /** The parameters in force after the updates among `steps`. */
  function InForce(initial: Snapshot, steps: seq<Step>): Snapshot {
    if steps == [] then initial else
      var before, last := InForce(initial, steps[..|steps| - 1]), steps[|steps| - 1];
      if last.Update? then Updated(before, last.m) else before
  }

  /** Those in force when this producer last captured them. */
  function LastCapture(initial: Snapshot, steps: seq<Step>, producer: nat): Option<Snapshot> {
    if steps == [] then None
    else if steps[|steps| - 1] == CaptureParameters(producer) then Some(InForce(initial, steps[..|steps| - 1]))
    else LastCapture(initial, steps[..|steps| - 1], producer)
  }

  lemma StepCaptures(s: System, step: Step)
    ensures Do(s, step).parameters == if step.Update? then Updated(s.parameters, step.m) else s.parameters
    ensures Do(s, step).captures ==
              if step.CaptureParameters? then s.captures[step.producer := s.parameters] else s.captures
    ensures Do(s, step).admissions == s.admissions
            || (step.AdmitData? && step.producer in s.captures
                && Do(s, step).admissions == s.admissions + [Admission(step.body, s.captures[step.producer])])
  {
    hide Next, Calls, Updated, PreparedFor, AQ.Enqueue, ValidSnapshot, Capture;
  }

  lemma DoLast(s: System, steps: seq<Step>)
    requires steps != []
    ensures DoAll(s, steps) == Do(DoAll(s, steps[..|steps| - 1]), steps[|steps| - 1])
  {
    hide Do;
    var n := |steps| - 1;
    assert steps == steps[..n] + [steps[n]];
    DoAllConcat(s, steps[..n], [steps[n]]);
    DoOne(DoAll(s, steps[..n]), steps[n]);
  }

  lemma {:induction false} CapturesOfRun(capacity: nat, lifetime: real, initial: Snapshot, steps: seq<Step>)
    ensures var s := DoAll(Begin(capacity, lifetime, initial), steps);
            && s.parameters == InForce(initial, steps)
            && forall p: nat :: LastCapture(initial, steps, p) == if p in s.captures then Some(s.captures[p]) else None
    decreases |steps|
  {
    hide Do, Updated;
    if steps != [] {
      var n := |steps| - 1;
      CapturesOfRun(capacity, lifetime, initial, steps[..n]);
      DoLast(Begin(capacity, lifetime, initial), steps);
      StepCaptures(DoAll(Begin(capacity, lifetime, initial), steps[..n]), steps[n]);
    }
  }

  /** Over every run and interleaving: a request is admitted with the parameters
      that were in force when its producer captured them, whatever updates came
      between that and the admission. */
  lemma AdmittedAsCaptured(capacity: nat, lifetime: real, initial: Snapshot, steps: seq<Step>, step: Step)
    ensures var s := DoAll(Begin(capacity, lifetime, initial), steps);
            var t := DoAll(Begin(capacity, lifetime, initial), steps + [step]);
            t.admissions == s.admissions
            || (step.AdmitData? && LastCapture(initial, steps, step.producer).Some?
                && t.admissions ==
                     s.admissions + [Admission(step.body, LastCapture(initial, steps, step.producer).value)])
  {
    hide DoAll, Do, LastCapture;
    assert (steps + [step])[..|steps|] == steps;
    CapturesOfRun(capacity, lifetime, initial, steps);
    DoLast(Begin(capacity, lifetime, initial), steps + [step]);
    StepCaptures(DoAll(Begin(capacity, lifetime, initial), steps), step);
  }
}
