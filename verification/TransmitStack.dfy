/** The transmit path as interleaved steps: parameter updates, admissions, the
    consumer thread inside one half-duplex submission, and the broker workers
    that talk to the modem.  The result is the no-retry theorem: each admitted
    request causes at most one selector burst, and a dispatched one exactly one,
    serialized with the TXDELAY captured at its admission. */
module TransmitStack {
  import opened Primitives
  import opened Fcs
  import opened Ax25
  import opened Hdlc
  import opened KissFraming
  import opened Control
  import opened ChannelAccess
  import Deframer
  import TxDelay
  import AQ = AdmissionQueue
  import opened QueueRuns

  // ---- State

  /** A broker job: the prepared burst of one request, and how far its worker
      has come. */
  datatype Phase = Queued | Fetched | Cleared(status: nat) | Done(ok: bool)
  datatype Job = Job(id: int, units: int, prepared: TxDelay.Prepared, phase: Phase)

  /** Modem transactions of the workers; `None` is a failed status read. */
  datatype ModemEvent =
    | Status(job: nat, remaining: Option<nat>)
    | BurstSent(job: nat, status: nat, count: nat, packed: Bytes, ok: bool)

  /** Where the consumer is inside the submission of the head request; `gaveUp`
      means that it stopped waiting for the broker. */
  datatype Stage = Handing | Submitting | Waiting(job: nat) | Restoring(ok: bool, gaveUp: bool)
  datatype Flight = Flight(now: real, raw: int, source: RandomSource, stage: Stage)

  datatype Admission = Admission(body: Bytes, snapshot: Snapshot)

  /** `captures` holds the generation each producer captured for the message it
      is admitting. */
  datatype System = System(parameters: Snapshot, captures: map<nat, Snapshot>, world: World, flight: Option<Flight>,
                           armed: Option<Context>, jobs: seq<Job>, log: seq<ModemEvent>, latched: bool,
                           admissions: seq<Admission>)

  datatype Step =
    | Update(m: Message)
    | CaptureParameters(producer: nat)
    | AdmitData(producer: nat, body: Bytes, now: real)
    | Look(now: real, raw: int, source: RandomSource)
    | Hand(ok: bool)
    | Put(ok: bool)
    | Resume
    | GiveUp
    | Restore(ok: bool)
    | Fetch(job: nat, accepting: bool)
    | AskStatus(job: nat, remaining: Option<nat>)
    | Transmit(job: nat, ok: bool)

  function Begin(capacity: nat, lifetime: real, initial: Snapshot): System {
    System(initial, map[], Start(capacity, lifetime), None, None, [], [], false, [])
  }

  /** The head becomes READY on this observation, so its submission starts. */
  predicate Calls(w: World, now: real, raw: int, source: RandomSource, ok: bool) {
    var r := AQ.ObserveQueue(w.q, now, raw, source, ok).1;
    w.q.pending != [] && r.Ok? && r.value.downstreamCalled
  }

  function Landed(s: System, ok: bool): System
    requires s.flight.Some?
  {
    var f := s.flight.value;
    s.(world := Next(s.world, Sampled(f.now, f.raw, f.source, ok)), flight := None, armed := None)
  }

  function AtStage(s: System, stage: Stage): System
    requires s.flight.Some?
  {
    s.(flight := Some(s.flight.value.(stage := stage)))
  }

  function WithPhase(s: System, job: nat, phase: Phase): System
    requires job < |s.jobs|
  {
    s.(jobs := s.jobs[job := s.jobs[job].(phase := phase)])
  }

  /** The burst that the broker for the armed context prepares for a frame. */
  function PreparedFor(frame: Bytes, context: Context): Result<TxDelay.Prepared, TxDelay.PrepareError>
    requires context.profile.preFlags >= 1
  {
    TxDelay.Preparation(frame, context.profile.preFlags)
  }

  function Admitted(s: System, body: Bytes, snapshot: Snapshot, now: real): System
    requires ValidSnapshot(snapshot) && s.world.q.lifetime > 0.0
  {
    var (q, r) := AQ.Enqueue(s.world.q, body, Capture(snapshot, s.world.q.lifetime), now);
    s.(world := s.world.(q := q),
       admissions := if r.Ok? then s.admissions + [Admission(body, snapshot)] else s.admissions)
  }

  /** One step; a step that is not enabled changes nothing. */
  function Do(s: System, step: Step): System {
    match step
    case Update(m) => s.(parameters := Updated(s.parameters, m))
    case CaptureParameters(producer) => s.(captures := s.captures[producer := s.parameters])
    case AdmitData(producer, body, now) =>
      // The queue lock keeps producers out while a submission is under way.
      if s.flight.Some? || producer !in s.captures then s
      else if !ValidSnapshot(s.captures[producer]) || s.world.q.lifetime <= 0.0 then s
      else Admitted(s, body, s.captures[producer], now)
    case Look(now, raw, source) =>
      if s.flight.Some? then s
      else if !Calls(s.world, now, raw, source, true) then s.(world := Next(s.world, Sampled(now, raw, source, true)))
      else s.(armed := Some(s.world.q.pending[0].context), flight := Some(Flight(now, raw, source, Handing)))
    case Hand(ok) =>
      if s.flight.None? || s.flight.value.stage != Handing then s
      else if s.latched then Landed(s, false)
      else if ok then AtStage(s, Submitting)
      else Landed(s.(latched := true), false)
    case Put(ok) =>
      if s.flight.None? || s.flight.value.stage != Submitting || s.world.q.pending == [] then s
      else if s.armed.None? || s.armed.value.profile.preFlags < 1 then AtStage(s, Restoring(false, false))
      else
        var head := s.world.q.pending[0];
        var p := PreparedFor(head.frame, s.armed.value);
        if !ok || p.Err? then AtStage(s, Restoring(false, false))
        else
          var job := Job(head.receipt.id, s.armed.value.profile.units, p.value, Queued);
          AtStage(s, Waiting(|s.jobs|)).(jobs := s.jobs + [job])
    case Resume =>
      if s.flight.Some? && s.flight.value.stage.Waiting? && s.flight.value.stage.job < |s.jobs|
         && s.jobs[s.flight.value.stage.job].phase.Done?
      then AtStage(s, Restoring(s.jobs[s.flight.value.stage.job].phase.ok, false)) else s
    case GiveUp =>
      if s.flight.Some? && s.flight.value.stage.Waiting? then AtStage(s, Restoring(false, true)) else s
    case Restore(ok) =>
      if s.flight.None? || !s.flight.value.stage.Restoring? then s
      else if ok then Landed(s, s.flight.value.stage.ok)
      else Landed(s.(latched := true), false)
    case Fetch(job, accepting) =>
      if job < |s.jobs| && s.jobs[job].phase == Queued
      then WithPhase(s, job, if accepting then Fetched else Done(false)) else s
    case AskStatus(job, remaining) =>
      if job < |s.jobs| && s.jobs[job].phase == Fetched
      then WithPhase(s, job, if remaining == Some(0) then Cleared(|s.log|) else Done(false))
           .(log := s.log + [Status(job, remaining)])
      else s
    case Transmit(job, ok) =>
      if job < |s.jobs| && s.jobs[job].phase.Cleared? then
        var p := s.jobs[job].prepared;
        var sent := BurstSent(job, s.jobs[job].phase.status, p.selectorCount, p.packed, ok);
        WithPhase(s, job, Done(ok)).(log := s.log + [sent])
      else s
  }

  function DoAll(s: System, steps: seq<Step>): System
    decreases |steps|
  {
    if steps == [] then s else DoAll(Do(s, steps[0]), steps[1..])
  }

  // ---- Invariants

  function Captured(a: Admission, lifetime: real): Context
    requires ValidSnapshot(a.snapshot) && lifetime > 0.0
  {
    Capture(a.snapshot, lifetime)
  }

  /** Every admission was made under a valid generation, and every pending
      request still carries that generation and its body with one FCS. */
  ghost predicate AdmissionsOk(s: System) {
    var q := s.world.q;
    && ValidSnapshot(s.parameters) && (forall t :: t in s.captures ==> ValidSnapshot(s.captures[t]))
    && |s.admissions| == q.accepted && q.lifetime > 0.0
    && (forall k :: 0 <= k < |s.admissions| ==> ValidSnapshot(s.admissions[k].snapshot))
    && (forall k :: 0 <= k < |s.admissions| ==> ParseFrame(s.admissions[k].body, false).Ok?)
    && (forall i :: 0 <= i < |q.pending| ==>
          var id := q.pending[i].receipt.id;
          && 1 <= id <= |s.admissions|
          && q.pending[i].context == Captured(s.admissions[id - 1], q.lifetime)
          && q.pending[i].frame == AppendFcs(s.admissions[id - 1].body))
  }

  /** The burst a request's admission calls for. */
  function Due(a: Admission): Result<TxDelay.Prepared, TxDelay.PrepareError>
    requires ValidSnapshot(a.snapshot)
  {
    TxDelay.Preparation(AppendFcs(a.body), TxDelay.Resolve(a.snapshot.txdelay).value.preFlags)
  }

  /** Every job belongs to one admission and carries exactly its burst; later
      jobs belong to later requests. */
  ghost predicate JobsOk(jobs: seq<Job>, admissions: seq<Admission>) {
    && (forall k :: 0 <= k < |jobs| ==>
          && 1 <= jobs[k].id <= |admissions| && ValidSnapshot(admissions[jobs[k].id - 1].snapshot)
          && Due(admissions[jobs[k].id - 1]) == Ok(jobs[k].prepared)
          && jobs[k].units == admissions[jobs[k].id - 1].snapshot.txdelay)
    && (forall k, l :: 0 <= k < l < |jobs| ==> jobs[k].id < jobs[l].id)
  }

  /** Each burst follows a zero-pending status of its own job, is that job's
      prepared burst, and is the only burst of that job; and a job's phase tells
      whether it has had its burst. */
  ghost predicate LogMatches(jobs: seq<Job>, log: seq<ModemEvent>) {
    && (forall p :: 0 <= p < |log| && log[p].BurstSent? ==>
          var b := log[p];
          && b.job < |jobs| && jobs[b.job].phase == Done(b.ok)
          && b.status < p && log[b.status] == Status(b.job, Some(0))
          && b.count == jobs[b.job].prepared.selectorCount && b.packed == jobs[b.job].prepared.packed)
    && (forall p, q :: 0 <= p < q < |log| && log[p].BurstSent? && log[q].BurstSent? ==> log[p].job != log[q].job)
    && (forall k :: 0 <= k < |jobs| && jobs[k].phase.Cleared? ==>
          jobs[k].phase.status < |log| && log[jobs[k].phase.status] == Status(k, Some(0)))
    && (forall k :: 0 <= k < |jobs| && jobs[k].phase == Done(true) ==>
          exists p :: 0 <= p < |log| && log[p].BurstSent? && log[p].job == k)
  }

  /** Some job of request `id` was transmitted and acknowledged. */
  ghost predicate Acknowledged(jobs: seq<Job>, id: int) {
    exists k :: 0 <= k < |jobs| && jobs[k].id == id && jobs[k].phase == Done(true)
  }

  /** The broker is through with every job of request `id`. */
  ghost predicate Settled(jobs: seq<Job>, id: int, ok: bool) {
    forall k :: 0 <= k < |jobs| && jobs[k].id == id ==> jobs[k].phase == Done(ok)
  }

  /** The submission under way is the head's, with the head's own context
      armed; it has created at most one job, and none belongs to a request that
      is still waiting. */
  ghost predicate FlightOk(s: System) {
    var q, n := s.world.q, Finished(s.world.q);
    match s.flight
    case None => s.armed.None? && forall k :: 0 <= k < |s.jobs| ==> s.jobs[k].id <= n
    case Some(f) =>
      && q.pending != [] && s.armed == Some(q.pending[0].context)
      && Calls(s.world, f.now, f.raw, f.source, true)
      && match f.stage
         case Handing => forall k :: 0 <= k < |s.jobs| ==> s.jobs[k].id <= n
         case Submitting => forall k :: 0 <= k < |s.jobs| ==> s.jobs[k].id <= n
         case Waiting(j) =>
           j < |s.jobs| && s.jobs[j].id == n + 1 && forall k :: 0 <= k < |s.jobs| ==> s.jobs[k].id <= n + 1
         case Restoring(ok, gaveUp) =>
           && (ok ==> Acknowledged(s.jobs, n + 1)) && (forall k :: 0 <= k < |s.jobs| ==> s.jobs[k].id <= n + 1)
           && if gaveUp then !ok else Settled(s.jobs, n + 1, ok)
  }

  ghost predicate DispatchedOk(jobs: seq<Job>, finished: seq<(int, AQ.RequestState)>) {
    forall k :: 0 <= k < |finished| && finished[k].1 == AQ.Dispatched ==> Acknowledged(jobs, k + 1)
  }

  ghost predicate SystemOk(s: System) {
    && WorldOk(s.world) && AdmissionsOk(s) && JobsOk(s.jobs, s.admissions) && LogMatches(s.jobs, s.log)
    && FlightOk(s) && DispatchedOk(s.jobs, s.world.finished)
  }

  lemma BeginOk(capacity: nat, lifetime: real, initial: Snapshot)
    requires capacity >= 1 && lifetime > 0.0 && ValidSnapshot(initial)
    ensures SystemOk(Begin(capacity, lifetime, initial))
  {
    StartOk(capacity, lifetime);
  }

  // ---- The queue under one observation

  /** An observation either keeps every request or finishes the head; it finishes
      it as dispatched or failed exactly when it calls the submitter. */
  lemma ObservationShape(w: World, now: real, raw: int, source: RandomSource, ok: bool)
    requires WorldOk(w)
    ensures var w' := SampleStep(w, Sampled(now, raw, source, ok));
            && w'.q.accepted == w.q.accepted && w'.q.lifetime == w.q.lifetime && w.submissions <= w'.submissions
            && (Calls(w, now, raw, source, ok) ==>
                  && SubmittedFor(w'.submissions, Finished(w.q) + 1)
                  && w'.finished ==
                       w.finished + [(Finished(w.q) + 1, if ok then AQ.Dispatched else AQ.DownstreamFailed)]
                  && AQ.SameRequests(w'.q.pending, w.q.pending[1..]))
            && (!Calls(w, now, raw, source, ok) ==>
                  || (w'.finished == w.finished && AQ.SameRequests(w'.q.pending, w.q.pending))
                  || (w.q.pending != [] && w'.finished == w.finished + [(Finished(w.q) + 1, AQ.Expired)]
                      && AQ.SameRequests(w'.q.pending, w.q.pending[1..])))
  {
    hide AQ.ObserveQueue, WorldOk, Takes, AQ.SameRequests, Finished;
    AQ.ObserveShape(w.q, now, raw, source, ok);
    WorldCounts(w);
    if Calls(w, now, raw, source, ok) {
      var subs := SampleStep(w, Sampled(now, raw, source, ok)).submissions;
      assert subs[|w.submissions|].id == Finished(w.q) + 1;
    }
  }

  ghost predicate SubmittedFor(subs: seq<Submission>, id: int) { exists u :: 0 <= u < |subs| && subs[u].id == id }

  lemma SubmittedLater(subs: seq<Submission>, subs': seq<Submission>, id: int)
    requires subs <= subs' && SubmittedFor(subs, id)
    ensures SubmittedFor(subs', id)
  {
    var u :| 0 <= u < |subs| && subs[u].id == id;
    assert subs'[u].id == id;
  }

  /** Whether the submitter is called does not depend on what it will answer. */
  lemma CallsEitherWay(w: World, now: real, raw: int, source: RandomSource)
    ensures Calls(w, now, raw, source, true) == Calls(w, now, raw, source, false)
  {
    hide Observe, AQ.HeadAttempt;
    if w.q.pending != [] && AQ.AcceptsNow(w.q, now) && now < w.q.pending[0].receipt.deadline {
      ObserveKeeps(AQ.HeadAttempt(w.q.pending[0], now), now, raw, source);
    }
  }

  // ---- Queue-side steps

  lemma UpdateOk(s: System, m: Message)
    requires SystemOk(s)
    ensures SystemOk(s.(parameters := Updated(s.parameters, m)))
  {
    hide ParseFrame, WorldOk, JobsOk, LogMatches, DispatchedOk, AppendFcs, Captured;
    var s' := s.(parameters := Updated(s.parameters, m));
    assert ValidSnapshot(s'.parameters) by { SnapshotAfterRun(s.parameters, [m]); UpdatedOne(s.parameters, m); }
    assert AdmissionsOk(s');
  }

  lemma UpdatedOne(t: Snapshot, m: Message)
    ensures UpdatedAll(t, [m]) == Updated(t, m)
  {
    hide Updated;
    assert [m][1..] == [];
  }

  lemma CaptureOk(s: System, producer: nat)
    requires SystemOk(s)
    ensures SystemOk(s.(captures := s.captures[producer := s.parameters]))
  {
    hide ParseFrame, WorldOk, JobsOk, LogMatches, DispatchedOk, AppendFcs, Captured, ValidSnapshot;
    assert AdmissionsOk(s.(captures := s.captures[producer := s.parameters]));
  }

  lemma EnqueueShape(q: AQ.Queue, body: Bytes, context: Context, now: real)
    requires QueueOk(q)
    ensures var (q', r) := AQ.Enqueue(q, body, context, now);
            && q'.lifetime == q.lifetime && Finished(q') == Finished(q)
            && (r.Err? ==> q'.pending == q.pending && q'.accepted == q.accepted)
            && (r.Ok? ==> && ParseFrame(body, false).Ok? && q'.accepted == q.accepted + 1
                          && |q'.pending| == |q.pending| + 1 && q.pending <= q'.pending
                          && var last := q'.pending[|q.pending|];
                             last.receipt.id == q'.accepted && last.context == context && last.frame == AppendFcs(body))
  {
    hide AppendFcs, ParseFrame, RequestOk;
  }

  lemma AdmitStepOk(s: System, body: Bytes, snapshot: Snapshot, now: real)
    requires SystemOk(s) && s.flight.None? && ValidSnapshot(snapshot) && s.world.q.lifetime > 0.0
    ensures SystemOk(Admitted(s, body, snapshot, now))
  {
    hide ParseFrame, LogMatches, DispatchedOk, QueueOk, HeadOk, LogOk, SubmissionsOk, AQ.Enqueue, AppendFcs, Due,
         ValidSnapshot;
    var context := Capture(snapshot, s.world.q.lifetime);
    EnqueueShape(s.world.q, body, context, now);
    AdmitOk(s.world, body, context, now);
    var s' := Admitted(s, body, snapshot, now);
    assert JobsOk(s'.jobs, s'.admissions);
    assert AdmissionsOk(s');
  }

  /** Whatever an observation keeps still matches its admission. */
  lemma AdmissionsKept(s: System, s': System)
    requires AdmissionsOk(s) && s'.parameters == s.parameters && s'.captures == s.captures
    requires s'.admissions == s.admissions
    requires s'.world.q.accepted == s.world.q.accepted && s'.world.q.lifetime == s.world.q.lifetime
    requires || AQ.SameRequests(s'.world.q.pending, s.world.q.pending)
             || (s.world.q.pending != [] && AQ.SameRequests(s'.world.q.pending, s.world.q.pending[1..]))
    ensures AdmissionsOk(s')
  {
    hide ParseFrame, AppendFcs, ValidSnapshot, Captured;
    var a, b := s.world.q.pending, s'.world.q.pending;
    if !AQ.SameRequests(b, a) {
      forall i | 0 <= i < |b| ensures AQ.SameRequest(b[i], a[i + 1]) { assert AQ.SameRequest(b[i], a[1..][i]); }
    }
  }

  lemma WorldCounts(w: World)
    requires WorldOk(w)
    ensures |w.finished| == Finished(w.q) && (w.q.pending != [] ==> w.q.pending[0].receipt.id == Finished(w.q) + 1)
  {
    if w.q.pending != [] { HeadFacts(w.q); }
  }

  /** An observation that does not start a submission. */
  lemma LookOk(s: System, now: real, raw: int, source: RandomSource)
    requires SystemOk(s) && s.flight.None? && !Calls(s.world, now, raw, source, true)
    ensures SystemOk(s.(world := Next(s.world, Sampled(now, raw, source, true))))
  {
    hide WorldOk, AdmissionsOk, JobsOk, LogMatches, AQ.SameRequests, SampleStep, Calls, Acknowledged;
    var e := Sampled(now, raw, source, true);
    var s' := s.(world := Next(s.world, e));
    NextOk(s.world, e);
    ObservationShape(s.world, now, raw, source, true);
    WorldCounts(s.world);
    WorldCounts(s'.world);
    AdmissionsKept(s, s');
  }

  lemma LaunchOk(s: System, now: real, raw: int, source: RandomSource)
    requires SystemOk(s) && s.flight.None? && Calls(s.world, now, raw, source, true)
    ensures SystemOk(s.(armed := Some(s.world.q.pending[0].context), flight := Some(Flight(now, raw, source, Handing))))
  {
    hide ParseFrame, WorldOk, JobsOk, LogMatches, DispatchedOk, AppendFcs, Captured, AQ.ObserveQueue;
  }

  /** The submission ends and the head leaves the queue. */
  lemma LandOk(s: System, ok: bool, latched: bool)
    requires SystemOk(s) && s.flight.Some? && (ok ==> Acknowledged(s.jobs, Finished(s.world.q) + 1))
    ensures SystemOk(Landed(s.(latched := latched), ok))
  {
    hide WorldOk, AdmissionsOk, JobsOk, LogMatches, AQ.SameRequests, SampleStep, Calls, Acknowledged;
    var f := s.flight.value;
    var e := Sampled(f.now, f.raw, f.source, ok);
    var s' := Landed(s.(latched := latched), ok);
    CallsEitherWay(s.world, f.now, f.raw, f.source);
    NextOk(s.world, e);
    ObservationShape(s.world, f.now, f.raw, f.source, ok);
    WorldCounts(s.world);
    WorldCounts(s'.world);
    AdmissionsKept(s, s');
  }

  // ---- The broker

  lemma PutOk(s: System, ok: bool)
    requires SystemOk(s) && s.flight.Some? && s.flight.value.stage == Submitting
    ensures SystemOk(Do(s, Put(ok)))
  {
    hide ParseFrame, WorldOk, DispatchedOk, AppendFcs, TxDelay.Preparation, Calls, LogMatches, JobsOk;
    var head := s.world.q.pending[0];
    WorldCounts(s.world);
    assert head.context == Captured(s.admissions[head.receipt.id - 1], s.world.q.lifetime);
    TxDelay.PreambleIsTight(s.admissions[head.receipt.id - 1].snapshot.txdelay);
    var s' := Do(s, Put(ok));
    if s'.jobs != s.jobs {
      NewJobLog(s.jobs, s.log, s'.jobs[|s.jobs|]);
      NewJobOk(s.jobs, s.admissions, s'.jobs[|s.jobs|]);
      AcknowledgedLater(s.jobs, s'.jobs, s.world.finished);
    }
  }

  lemma NewJobOk(jobs: seq<Job>, admissions: seq<Admission>, j: Job)
    requires JobsOk(jobs, admissions) && forall k :: 0 <= k < |jobs| ==> jobs[k].id < j.id
    requires 1 <= j.id <= |admissions| && ValidSnapshot(admissions[j.id - 1].snapshot)
    requires Due(admissions[j.id - 1]) == Ok(j.prepared) && j.units == admissions[j.id - 1].snapshot.txdelay
    ensures JobsOk(jobs + [j], admissions)
  {
    hide Due;
  }

  lemma NewJobLog(jobs: seq<Job>, log: seq<ModemEvent>, j: Job)
    requires LogMatches(jobs, log) && j.phase == Queued
    ensures LogMatches(jobs + [j], log)
  {
  }

  /** Acknowledgements are never withdrawn. */
  lemma AcknowledgedLater(jobs: seq<Job>, jobs': seq<Job>, finished: seq<(int, AQ.RequestState)>)
    requires |jobs| <= |jobs'| && forall k :: 0 <= k < |jobs| ==>
      jobs'[k].id == jobs[k].id && (jobs[k].phase == Done(true) ==> jobs'[k].phase == Done(true))
    ensures forall id :: Acknowledged(jobs, id) ==> Acknowledged(jobs', id)
    ensures DispatchedOk(jobs, finished) ==> DispatchedOk(jobs', finished)
  {
    forall id | Acknowledged(jobs, id) ensures Acknowledged(jobs', id) {
      var k :| 0 <= k < |jobs| && jobs[k].id == id && jobs[k].phase == Done(true);
      assert jobs'[k].id == id && jobs'[k].phase == Done(true);
    }
  }

  /** A worker step changes one job's phase and may append one log entry. */
  lemma WorkerOk(s: System, s': System, job: nat, phase: Phase)
    requires SystemOk(s) && job < |s.jobs| && !s.jobs[job].phase.Done?
    requires s' == WithPhase(s, job, phase).(log := s'.log) && LogMatches(s'.jobs, s'.log)
    ensures SystemOk(s')
  {
    hide WorldOk, LogMatches, JobsOk, AdmissionsOk, FlightOk, DispatchedOk, Acknowledged;
    AcknowledgedLater(s.jobs, s'.jobs, s.world.finished);
    SameQueueSide(s, s');
    RephasedJobs(s.jobs, s'.jobs, s.admissions);
    RephasedFlight(s, s');
  }

  lemma SameQueueSide(s: System, s': System)
    requires AdmissionsOk(s) && s' == s.(jobs := s'.jobs, log := s'.log)
    ensures AdmissionsOk(s')
  {
    hide ParseFrame, ValidSnapshot, AppendFcs, Captured;
  }

  predicate Rephased(jobs: seq<Job>, jobs': seq<Job>) {
    && |jobs'| == |jobs|
    && forall k :: 0 <= k < |jobs| ==>
         jobs'[k] == jobs[k].(phase := jobs'[k].phase) && (jobs[k].phase.Done? ==> jobs'[k] == jobs[k])
  }

  lemma RephasedJobs(jobs: seq<Job>, jobs': seq<Job>, admissions: seq<Admission>)
    requires JobsOk(jobs, admissions) && Rephased(jobs, jobs')
    ensures JobsOk(jobs', admissions)
  {
    hide Due, ValidSnapshot;
  }

  lemma RephasedFlight(s: System, s': System)
    requires FlightOk(s) && s' == s.(jobs := s'.jobs, log := s'.log) && Rephased(s.jobs, s'.jobs)
    requires forall id :: Acknowledged(s.jobs, id) ==> Acknowledged(s'.jobs, id)
    ensures FlightOk(s')
  {
    hide Calls, Acknowledged;
  }

  lemma FetchLog(jobs: seq<Job>, log: seq<ModemEvent>, job: nat, accepting: bool)
    requires LogMatches(jobs, log) && job < |jobs| && jobs[job].phase == Queued
    ensures LogMatches(jobs[job := jobs[job].(phase := if accepting then Fetched else Done(false))], log)
  {
    var jobs' := jobs[job := jobs[job].(phase := if accepting then Fetched else Done(false))];
    forall k | 0 <= k < |jobs'| && jobs'[k].phase == Done(true)
      ensures exists p :: 0 <= p < |log| && log[p].BurstSent? && log[p].job == k
    {
      assert jobs[k].phase == Done(true);
    }
  }

  lemma StatusLog(jobs: seq<Job>, log: seq<ModemEvent>, job: nat, remaining: Option<nat>)
    requires LogMatches(jobs, log) && job < |jobs| && jobs[job].phase == Fetched
    ensures LogMatches(jobs[job := jobs[job].(phase := if remaining == Some(0) then Cleared(|log|) else Done(false))],
                       log + [Status(job, remaining)])
  {
    var jobs' := jobs[job := jobs[job].(phase := if remaining == Some(0) then Cleared(|log|) else Done(false))];
    var log' := log + [Status(job, remaining)];
    forall k | 0 <= k < |jobs'| && jobs'[k].phase == Done(true)
      ensures exists p :: 0 <= p < |log'| && log'[p].BurstSent? && log'[p].job == k
    {
      assert jobs[k].phase == Done(true);
      var p :| 0 <= p < |log| && log[p].BurstSent? && log[p].job == k;
      assert log'[p] == log[p];
    }
  }

  lemma BurstLog(jobs: seq<Job>, log: seq<ModemEvent>, job: nat, ok: bool)
    requires LogMatches(jobs, log) && job < |jobs| && jobs[job].phase.Cleared?
    ensures var p := jobs[job].prepared;
            LogMatches(jobs[job := jobs[job].(phase := Done(ok))],
                       log + [BurstSent(job, jobs[job].phase.status, p.selectorCount, p.packed, ok)])
  {
    var jobs' := jobs[job := jobs[job].(phase := Done(ok))];
    var p := jobs[job].prepared;
    var b := BurstSent(job, jobs[job].phase.status, p.selectorCount, p.packed, ok);
    var log' := log + [b];
    assert log'[|log|] == b;
    forall k | 0 <= k < |jobs'| && jobs'[k].phase == Done(true)
      ensures exists p :: 0 <= p < |log'| && log'[p].BurstSent? && log'[p].job == k
    {
      if k != job {
        assert jobs[k].phase == Done(true);
        var p :| 0 <= p < |log| && log[p].BurstSent? && log[p].job == k;
        assert log'[p] == log[p];
      }
    }
  }

  lemma StageOk(s: System, stage: Stage)
    requires SystemOk(s) && s.flight.Some?
    requires match stage
             case Submitting => s.flight.value.stage == Handing
             case Restoring(ok, gaveUp) =>
               && s.flight.value.stage.Waiting? && (ok ==> Acknowledged(s.jobs, Finished(s.world.q) + 1))
               && if gaveUp then !ok else Settled(s.jobs, Finished(s.world.q) + 1, ok)
             case _ => false
    ensures SystemOk(AtStage(s, stage))
  {
    hide ParseFrame, WorldOk, JobsOk, LogMatches, DispatchedOk, AppendFcs, Captured, Calls, Acknowledged;
    assert AdmissionsOk(AtStage(s, stage));
  }

  lemma OnlyOneJob(jobs: seq<Job>, admissions: seq<Admission>, j: nat)
    requires JobsOk(jobs, admissions) && j < |jobs| && jobs[j].phase.Done?
    ensures Settled(jobs, jobs[j].id, jobs[j].phase.ok)
  {
    hide Due, ValidSnapshot;
  }

  lemma ConsumerOk(s: System, step: Step)
    requires SystemOk(s) && (step.Hand? || step.Resume? || step.GiveUp? || step.Restore?)
    ensures SystemOk(Do(s, step))
  {
    hide WorldOk, AdmissionsOk, JobsOk, LogMatches, DispatchedOk, Calls, Landed;
    if s.flight.Some? {
      var stage := s.flight.value.stage;
      match step
      case Hand(ok) =>
        if stage == Handing {
          LandOk(s, false, s.latched || !ok);
          if ok { StageOk(s, Submitting); }
        }
      case Resume =>
        if stage.Waiting? && s.jobs[stage.job].phase.Done? {
          OnlyOneJob(s.jobs, s.admissions, stage.job);
          StageOk(s, Restoring(s.jobs[stage.job].phase.ok, false));
        }
      case GiveUp =>
        if stage.Waiting? { StageOk(s, Restoring(false, true)); }
      case Restore(ok) =>
        if stage.Restoring? {
          LandOk(s, stage.ok, s.latched);
          LandOk(s, false, true);
        }
    }
  }

  lemma StepOk(s: System, step: Step)
    requires SystemOk(s)
    ensures SystemOk(Do(s, step))
  {
    hide SystemOk, Next, Landed, Admitted, Calls;
    match step
    case Update(m) => UpdateOk(s, m);
    case CaptureParameters(producer) => CaptureOk(s, producer);
    case AdmitData(producer, body, now) =>
      if s.flight.None? && producer in s.captures && ValidSnapshot(s.captures[producer]) && s.world.q.lifetime > 0.0 {
        AdmitStepOk(s, body, s.captures[producer], now);
      }
    case Look(now, raw, source) =>
      if s.flight.None? {
        if Calls(s.world, now, raw, source, true) {
          LaunchOk(s, now, raw, source);
        } else {
          LookOk(s, now, raw, source);
        }
      }
    case Put(ok) =>
      if s.flight.Some? && s.flight.value.stage == Submitting { PutOk(s, ok); }
    case Fetch(job, accepting) =>
      if job < |s.jobs| && s.jobs[job].phase == Queued {
        LogOf(s);
        FetchLog(s.jobs, s.log, job, accepting);
        WorkerOk(s, Do(s, step), job, if accepting then Fetched else Done(false));
      }
    case AskStatus(job, remaining) =>
      if job < |s.jobs| && s.jobs[job].phase == Fetched {
        LogOf(s);
        StatusLog(s.jobs, s.log, job, remaining);
        WorkerOk(s, Do(s, step), job, if remaining == Some(0) then Cleared(|s.log|) else Done(false));
      }
    case Transmit(job, ok) =>
      if job < |s.jobs| && s.jobs[job].phase.Cleared? {
        LogOf(s);
        BurstLog(s.jobs, s.log, job, ok);
        WorkerOk(s, Do(s, step), job, Done(ok));
      }
    case _ => ConsumerOk(s, step);
  }

  lemma LogOf(s: System)
    requires SystemOk(s)
    ensures LogMatches(s.jobs, s.log)
  {
  }

  lemma {:induction false} EveryRunOk(s: System, steps: seq<Step>)
    requires SystemOk(s)
    ensures SystemOk(DoAll(s, steps))
    decreases |steps|
  {
    hide SystemOk, Do;
    if steps != [] {
      StepOk(s, steps[0]);
      EveryRunOk(Do(s, steps[0]), steps[1..]);
    }
  }

  // ---- The no-retry theorem

  /** The selectors an admission calls for: its body with FCS behind the preamble
      of the TXDELAY it captured. */
  function BurstFor(a: Admission): Selectors
    requires ValidSnapshot(a.snapshot)
  {
    TxDelay.BurstSelectors(AppendFcs(a.body), TxDelay.Resolve(a.snapshot.txdelay).value.preFlags)
  }

  /** Over every run and interleaving, two bursts never serve the same request,
      and each burst was preceded by a zero-pending status for it. */
  lemma AtMostOneBurst(capacity: nat, lifetime: real, initial: Snapshot, steps: seq<Step>, p: nat, q: nat)
    requires capacity >= 1 && lifetime > 0.0 && ValidSnapshot(initial)
    ensures var s := DoAll(Begin(capacity, lifetime, initial), steps);
            p < |s.log| && q < |s.log| && s.log[p].BurstSent? && s.log[q].BurstSent? ==>
              && s.log[p].job < |s.jobs| && s.log[q].job < |s.jobs|
              && (s.jobs[s.log[p].job].id == s.jobs[s.log[q].job].id ==> p == q)
              && s.log[p].status < p && s.log[s.log[p].status] == Status(s.log[p].job, Some(0))
  {
    hide DoAll, WorldOk, AdmissionsOk, FlightOk, DispatchedOk, Due, ValidSnapshot;
    assert SystemOk(Begin(capacity, lifetime, initial)) by { BeginOk(capacity, lifetime, initial); }
    EveryRunOk(Begin(capacity, lifetime, initial), steps);
  }

  /** A request reported as dispatched caused a burst (exactly one, by
      `AtMostOneBurst`), and that burst unpacks to the serialization of its body
      with FCS, preceded by the preamble of the TXDELAY captured for it, whatever
      parameter updates came later. */
  lemma DispatchedMeansOneFaithfulBurst(capacity: nat, lifetime: real, initial: Snapshot, steps: seq<Step>, id: int)
      returns (p: nat)
    requires capacity >= 1 && lifetime > 0.0 && ValidSnapshot(initial)
    requires var w := DoAll(Begin(capacity, lifetime, initial), steps).world;
             1 <= id <= |w.finished| && w.finished[id - 1].1 == AQ.Dispatched
    ensures var s := DoAll(Begin(capacity, lifetime, initial), steps);
            && p < |s.log| && s.log[p].BurstSent? && s.log[p].ok
            && s.log[p].job < |s.jobs| && s.jobs[s.log[p].job].id == id
            && id <= |s.admissions| && ValidSnapshot(s.admissions[id - 1].snapshot)
            && var a := s.admissions[id - 1];
               UnpackSelectors(s.log[p].packed, s.log[p].count) == Ok(BurstFor(a))
                   && |BurstFor(a)| <= TxDelay.MAX_SELECTORS
  {
    hide DoAll, WorldOk, AdmissionsOk, FlightOk, AppendFcs, UnpackSelectors, TxDelay.Preparation,
         TxDelay.BurstSelectors;
    assert SystemOk(Begin(capacity, lifetime, initial)) by { BeginOk(capacity, lifetime, initial); }
    EveryRunOk(Begin(capacity, lifetime, initial), steps);
    var s := DoAll(Begin(capacity, lifetime, initial), steps);
    assert Acknowledged(s.jobs, (id - 1) + 1);
    var k :| 0 <= k < |s.jobs| && s.jobs[k].id == id && s.jobs[k].phase == Done(true);
    p :| 0 <= p < |s.log| && s.log[p].BurstSent? && s.log[p].job == k;
    var a := s.admissions[id - 1];
    TxDelay.PreparationIsFaithful(AppendFcs(a.body), TxDelay.Resolve(a.snapshot.txdelay).value.preFlags);
  }

  /** An admitted body, given its FCS, is a frame every receiver accepts. */
  lemma AdmittedIsAcceptable(body: Bytes)
    requires ParseFrame(body, false).Ok?
    ensures Deframer.Acceptable(AppendFcs(body))
  {
    hide VerifyFcs, AppendFcs, ParseBody;
    ParsedIsLong(body);
    assert AppendFcs(body)[..|body|] == body by { FcsIsATail(body); }
  }

  // ---- Every burst was heard clear

  /** Every job of a finished request goes back to a call of the submitter. */
  ghost predicate JobsSubmitted(s: System) {
    forall k :: 0 <= k < |s.jobs| && s.jobs[k].id <= |s.world.finished| ==>
        SubmittedFor(s.world.submissions, s.jobs[k].id)
  }

  /** A step that keeps the submissions and finishes nobody whose job is new. */
  lemma SubmittedKept(s: System, s': System)
    requires JobsSubmitted(s) && s.world.submissions <= s'.world.submissions && |s.jobs| <= |s'.jobs|
    requires forall k :: 0 <= k < |s.jobs| ==> s'.jobs[k].id == s.jobs[k].id
    requires forall k :: 0 <= k < |s'.jobs| && s'.jobs[k].id <= |s'.world.finished| ==>
               (k < |s.jobs| && s.jobs[k].id <= |s.world.finished|) || SubmittedFor(s'.world.submissions, s'.jobs[k].id)
    ensures JobsSubmitted(s')
  {
    hide SubmittedFor;
    forall k | 0 <= k < |s'.jobs| && s'.jobs[k].id <= |s'.world.finished|
      ensures SubmittedFor(s'.world.submissions, s'.jobs[k].id)
    {
      if k < |s.jobs| && s.jobs[k].id <= |s.world.finished| {
        SubmittedLater(s.world.submissions, s'.world.submissions, s.jobs[k].id);
      }
    }
  }

  lemma LandSubmits(s: System, ok: bool, latched: bool)
    requires SystemOk(s) && JobsSubmitted(s) && s.flight.Some?
    ensures JobsSubmitted(Landed(s.(latched := latched), ok))
  {
    hide WorldOk, AdmissionsOk, JobsOk, LogMatches, DispatchedOk, AQ.SameRequests, SampleStep, Calls, Acknowledged,
         SubmittedFor;
    var f := s.flight.value;
    CallsEitherWay(s.world, f.now, f.raw, f.source);
    ObservationShape(s.world, f.now, f.raw, f.source, ok);
    WorldCounts(s.world);
    SubmittedKept(s, Landed(s.(latched := latched), ok));
  }

  lemma LookSubmits(s: System, now: real, raw: int, source: RandomSource)
    requires SystemOk(s) && JobsSubmitted(s) && s.flight.None? && !Calls(s.world, now, raw, source, true)
    ensures JobsSubmitted(s.(world := Next(s.world, Sampled(now, raw, source, true))))
  {
    hide WorldOk, AdmissionsOk, JobsOk, LogMatches, DispatchedOk, AQ.SameRequests, SampleStep, Calls, SubmittedFor;
    ObservationShape(s.world, now, raw, source, true);
    WorldCounts(s.world);
    SubmittedKept(s, s.(world := Next(s.world, Sampled(now, raw, source, true))));
  }

  lemma StepSubmits(s: System, step: Step)
    requires SystemOk(s) && JobsSubmitted(s)
    ensures JobsSubmitted(Do(s, step))
  {
    hide WorldOk, AdmissionsOk, JobsOk, LogMatches, DispatchedOk, Next, Landed, Calls, SubmittedFor, AQ.Enqueue,
         PreparedFor;
    WorldCounts(s.world);
    if step.Look? && s.flight.None? && !Calls(s.world, step.now, step.raw, step.source, true) {
      LookSubmits(s, step.now, step.raw, step.source);
    } else if s.flight.Some? && (step.Hand? || step.Restore?) {
      LandSubmits(s, false, true);
      LandSubmits(s, false, s.latched);
      LandSubmits(s, s.flight.value.stage.Restoring? && s.flight.value.stage.ok, s.latched);
    }
  }

  lemma {:induction false} EveryRunSubmits(s: System, steps: seq<Step>)
    requires SystemOk(s) && JobsSubmitted(s)
    ensures SystemOk(DoAll(s, steps)) && JobsSubmitted(DoAll(s, steps))
    decreases |steps|
  {
    hide SystemOk, JobsSubmitted, Do;
    if steps != [] {
      StepOk(s, steps[0]);
      StepSubmits(s, steps[0]);
      EveryRunSubmits(Do(s, steps[0]), steps[1..]);
    }
  }

  /** The world once the submission under way, if any, has been recorded. */
  function Recorded(s: System): World {
    match s.flight
    case None => s.world
    case Some(f) => Next(s.world, Sampled(f.now, f.raw, f.source, true))
  }

  lemma BurstSubmitted(s: System, id: int, k: nat)
    requires SystemOk(s) && JobsSubmitted(s) && k < |s.jobs| && s.jobs[k].id == id
    ensures WorldOk(Recorded(s)) && SubmittedFor(Recorded(s).submissions, id)
  {
    hide WorldOk, AdmissionsOk, JobsOk, LogMatches, DispatchedOk, SampleStep, Calls, SubmittedFor, Acknowledged;
    WorldCounts(s.world);
    if s.flight.Some? {
      var f := s.flight.value;
      NextOk(s.world, Sampled(f.now, f.raw, f.source, true));
      ObservationShape(s.world, f.now, f.raw, f.source, true);
      if id <= |s.world.finished| {
        SubmittedLater(s.world.submissions, Recorded(s).submissions, id);
      }
    }
  }

  /** Over every run and interleaving, also for a burst sent after its caller
      gave up: the request of every burst has a call of the submitter that was
      justified by its samples (a full clear hold, then a whole slot, no busy
      sample, a passing trial, before the deadline). */
  lemma EveryBurstHeardClear(capacity: nat, lifetime: real, initial: Snapshot, steps: seq<Step>,
                             p: nat) returns (u: nat)
    requires capacity >= 1 && lifetime > 0.0 && ValidSnapshot(initial)
    requires p < |DoAll(Begin(capacity, lifetime, initial), steps).log|
    ensures var s := DoAll(Begin(capacity, lifetime, initial), steps);
            s.log[p].BurstSent? ==>
              var w := Recorded(s);
              && s.log[p].job < |s.jobs| && u < |w.submissions| && w.submissions[u].id == s.jobs[s.log[p].job].id
              && QueueRuns.Justified(w.submissions[u], w.log)
  {
    hide DoAll, AdmissionsOk, JobsOk, FlightOk, DispatchedOk, QueueOk, HeadOk, LogOk, FinishedOk,
         QueueRuns.Justified, Recorded, SampleStep;
    var s0 := Begin(capacity, lifetime, initial);
    assert SystemOk(s0) by { BeginOk(capacity, lifetime, initial); }
    EveryRunSubmits(s0, steps);
    var s := DoAll(s0, steps);
    u := 0;
    if s.log[p].BurstSent? {
      var id := s.jobs[s.log[p].job].id;
      BurstSubmitted(s, id, s.log[p].job);
      var v :| 0 <= v < |Recorded(s).submissions| && Recorded(s).submissions[v].id == id;
      u := v;
    }
  }

  // ---- Reception

  /** From KISS body to receiver: the burst of a dispatched request whose
      captured TXDELAY is at least one, played to a receiver in any state,
      delivers exactly the admitted body with its FCS (after at most one
      candidate that was already under way). */
  lemma DispatchedIsReceived(capacity: nat, lifetime: real, initial: Snapshot, steps: seq<Step>, id: int,
                             r: Deframer.Receiver, ys: seq<Deframer.Symbol>, period: real) returns (p: nat)
    requires capacity >= 1 && lifetime > 0.0 && ValidSnapshot(initial) && Deframer.Bounded(r.link)
    requires var w := DoAll(Begin(capacity, lifetime, initial), steps).world;
             1 <= id <= |w.finished| && w.finished[id - 1].1 == AQ.Dispatched
    ensures var s := DoAll(Begin(capacity, lifetime, initial), steps);
            && p < |s.log| && s.log[p].BurstSent? && s.log[p].job < |s.jobs| && s.jobs[s.log[p].job].id == id
            && id <= |s.admissions|
            && (s.admissions[id - 1].snapshot.txdelay >= 1
                && UnpackSelectors(s.log[p].packed, s.log[p].count) == Ok(Deframer.SelectorsOf(ys)) ==>
                  Delivers(r, ys, AppendFcs(s.admissions[id - 1].body), period))
  {
    hide DoAll, BurstFor, Delivers, UnpackSelectors, AppendFcs, ParseFrame, ValidSnapshot;
    p := DispatchedMeansOneFaithfulBurst(capacity, lifetime, initial, steps, id);
    var s := DoAll(Begin(capacity, lifetime, initial), steps);
    AdmissionParses(capacity, lifetime, initial, steps, id);
    if s.admissions[id - 1].snapshot.txdelay >= 1
       && UnpackSelectors(s.log[p].packed, s.log[p].count) == Ok(Deframer.SelectorsOf(ys)) {
      BurstDelivers(r, ys, s.admissions[id - 1], period);
    }
  }

  /** The receiver reports exactly `frame`, after at most one frame that ended
      within the first eight symbols. */
  predicate Delivers(r: Deframer.Receiver, ys: seq<Deframer.Symbol>, frame: Bytes, period: real) {
    && |ys| >= 8
    && var left := Deframer.Frames(Deframer.ReceiveAll(r, ys[..8], period).1);
       |left| <= 1 && Deframer.Frames(Deframer.ReceiveAll(r, ys, period).1) == left + [frame]
  }

  lemma BurstDelivers(r: Deframer.Receiver, ys: seq<Deframer.Symbol>, a: Admission, period: real)
    requires ValidSnapshot(a.snapshot) && a.snapshot.txdelay >= 1 && ParseFrame(a.body, false).Ok?
    requires Deframer.Bounded(r.link) && Deframer.SelectorsOf(ys) == BurstFor(a)
    requires |BurstFor(a)| <= TxDelay.MAX_SELECTORS
    ensures Delivers(r, ys, AppendFcs(a.body), period)
  {
    hide Deframer.ReceiveAll, AppendFcs, Deframer.Frames, TxDelay.BurstSelectors, Deframer.Acceptable, ParseFrame;
    TxDelay.PreambleIsTight(a.snapshot.txdelay);
    AdmittedIsAcceptable(a.body);
    FcsIsATail(a.body);
    TxDelay.BurstIsReceived(r, ys, AppendFcs(a.body), TxDelay.Resolve(a.snapshot.txdelay).value.preFlags, period);
  }

  lemma AdmissionParses(capacity: nat, lifetime: real, initial: Snapshot, steps: seq<Step>, id: int)
    requires capacity >= 1 && lifetime > 0.0 && ValidSnapshot(initial)
    ensures var s := DoAll(Begin(capacity, lifetime, initial), steps);
            1 <= id <= |s.admissions| ==> ParseFrame(s.admissions[id - 1].body, false).Ok?
  {
    hide DoAll, WorldOk, JobsOk, LogMatches, FlightOk, DispatchedOk, ParseFrame, ValidSnapshot, AppendFcs, Captured;
    assert SystemOk(Begin(capacity, lifetime, initial)) by { BeginOk(capacity, lifetime, initial); }
    EveryRunOk(Begin(capacity, lifetime, initial), steps);
  }
}
