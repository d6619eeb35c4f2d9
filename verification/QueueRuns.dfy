/** Whole runs of the admission queue: what holds after any sequence of
    enqueue and observe calls with any samples, times, randomness and
    downstream answers. */
module QueueRuns {
  import opened Primitives
  import opened Fcs
  import opened Ax25
  import opened Control
  import opened ChannelAccess
  import opened AdmissionQueue

  datatype Event =
    | Admit(body: Bytes, context: Context, now: real)
    | Sampled(now: real, raw: int, source: RandomSource, submitOk: bool)

  /** One call of the submitter; `upto` is how many samples had been accepted. */
  datatype Submission = Submission(at: real, id: int, frame: Bytes, context: Context, byte: int, deadline: real,
      upto: nat)

  /** The queue with a record of what it accepted, submitted and finished. */
  datatype World = World(q: Queue, log: seq<Sample>, submissions: seq<Submission>, finished: seq<(int, RequestState)>)

  function Start(capacity: nat, lifetime: real): World { World(NewQueue(capacity, lifetime), [], [], []) }

  /** The head request takes the sample: it is not expired and the detector
      accepts the value. */
  predicate Takes(q: Queue, now: real, raw: int) {
    && AcceptsNow(q, now) && q.pending != [] && now < q.pending[0].receipt.deadline
    && Rejected(HeadAttempt(q.pending[0], now).detector, now, raw).None?
  }

  function SampleStep(w: World, e: Event): World
    requires e.Sampled?
  {
    var (q, r) := ObserveQueue(w.q, e.now, e.raw, e.source, e.submitOk);
    var log := if Takes(w.q, e.now, e.raw) then w.log + [Sample(e.now, e.raw, w.q.pending[0].receipt.id)] else w.log;
    var called := r.Ok? && r.value.downstreamCalled && w.q.pending != [];
    var ended := r.Ok? && r.value.id.Some?
        && r.value.state in {Some(Expired), Some(Dispatched), Some(DownstreamFailed)};
    World(q, log,
          if called then w.submissions + [Submitted(w.q.pending[0], r.value, |log|)] else w.submissions,
          if ended then w.finished + [(r.value.id.value, r.value.state.value)] else w.finished)
  }

  function Submitted(head: Request, o: QueueObservation, upto: nat): Submission {
    var byte := if o.access.Some? && o.access.value.random.Some? then o.access.value.random.value else -1;
    Submission(o.now, head.receipt.id, head.frame, head.context, byte, head.receipt.deadline, upto)
  }

  function Next(w: World, e: Event): World {
    match e
    case Admit(body, context, now) => w.(q := Enqueue(w.q, body, context, now).0)
    case Sampled(_, _, _, _) => SampleStep(w, e)
  }

  function Run(w: World, es: seq<Event>): World
    decreases |es|
  {
    if es == [] then w else Run(Next(w, es[0]), es[1..])
  }

  // ---- Invariants

  function Finished(q: Queue): nat { q.dispatched + q.timedOut + q.failed }

  predicate RequestOk(q: Queue, r: Request, id: int) {
    && r.receipt.id == id
    && r.receipt.deadline == r.receipt.enqueuedAt + q.lifetime
    && 0.0 <= r.receipt.enqueuedAt <= q.lastNow
    && r.receipt.generation == r.context.parameters.generation && r.receipt.txdelay == r.context.parameters.txdelay
    && r.receipt.persist == r.context.parameters.persist && r.receipt.slottime == r.context.parameters.slottime
    && r.receipt.bytesWithFcs == |r.frame| == r.receipt.bytesNoFcs + 2
    && VerifyFcs(r.frame) && |r.frame| >= 17
  }

  /** Conservation, bounds, order and captured data of the pending requests. */
  ghost predicate QueueOk(q: Queue) {
    && q.capacity >= 1 && q.lifetime > 0.0 && q.lastNow >= 0.0
    && |q.pending| <= q.capacity
    && q.accepted == |q.pending| + Finished(q)
    && q.nextId == q.accepted + 1
    && (forall i :: 0 <= i < |q.pending| ==> RequestOk(q, q.pending[i], Finished(q) + 1 + i))
    && (forall i :: 1 <= i < |q.pending| ==> q.pending[i].attempt.None?)
    && (forall i, j :: 0 <= i <= j < |q.pending| ==> q.pending[i].receipt.deadline <= q.pending[j].receipt.deadline)
  }

  /** The head's attempt follows its captured policy and is explained by the
      samples taken for it since index `from`. */
  ghost predicate HeadOk(head: Request, log: seq<Sample>, lastNow: real, lifetime: real, from: int, i: int, j: int) {
    head.attempt.Some? ==>
      var a := head.attempt.value;
      && 0 <= from <= |log| && (forall k :: from <= k < |log| ==> log[k].id == head.receipt.id)
      && Explained(a, log[from..], i, j)
      && a.csma.state in {WaitClear, WaitSlot} && a.detector.lastNow <= lastNow
      && a.csma.parameters.persist == head.context.csma.persist
      && a.csma.parameters.slotTime10ms == head.context.csma.slotTime10ms
      && a.csma.deadline <= head.receipt.deadline
      && (head.context.csma.maxWait >= lifetime ==> a.csma.deadline == head.receipt.deadline)
  }

  ghost predicate LogOk(log: seq<Sample>, lastNow: real) {
    Chronological(log) && forall k :: 0 <= k < |log| ==> log[k].at <= lastNow
  }

  /** Samples `i` to `j` hold the clear side for the full hold; from `j` to the
      last sample before `upto` a whole slot passes; no sample in between
      asserts busy; and all were taken for request `id`. */
  ghost predicate Quiet(log: seq<Sample>, i: int, j: int, upto: int, slot: real, id: int) {
    && 0 <= i <= j < upto <= |log|
    && log[j].at - log[i].at >= HOLD && log[upto - 1].at - log[j].at >= slot
    && (forall k :: i <= k <= j ==> log[k].raw >= CLEAR_MIN)
    && (forall k :: i <= k < upto ==> log[k].raw > BUSY_MAX && log[k].id == id)
  }

  /** Why one submission was allowed. */
  ghost predicate Justified(s: Submission, log: seq<Sample>) {
    && 1 <= s.upto <= |log| && log[s.upto - 1].at == s.at && log[s.upto - 1].id == s.id
    && (exists i, j :: Quiet(log, i, j, s.upto, SlotSeconds(s.context.csma), s.id))
    && 0 <= s.byte <= s.context.csma.persist
    && s.at < s.deadline && VerifyFcs(s.frame)
  }

  ghost predicate SubmissionsOk(subs: seq<Submission>, log: seq<Sample>, finished: seq<(int, RequestState)>) {
    && (forall p :: 0 <= p < |subs| ==> Justified(subs[p], log) && 1 <= subs[p].id <= |finished|
                                        && finished[subs[p].id - 1].1 in {Dispatched, DownstreamFailed})
    && (forall p, q :: 0 <= p < q < |subs| ==> subs[p].id < subs[q].id && subs[p].upto <= subs[q].upto)
  }

  /** Requests finish in admission order, and the counters count them. */
  ghost predicate FinishedOk(q: Queue, finished: seq<(int, RequestState)>) {
    |finished| == Finished(q) && forall k :: 0 <= k < |finished| ==> finished[k].0 == k + 1
  }

  ghost predicate WorldOk(w: World) {
    && QueueOk(w.q) && LogOk(w.log, w.q.lastNow)
    && (w.q.pending != [] ==> exists from, i, j :: HeadOk(w.q.pending[0], w.log, w.q.lastNow, w.q.lifetime, from, i, j))
    && SubmissionsOk(w.submissions, w.log, w.finished) && FinishedOk(w.q, w.finished)
  }

  lemma StartOk(capacity: nat, lifetime: real)
    requires capacity >= 1 && lifetime > 0.0
    ensures WorldOk(Start(capacity, lifetime))
  {
  }

  // ---- Admission

  lemma ParsedIsLong(body: Bytes)
    requires ParseFrame(body, false).Ok?
    ensures |body| >= 15 && |AppendFcs(body)| == |body| + 2 && VerifyFcs(AppendFcs(body))
  {
    AppendedFcsVerifies(body);
  }

  lemma AdmitKeepsQueue(q: Queue, body: Bytes, context: Context, now: real)
    requires QueueOk(q)
    ensures var q' := Enqueue(q, body, context, now).0;
            && QueueOk(q') && q'.lastNow >= q.lastNow && q'.lifetime == q.lifetime && Finished(q') == Finished(q)
            && q.pending <= q'.pending && (q.pending == [] && q'.pending != [] ==> q'.pending[0].attempt.None?)
  {
    hide AppendFcs, ParseFrame, VerifyFcs;
    if ParseFrame(body, false).Ok? {
      ParsedIsLong(body);
    }
  }

  lemma AdmitOk(w: World, body: Bytes, context: Context, now: real)
    requires WorldOk(w)
    ensures WorldOk(w.(q := Enqueue(w.q, body, context, now).0))
  {
    hide QueueOk, SubmissionsOk, HeadOk;
    var q' := Enqueue(w.q, body, context, now).0;
    AdmitKeepsQueue(w.q, body, context, now);
    if w.q.pending != [] {
      var from, i, j :| HeadOk(w.q.pending[0], w.log, w.q.lastNow, w.q.lifetime, from, i, j);
      assert q'.pending[0] == w.q.pending[0];
      HeadLater(w.q.pending[0], w.log, w.q.lastNow, q'.lastNow, w.q.lifetime, from, i, j);
    } else if q'.pending != [] {
      HeadFresh(q'.pending[0], w.log, q'.lastNow, q'.lifetime);
    }
  }

  lemma HeadLater(head: Request, log: seq<Sample>, before: real, after: real, lifetime: real, from: int, i: int, j: int)
    requires HeadOk(head, log, before, lifetime, from, i, j) && before <= after
    ensures HeadOk(head, log, after, lifetime, from, i, j)
  {
    hide Explained;
  }

  lemma HeadFresh(head: Request, log: seq<Sample>, lastNow: real, lifetime: real)
    requires head.attempt.None?
    ensures HeadOk(head, log, lastNow, lifetime, 0, 0, 0)
  {
  }

  // ---- Observation of the head

  /** The attempt about to be observed is in order, new or not. */
  lemma AttemptReady(head: Request, log: seq<Sample>, lastNow: real, lifetime: real, now: real, from: int, i: int,
                     j: int)
      returns (from': int, i': int, j': int)
    requires HeadOk(head, log, lastNow, lifetime, from, i, j) && LogOk(log, lastNow)
    requires lastNow <= now < head.receipt.deadline
    requires head.receipt.deadline == head.receipt.enqueuedAt + lifetime && head.receipt.enqueuedAt <= lastNow
    ensures HeadOk(head.(attempt := Some(HeadAttempt(head, now))), log, now, lifetime, from', i', j')
  {
    hide Explained;
    from', i', j' := from, i, j;
    if head.attempt.None? {
      from', i', j' := |log|, 0, 0;
      var captured := head.context.csma;
      NewAttemptExplained(now, Parameters(captured.persist, captured.slotTime10ms,
                                          Min(captured.maxWait, head.receipt.deadline - now)));
      assert log[|log|..] == [];
    }
  }

  /** An error of the policy leaves its state alone, and a timeout needs the deadline. */
  lemma SenseKeeps(c: Csma, now: real, busy: bool, random: Option<int>)
    ensures var (c', r) := Sense(c, now, busy, random);
            && c'.parameters == c.parameters && c'.deadline == c.deadline
            && (r.Ok? || c'.state == c.state)
            && (c'.state == TimedOut && c.state != TimedOut ==> now >= c.deadline)
  {
  }

  lemma ObserveKeeps(a: Attempt, now: real, raw: int, source: RandomSource)
    ensures var (a', r) := Observe(a, now, raw, source);
            && a'.csma.parameters == a.csma.parameters && a'.csma.deadline == a.csma.deadline
            && (r.Ok? || a'.csma.state == a.csma.state)
            && (a'.csma.state == TimedOut && a.csma.state != TimedOut ==> now >= a.csma.deadline)
            && (Rejected(a.detector, now, raw).Some? ==> a' == a && r.Err?)
  {
    hide Sense, Detect;
    var d := Detect(a.detector, now, raw);
    SenseKeeps(a.csma, now, d.state != Clear, None);
    if source.Yields? {
      SenseKeeps(a.csma, now, d.state != Clear, Some(source.byte));
    }
  }

  lemma QuietIn(log: seq<Sample>, from: int, i: int, j: int, slot: real, id: int)
    requires 0 <= from <= |log| && Granted(log[from..], i, j, slot)
    requires forall k :: from <= k < |log| ==> log[k].id == id
    ensures Quiet(log, from + i, from + j, |log|, slot, id)
  {
    var h := log[from..];
    assert forall k :: 0 <= k < |h| ==> h[k] == log[from + k];
    forall k | from + i <= k < |log| ensures log[k].raw > BUSY_MAX { assert h[k - from] == log[k]; }
    forall k | from + i <= k <= from + j ensures log[k].raw >= CLEAR_MIN { assert h[k - from] == log[k]; }
  }

  /** One sample accepted by the head's attempt. */
  lemma HeadTakes(head: Request, log: seq<Sample>, lifetime: real, now: real, raw: int, source: RandomSource,
                  from: int, i: int, j: int)
      returns (i': int, j': int)
    requires head.attempt.Some? && HeadOk(head, log, now, lifetime, from, i, j)
    requires Rejected(head.attempt.value.detector, now, raw).None?
    ensures var (a, r) := Observe(head.attempt.value, now, raw, source);
            var log' := log + [Sample(now, raw, head.receipt.id)];
            && (r.Ok? ==> r.value.csma.state == a.csma.state && r.value.now == now)
            && (a.csma.state in {WaitClear, WaitSlot} ==>
                HeadOk(head.(attempt := Some(a)), log', now, lifetime, from, i', j'))
            && (a.csma.state == Ready ==>
                  && r.Ok? && r.value.random.Some? && 0 <= r.value.random.value <= head.context.csma.persist
                  && Quiet(log', from + i', from + j', |log'|, SlotSeconds(head.context.csma), head.receipt.id))
  {
    hide Explained, Granted, Quiet, Observe, Rejected;
    var a := head.attempt.value;
    var h := log[from..];
    var log' := log + [Sample(now, raw, head.receipt.id)];
    i', j' := ObserveExplained(a, h, i, j, now, raw, source, head.receipt.id);
    assert log'[from..] == h + [Sample(now, raw, head.receipt.id)];
    ObserveKeeps(a, now, raw, source);
    DecisionMirrors(Observe(a, now, raw, source).0, log'[from..], i', j');
    if Observe(a, now, raw, source).0.csma.state == Ready {
      QuietIn(log', from, i', j', SlotSeconds(head.context.csma), head.receipt.id);
    }
  }

  lemma DecisionMirrors(a: Attempt, h: seq<Sample>, i: int, j: int)
    requires Explained(a, h, i, j)
    ensures a.csma.decision.state == a.csma.state
  {
  }

  // ---- Effects on the queue alone

  lemma PopKeeps(q: Queue, q1: Queue, state: RequestState)
    requires QueueOk(q) && q.pending != [] && q1.pending == q.pending[1..]
    requires q1 == q.(pending := q1.pending, dispatched := q1.dispatched, timedOut := q1.timedOut, failed := q1.failed)
    requires Finished(q1) == Finished(q) + 1
    ensures QueueOk(q1) && (q1.pending != [] ==> q1.pending[0].attempt.None?)
  {
    hide RequestOk;
    forall i | 0 <= i < |q1.pending| ensures RequestOk(q1, q1.pending[i], Finished(q1) + 1 + i) {
      assert q1.pending[i] == q.pending[i + 1];
      RequestMoves(q, q1, q.pending[i + 1], Finished(q) + 1 + (i + 1));
    }
  }

  lemma RequestMoves(q: Queue, q1: Queue, r: Request, id: int)
    requires RequestOk(q, r, id) && q1.lifetime == q.lifetime && q.lastNow <= q1.lastNow
    ensures RequestOk(q1, r, id) && forall a :: RequestOk(q1, r.(attempt := a), id)
  {
  }

  lemma TickKeeps(q: Queue, now: real)
    requires QueueOk(q) && q.lastNow <= now
    ensures QueueOk(q.(lastNow := now))
  {
    hide RequestOk;
    forall i | 0 <= i < |q.pending| ensures RequestOk(q.(lastNow := now), q.pending[i], Finished(q) + 1 + i) {
      RequestMoves(q, q.(lastNow := now), q.pending[i], Finished(q) + 1 + i);
    }
  }

  lemma ReattemptKeeps(q: Queue, a: Attempt)
    requires QueueOk(q) && q.pending != []
    ensures QueueOk(q.(pending := q.pending[0 := q.pending[0].(attempt := Some(a))]))
  {
    hide RequestOk;
    var q1 := q.(pending := q.pending[0 := q.pending[0].(attempt := Some(a))]);
    forall i | 0 <= i < |q1.pending| ensures RequestOk(q1, q1.pending[i], Finished(q1) + 1 + i) {
      RequestMoves(q, q1, q.pending[i], Finished(q) + 1 + i);
    }
  }

  lemma HeadFacts(q: Queue)
    requires QueueOk(q) && q.pending != []
    ensures var r := q.pending[0];
            && r.receipt.id == Finished(q) + 1 && VerifyFcs(r.frame)
            && r.receipt.deadline == r.receipt.enqueuedAt + q.lifetime && r.receipt.enqueuedAt <= q.lastNow
  {
    assert RequestOk(q, q.pending[0], Finished(q) + 1 + 0);
  }

  // ---- Submissions

  lemma JustifiedLater(s: Submission, log: seq<Sample>, more: Sample)
    requires Justified(s, log)
    ensures Justified(s, log + [more])
  {
    hide VerifyFcs, Quiet;
    var i, j :| Quiet(log, i, j, s.upto, SlotSeconds(s.context.csma), s.id);
    QuietLater(log, i, j, s.upto, SlotSeconds(s.context.csma), s.id, more);
  }

  lemma QuietLater(log: seq<Sample>, i: int, j: int, upto: int, slot: real, id: int, more: Sample)
    requires Quiet(log, i, j, upto, slot, id)
    ensures Quiet(log + [more], i, j, upto, slot, id)
  {
  }

  lemma SubmissionsLater(subs: seq<Submission>, log: seq<Sample>, log': seq<Sample>,
                         finished: seq<(int, RequestState)>, finished': seq<(int, RequestState)>)
    requires SubmissionsOk(subs, log, finished) && finished <= finished'
    requires log' == log || (|log'| == |log| + 1 && log' == log + [log'[|log|]])
    ensures SubmissionsOk(subs, log', finished')
  {
    hide Justified;
    forall p | 0 <= p < |subs| ensures Justified(subs[p], log') {
      if log' != log { JustifiedLater(subs[p], log, log'[|log|]); }
    }
  }

  lemma SubmissionsAdd(subs: seq<Submission>, log: seq<Sample>, finished: seq<(int, RequestState)>, s: Submission,
                       state: RequestState)
    requires SubmissionsOk(subs, log, finished) && Justified(s, log)
    requires s.id == |finished| + 1 && s.upto == |log| && state in {Dispatched, DownstreamFailed}
    ensures SubmissionsOk(subs + [s], log, finished + [(s.id, state)])
  {
    hide VerifyFcs, Quiet;
  }

  lemma LogGrows(log: seq<Sample>, lastNow: real, s: Sample)
    requires LogOk(log, lastNow) && lastNow <= s.at
    ensures LogOk(log + [s], s.at) && LogOk(log, s.at)
  {
  }

  // ---- Every step

  lemma IdleOk(w: World, e: Event)
    requires WorldOk(w) && e.Sampled? && (!AcceptsNow(w.q, e.now) || w.q.pending == [])
    ensures WorldOk(SampleStep(w, e))
  {
    hide QueueOk, SubmissionsOk, HeadOk, LogOk, ObserveHead;
    if AcceptsNow(w.q, e.now) {
      TickKeeps(w.q, e.now);
      LogGrows(w.log, w.q.lastNow, Sample(e.now, 0, 0));
    }
  }

  lemma ExpireOk(w: World, e: Event)
    requires WorldOk(w) && e.Sampled? && AcceptsNow(w.q, e.now)
    requires w.q.pending != [] && e.now >= w.q.pending[0].receipt.deadline
    ensures WorldOk(SampleStep(w, e))
  {
    hide QueueOk, SubmissionsOk, HeadOk, LogOk, ObserveHead;
    var w' := SampleStep(w, e);
    TickKeeps(w.q, e.now);
    HeadFacts(w.q);
    PopKeeps(w.q.(lastNow := e.now), w'.q, Expired);
    LogGrows(w.log, w.q.lastNow, Sample(e.now, 0, 0));
    SubmissionsLater(w.submissions, w.log, w.log, w.finished, w'.finished);
    if w'.q.pending != [] { HeadFresh(w'.q.pending[0], w'.log, e.now, w'.q.lifetime); }
  }

  /** The queue with its clock advanced and the head's attempt in place. */
  function Prepared(q: Queue, now: real): Queue
    requires q.pending != [] && now < q.pending[0].receipt.deadline
  {
    q.(lastNow := now, pending := q.pending[0 := q.pending[0].(attempt := Some(HeadAttempt(q.pending[0], now)))])
  }

  lemma PreparedOk(w: World, now: real) returns (from: int, i: int, j: int)
    requires WorldOk(w) && AcceptsNow(w.q, now) && w.q.pending != [] && now < w.q.pending[0].receipt.deadline
    ensures QueueOk(Prepared(w.q, now)) && LogOk(w.log, now)
    ensures HeadOk(Prepared(w.q, now).pending[0], w.log, now, w.q.lifetime, from, i, j)
  {
    hide QueueOk, SubmissionsOk, HeadOk, LogOk, HeadAttempt;
    from, i, j :| HeadOk(w.q.pending[0], w.log, w.q.lastNow, w.q.lifetime, from, i, j);
    HeadFacts(w.q);
    from, i, j := AttemptReady(w.q.pending[0], w.log, w.q.lastNow, w.q.lifetime, now, from, i, j);
    TickKeeps(w.q, now);
    ReattemptKeeps(w.q.(lastNow := now), HeadAttempt(w.q.pending[0], now));
    LogGrows(w.log, w.q.lastNow, Sample(now, 0, 0));
  }

  /** The world after the head's attempt answered `r`. */
  function Concluded(w: World, q: Queue, r: Result<Observation, AccessError>, log: seq<Sample>, now: real,
                     submitOk: bool): World
    requires q.pending != []
  {
    if r.Err? then w.(q := q, log := log) else
      var head := q.pending[0];
      var (q', o) := Conclude(q, now, r.value, submitOk);
      World(q', log,
            if o.downstreamCalled then w.submissions + [Submitted(head, o, |log|)] else w.submissions,
            if o.state == Some(Access) then w.finished else w.finished + [(head.receipt.id, o.state.value)])
  }

  function Reattempted(q: Queue, a: Attempt): Queue
    requires q.pending != []
  {
    q.(pending := q.pending[0 := q.pending[0].(attempt := Some(a))])
  }

  function Logged(w: World, head: Request, now: real, raw: int): seq<Sample>
    requires head.attempt.Some?
  {
    if Rejected(head.attempt.value.detector, now, raw).None? then w.log + [Sample(now, raw, head.receipt.id)] else w.log
  }

  lemma PreparedShape(q: Queue, now: real)
    requires q.pending != [] && now < q.pending[0].receipt.deadline
    ensures var p := Prepared(q, now);
            && p.pending != [] && p.pending[0] == q.pending[0].(attempt := Some(HeadAttempt(q.pending[0], now)))
            && p.lastNow == now && p.lifetime == q.lifetime && Finished(p) == Finished(q)
            && forall a :: Reattempted(p, a) == Reattempted(q.(lastNow := now), a)
  {
    hide HeadAttempt;
    forall a ensures Reattempted(Prepared(q, now), a) == Reattempted(q.(lastNow := now), a) {
      assert Reattempted(Prepared(q, now), a).pending == Reattempted(q, a).pending;
    }
  }

  /** The step of an unexpired head, in terms of the prepared queue. */
  lemma StepUnfolded(w: World, e: Event)
    requires e.Sampled? && AcceptsNow(w.q, e.now) && w.q.pending != [] && e.now < w.q.pending[0].receipt.deadline
    ensures Prepared(w.q, e.now).pending != [] && Prepared(w.q, e.now).pending[0].attempt.Some?
    ensures var q := Prepared(w.q, e.now);
            var (a, r) := Observe(q.pending[0].attempt.value, e.now, e.raw, e.source);
            SampleStep(w, e) ==
              Concluded(w, Reattempted(q, a), r, Logged(w, q.pending[0], e.now, e.raw), e.now, e.submitOk)
  {
    hide Observe, HeadAttempt, Rejected, Prepared;
    PreparedShape(w.q, e.now);
    var attempt := HeadAttempt(w.q.pending[0], e.now);
    var (a, r) := Observe(attempt, e.now, e.raw, e.source);
    ObserveKeeps(attempt, e.now, e.raw, e.source);
    assert Reattempted(Prepared(w.q, e.now), a) == Reattempted(w.q.(lastNow := e.now), a);
  }

  lemma ObserveOk(w: World, e: Event)
    requires WorldOk(w) && e.Sampled? && AcceptsNow(w.q, e.now)
    requires w.q.pending != [] && e.now < w.q.pending[0].receipt.deadline
    ensures WorldOk(SampleStep(w, e))
  {
    hide QueueOk, SubmissionsOk, HeadOk, LogOk, HeadAttempt, Observe, SampleStep, Rejected, Prepared;
    var from, i, j := PreparedOk(w, e.now);
    StepUnfolded(w, e);
    PreparedShape(w.q, e.now);
    var q := Prepared(w.q, e.now);
    var head := q.pending[0];
    var (a, r) := Observe(head.attempt.value, e.now, e.raw, e.source);
    ObserveKeeps(head.attempt.value, e.now, e.raw, e.source);
    ReattemptKeeps(q, a);
    var q1 := Reattempted(q, a);
    if Rejected(head.attempt.value.detector, e.now, e.raw).Some? {
      assert q1.pending[0] == head;
      assert HeadOk(q1.pending[0], w.log, e.now, w.q.lifetime, from, i, j);
    } else {
      var s := Sample(e.now, e.raw, head.receipt.id);
      var i', j' := HeadTakes(head, w.log, w.q.lifetime, e.now, e.raw, e.source, from, i, j);
      LogGrows(w.log, e.now, s);
      HeadStates(head, w.log, e.now, w.q.lifetime, from, i, j);
      ConcludeOk(w, q1, r, w.log + [s], e.now, e.submitOk, from, i', j');
    }
  }

  lemma HeadStates(head: Request, log: seq<Sample>, lastNow: real, lifetime: real, from: int, i: int, j: int)
    requires head.attempt.Some? && HeadOk(head, log, lastNow, lifetime, from, i, j)
    ensures head.attempt.value.csma.state in {WaitClear, WaitSlot}
  {
  }

  lemma ConcludeOk(w: World, q: Queue, r: Result<Observation, AccessError>, log: seq<Sample>, now: real, submitOk: bool,
                   from: int, i: int, j: int)
    requires QueueOk(q) && q.pending != [] && q.lastNow == now && Finished(q) == Finished(w.q) && LogOk(log, now)
    requires SubmissionsOk(w.submissions, w.log, w.finished) && FinishedOk(w.q, w.finished)
    requires now < q.pending[0].receipt.deadline && q.pending[0].attempt.Some?
    requires |log| >= 1 && log == w.log + [Sample(now, log[|log| - 1].raw, q.pending[0].receipt.id)]
    requires var state := q.pending[0].attempt.value.csma.state;
             && (r.Ok? ==> r.value.csma.state == state && r.value.now == now)
             && (r.Err? || state in {WaitClear, WaitSlot} ==> HeadOk(q.pending[0], log, now, q.lifetime, from, i, j))
             && (state == Ready ==>
                   && r.Ok? && r.value.random.Some? && 0 <= r.value.random.value <= q.pending[0].context.csma.persist
                   && Quiet(log, from + i, from + j, |log|, SlotSeconds(q.pending[0].context.csma),
                       q.pending[0].receipt.id))
    ensures WorldOk(Concluded(w, q, r, log, now, submitOk))
  {
    hide QueueOk, SubmissionsOk, HeadOk, LogOk, Quiet, VerifyFcs;
    var head := q.pending[0];
    HeadFacts(q);
    var w' := Concluded(w, q, r, log, now, submitOk);
    if w'.q.pending == q.pending {
      SubmissionsLater(w.submissions, w.log, log, w.finished, w.finished);
    } else {
      PopKeeps(q, w'.q, w'.finished[|w.finished|].1);
      if w'.q.pending != [] { HeadFresh(w'.q.pending[0], log, now, q.lifetime); }
      SubmissionsLater(w.submissions, w.log, log, w.finished, w'.finished);
      if r.value.csma.state == Ready {
        SubmissionsLater(w.submissions, w.log, log, w.finished, w.finished);
        SubmissionsAdd(w.submissions, log, w.finished, w'.submissions[|w.submissions|], w'.finished[|w.finished|].1);
      }
    }
  }

  lemma NextOk(w: World, e: Event)
    requires WorldOk(w)
    ensures WorldOk(Next(w, e))
  {
    hide WorldOk, SampleStep;
    match e
    case Admit(body, context, now) => AdmitOk(w, body, context, now);
    case Sampled(now, _, _, _) =>
      if !AcceptsNow(w.q, now) || w.q.pending == [] {
        IdleOk(w, e);
      } else if now >= w.q.pending[0].receipt.deadline {
        ExpireOk(w, e);
      } else {
        ObserveOk(w, e);
      }
  }

  /** The invariant holds after every run. */
  lemma {:induction false} EveryRunOk(w: World, es: seq<Event>)
    requires WorldOk(w)
    ensures WorldOk(Run(w, es))
    decreases |es|
  {
    hide WorldOk, Next;
    if es != [] {
      NextOk(w, es[0]);
      EveryRunOk(Next(w, es[0]), es[1..]);
    }
  }

  // ---- What the invariant means

  /** Dispatch safety: whenever the submitter was called, some sample `i` of
      that very request began a full hold on the clear side, a whole slot
      followed it, nothing since sample `i` asserted busy, the persistence
      trial was within the captured parameter, and the deadline had not come. */
  lemma DispatchSafety(capacity: nat, lifetime: real, es: seq<Event>, p: nat) returns (i: int, j: int)
    requires capacity >= 1 && lifetime > 0.0 && p < |Run(Start(capacity, lifetime), es).submissions|
    ensures var w := Run(Start(capacity, lifetime), es);
            var s := w.submissions[p];
            && Quiet(w.log, i, j, s.upto, SlotSeconds(s.context.csma), s.id)
            && w.log[s.upto - 1].at == s.at
            && w.log[i].at <= s.at - HOLD - SlotSeconds(s.context.csma)
            && 0 <= s.byte <= s.context.csma.persist && s.at < s.deadline && VerifyFcs(s.frame)
  {
    hide Run, VerifyFcs;
    StartOk(capacity, lifetime);
    EveryRunOk(Start(capacity, lifetime), es);
    var w := Run(Start(capacity, lifetime), es);
    var s := w.submissions[p];
    assert Justified(s, w.log);
    i, j :| Quiet(w.log, i, j, s.upto, SlotSeconds(s.context.csma), s.id);
  }

  /** Two calls of the submitter are at least the hold plus the later request's
      slot apart. */
  lemma SubmissionsAreApart(capacity: nat, lifetime: real, es: seq<Event>, p: nat, q: nat)
    requires capacity >= 1 && lifetime > 0.0 && p < q < |Run(Start(capacity, lifetime), es).submissions|
    ensures var subs := Run(Start(capacity, lifetime), es).submissions;
            subs[q].at >= subs[p].at + HOLD + SlotSeconds(subs[q].context.csma) && subs[p].id < subs[q].id
  {
    hide Run, VerifyFcs, QueueOk, HeadOk;
    StartOk(capacity, lifetime);
    EveryRunOk(Start(capacity, lifetime), es);
    var w := Run(Start(capacity, lifetime), es);
    var early, late := w.submissions[p], w.submissions[q];
    var i, j := DispatchSafety(capacity, lifetime, es, q);
    assert Justified(early, w.log);
    assert w.log[early.upto - 1].at == early.at && w.log[early.upto - 1].id == early.id;
    assert early.upto <= late.upto;
    assert early.upto - 1 < i;
    assert w.log[early.upto - 1].at <= w.log[i].at;
  }

  /** Conservation and order over every run: each accepted request is pending
      or finished exactly once, the queue is bounded, pending identifiers are
      consecutive with non-decreasing deadlines, and requests finish in the
      order in which they were admitted. */
  lemma RunConservation(capacity: nat, lifetime: real, es: seq<Event>)
    requires capacity >= 1 && lifetime > 0.0
    ensures var w := Run(Start(capacity, lifetime), es);
            var q := w.q;
            && q.accepted == |q.pending| + q.dispatched + q.timedOut + q.failed && |q.pending| <= q.capacity
            && q.nextId == q.accepted + 1
            && (forall i :: 0 <= i < |q.pending| ==> q.pending[i].receipt.id == q.nextId - |q.pending| + i)
            && (forall i, j :: 0 <= i <= j < |q.pending| ==>
                q.pending[i].receipt.deadline <= q.pending[j].receipt.deadline)
            && (forall k :: 0 <= k < |w.finished| ==> w.finished[k].0 == k + 1)
            && |w.finished| == q.dispatched + q.timedOut + q.failed
  {
    hide Run, VerifyFcs, HeadOk, SubmissionsOk, LogOk;
    StartOk(capacity, lifetime);
    EveryRunOk(Start(capacity, lifetime), es);
    var q := Run(Start(capacity, lifetime), es).q;
    forall i | 0 <= i < |q.pending| ensures q.pending[i].receipt.id == Finished(q) + 1 + i {
      assert RequestOk(q, q.pending[i], Finished(q) + 1 + i);
    }
  }

  /** The policy's own timeout can end a request only if the captured bound is
      shorter than the queue's lifetime. */
  lemma InnerTimeoutNeedsShortBound(w: World, e: Event)
    requires WorldOk(w) && e.Sampled?
    ensures var r := ObserveQueue(w.q, e.now, e.raw, e.source, e.submitOk).1;
            r.Ok? && r.value.state == Some(Expired) && r.value.access.Some? ==>
              w.q.pending != [] && w.q.pending[0].context.csma.maxWait < w.q.lifetime
  {
    hide QueueOk, SubmissionsOk, LogOk, Observe, HeadAttempt;
    if AcceptsNow(w.q, e.now) && w.q.pending != [] && e.now < w.q.pending[0].receipt.deadline {
      var from, i, j := PreparedOk(w, e.now);
      var head := Prepared(w.q, e.now).pending[0];
      var a := head.attempt.value;
      ObserveKeeps(a, e.now, e.raw, e.source);
      if Rejected(a.detector, e.now, e.raw).None? {
        var i', j' := HeadTakes(head, w.log, w.q.lifetime, e.now, e.raw, e.source, from, i, j);
      }
    }
  }

  lemma RunTwo(w: World, es: seq<Event>)
    requires |es| == 2
    ensures Run(w, es) == Next(Next(w, es[0]), es[1])
  {
    hide Next;
    var w1, rest := Next(w, es[0]), es[1..];
    assert Run(w1, rest) == Run(Next(w1, rest[0]), rest[1..]);
    assert Run(Next(w1, es[1]), []) == Next(w1, es[1]);
  }

  /** And then it does: with a shorter bound, a channel that stays busy ends the
      request by the policy's timeout, before the queue's own deadline. */
  lemma ShortBoundTimesOut(lifetime: real, body: Bytes, context: Context)
    requires 0.0 < context.csma.maxWait < lifetime
    ensures ParseFrame(body, false).Ok? ==>
            var first := Run(Start(1, lifetime), [Admit(body, context, 0.0), Sampled(0.0, 0, NoSource, true)]);
            var r := ObserveQueue(first.q, context.csma.maxWait, 0, NoSource, true).1;
            first.q.pending != [] && context.csma.maxWait < first.q.pending[0].receipt.deadline
            && r.Ok? && r.value.state == Some(Expired) && r.value.access.Some?
  {
    hide AppendFcs, ParseFrame;
    var es := [Admit(body, context, 0.0), Sampled(0.0, 0, NoSource, true)];
    var w1 := Next(Start(1, lifetime), es[0]);
    var w2 := Next(w1, es[1]);
    assert Run(Start(1, lifetime), es) == w2 by { RunTwo(Start(1, lifetime), es); }
    if ParseFrame(body, false).Ok? {
      var head := w1.q.pending[0];
      var a := HeadAttempt(head, 0.0);
      var a' := Observe(a, 0.0, 0, NoSource).0;
      assert a'.csma.deadline == context.csma.maxWait && a'.csma.state == WaitClear && a'.detector.lastNow == 0.0;
      assert w2.q.pending[0] == head.(attempt := Some(a'));
    }
  }
}
