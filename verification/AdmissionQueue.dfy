/** The bounded KISS DATA queue: admission with a captured context, channel
    access for the head request only, and one submission per request.  Results
    range over every run of enqueue and observe calls. */
module AdmissionQueue {
  import opened Primitives
  import opened Fcs
  import opened Ax25
  import opened Control
  import opened ChannelAccess

  datatype RequestState = Queued | Access | Dispatched | Expired | DownstreamFailed

  datatype Receipt = Receipt(id: int, bytesNoFcs: nat, bytesWithFcs: nat, generation: nat, txdelay: int,
                             persist: int, slottime: int, enqueuedAt: real, deadline: real)

  datatype Request = Request(receipt: Receipt, frame: Bytes, context: Context, attempt: Option<Attempt>)

  datatype Queue = Queue(capacity: nat, lifetime: real, pending: seq<Request>, nextId: int, lastNow: real,
                         accepted: nat, invalid: nat, full: nat, dispatched: nat, timedOut: nat, failed: nat)

  datatype QueueError = TimeError | FrameRejected | QueueFull | AccessFailed(error: AccessError)

  datatype QueueObservation = QueueObservation(now: real, id: Option<int>, state: Option<RequestState>,
                                               generation: Option<nat>, access: Option<Observation>,
                                               downstreamCalled: bool, downstreamOk: bool)

  function NewQueue(capacity: nat, lifetime: real): Queue {
    Queue(capacity, lifetime, [], 1, 0.0, 0, 0, 0, 0, 0, 0)
  }

  predicate AcceptsNow(q: Queue, now: real) { now >= 0.0 && now >= q.lastNow }

  // ---- Specification of the two operations

  function MakeRequest(q: Queue, body: Bytes, context: Context, now: real): Request {
    var frame := AppendFcs(body);
    var p := context.parameters;
    Request(Receipt(q.nextId, |body|, |frame|, p.generation, p.txdelay, p.persist, p.slottime, now, now + q.lifetime),
            frame, context, None)
  }

  function Enqueue(q: Queue, body: Bytes, context: Context, now: real): (Queue, Result<Receipt, QueueError>) {
    if !AcceptsNow(q, now) then (q, Err(TimeError)) else
      var q := q.(lastNow := now);
      if ParseFrame(body, false).Err? then (q.(invalid := q.invalid + 1), Err(FrameRejected))
      else if |q.pending| >= q.capacity then (q.(full := q.full + 1), Err(QueueFull))
      else
        var request := MakeRequest(q, body, context, now);
        (q.(nextId := q.nextId + 1, pending := q.pending + [request], accepted := q.accepted + 1), Ok(request.receipt))
  }

  /** An admission is refused for its time, then for its body, then for want of
      room, with one counter each; otherwise the request goes to the end with
      the check sequence appended and a receipt of what was captured for it. */
  lemma EnqueueAnswers(q: Queue, body: Bytes, context: Context, now: real)
    ensures var (q', r) := Enqueue(q, body, context, now);
            var timely, parses := now >= 0.0 && now >= q.lastNow, ParseFrame(body, false).Ok?;
            && (r == Err(TimeError) <==> !timely) && (r == Err(FrameRejected) <==> timely && !parses)
            && (r == Err(QueueFull) <==> timely && parses && |q.pending| >= q.capacity)
            && (r.Ok? <==> timely && parses && |q.pending| < q.capacity)
            && q'.invalid == q.invalid + (if r == Err(FrameRejected) then 1 else 0)
            && q'.full == q.full + (if r == Err(QueueFull) then 1 else 0)
            && q'.accepted == q.accepted + (if r.Ok? then 1 else 0)
            && (r.Err? ==> q'.pending == q.pending && q'.nextId == q.nextId)
            && (r.Ok? ==>
                  && q'.pending == q.pending + [Request(r.value, AppendFcs(body), context, None)]
                  && r.value.id == q.nextId && q'.nextId == q.nextId + 1
                  && r.value.bytesNoFcs == |body| && r.value.bytesWithFcs == |body| + 2
                  && r.value.generation == context.parameters.generation
                  && r.value.txdelay == context.parameters.txdelay && r.value.persist == context.parameters.persist
                  && r.value.slottime == context.parameters.slottime
                  && r.value.enqueuedAt == now && r.value.deadline == now + q.lifetime)
  {
    hide ParseFrame, AppendFcs;
    FcsIsATail(body);
  }

  function Min(a: real, b: real): real { if a <= b then a else b }

  /** The head's channel-access attempt, created when it is first observed. */
  function HeadAttempt(head: Request, now: real): Attempt
    requires now < head.receipt.deadline
  {
    match head.attempt
    case Some(a) => a
    case None =>
      var captured := head.context.csma;
      NewAttempt(now, Parameters(captured.persist, captured.slotTime10ms,
                                 Min(captured.maxWait, head.receipt.deadline - now)))
  }

  function Popped(q: Queue): Queue
    requires q.pending != []
  {
    q.(pending := q.pending[1..])
  }

  function Terminal(now: real, head: Request, state: RequestState, access: Option<Observation>, called: bool,
                    ok: bool): QueueObservation {
    QueueObservation(now, Some(head.receipt.id), Some(state), Some(head.receipt.generation), access, called, ok)
  }

  /** What follows from the access decision for the head; `submitOk` is what the
      submitter would answer if called. */
  function Conclude(q: Queue, now: real, access: Observation, submitOk: bool): (Queue, QueueObservation)
    requires q.pending != []
  {
    var head := q.pending[0];
    match access.csma.state
    case TimedOut => (Popped(q).(timedOut := q.timedOut + 1), Terminal(now, head, Expired, Some(access), false, false))
    case Ready =>
      if submitOk
      then (Popped(q).(dispatched := q.dispatched + 1), Terminal(now, head, Dispatched, Some(access), true, true))
      else (Popped(q).(failed := q.failed + 1), Terminal(now, head, DownstreamFailed, Some(access), true, false))
    case _ => (q, Terminal(now, head, Access, Some(access), false, false))
  }

  /** One observation of an unexpired head. */
  function ObserveHead(q: Queue, now: real, raw: int, source: RandomSource,
                       submitOk: bool): (Queue, Result<QueueObservation, QueueError>)
    requires q.pending != [] && now < q.pending[0].receipt.deadline
  {
    var head := q.pending[0];
    var (attempt, r) := Observe(HeadAttempt(head, now), now, raw, source);
    var q1 := q.(pending := q.pending[0 := head.(attempt := Some(attempt))]);
    match r
    case Err(e) => (q1, Err(AccessFailed(e)))
    case Ok(access) =>
      var (q2, o) := Conclude(q1, now, access, submitOk);
      (q2, Ok(o))
  }

  function ObserveQueue(q: Queue, now: real, raw: int, source: RandomSource,
                        submitOk: bool): (Queue, Result<QueueObservation, QueueError>) {
    if !AcceptsNow(q, now) then (q, Err(TimeError)) else
      var q := q.(lastNow := now);
      if q.pending == [] then (q, Ok(QueueObservation(now, None, None, None, None, false, false)))
      else if now >= q.pending[0].receipt.deadline then
        (Popped(q).(timedOut := q.timedOut + 1), Ok(Terminal(now, q.pending[0], Expired, None, false, false)))
      else ObserveHead(q, now, raw, source, submitOk)
  }

  // ---- What one observation does to the queue

  /** The request the observation was about has left the queue. */
  predicate Ended(r: Result<QueueObservation, QueueError>) {
    r.Ok? && r.value.state in {Some(Expired), Some(Dispatched), Some(DownstreamFailed)}
  }

  /** The same request, however far its channel access has come. */
  predicate SameRequest(a: Request, b: Request) {
    a.receipt == b.receipt && a.context == b.context && a.frame == b.frame
  }

  predicate SameRequests(a: seq<Request>, b: seq<Request>) {
    |a| == |b| && forall i :: 0 <= i < |a| ==> SameRequest(a[i], b[i])
  }

  /** From `q` to `q'` with answer `r`, every request was kept or the head was
      ended: as dispatched or failed exactly when the submitter was called. */
  predicate Moves(q: Queue, q': Queue, r: Result<QueueObservation, QueueError>, ok: bool) {
    && q'.accepted == q.accepted && q'.invalid == q.invalid && q'.full == q.full
    && q'.lifetime == q.lifetime && q'.nextId == q.nextId && q'.capacity == q.capacity
    && q'.timedOut == q.timedOut + (if Ended(r) && r.value.state == Some(Expired) then 1 else 0)
    && q'.dispatched == q.dispatched + (if Ended(r) && r.value.state == Some(Dispatched) then 1 else 0)
    && q'.failed == q.failed + (if Ended(r) && r.value.state == Some(DownstreamFailed) then 1 else 0)
    && (r.Ok? ==> if q.pending == [] then r.value.id.None? && r.value.generation.None?
                  else r.value.id == Some(q.pending[0].receipt.id)
                       && r.value.generation == Some(q.pending[0].receipt.generation))
    && (Ended(r) ==>
          && q.pending != [] && SameRequests(q'.pending, q.pending[1..])
          && r.value.downstreamCalled == (r.value.state != Some(Expired))
          && (r.value.downstreamCalled ==> ok == (r.value.state == Some(Dispatched))))
    && (!Ended(r) ==>
          && SameRequests(q'.pending, q.pending)
          && (r.Ok? ==> !r.value.downstreamCalled && r.value.state in {None, Some(Access)}))
  }

  lemma ConcludeMoves(q: Queue, attempt: Attempt, now: real, access: Observation, ok: bool)
    requires q.pending != []
    ensures var q1 := q.(pending := q.pending[0 := q.pending[0].(attempt := Some(attempt))]);
            var (q2, o) := Conclude(q1, now, access, ok);
            Moves(q, q2, Ok(o), ok)
  {
  }

  lemma ReattemptMoves(q: Queue, attempt: Attempt, e: QueueError, ok: bool)
    requires q.pending != []
    ensures Moves(q, q.(pending := q.pending[0 := q.pending[0].(attempt := Some(attempt))]), Err(e), ok)
  {
  }

  /** Every observation is such a move. */
  lemma ObserveShape(q: Queue, now: real, raw: int, source: RandomSource, ok: bool)
    ensures var (q', r) := ObserveQueue(q, now, raw, source, ok); Moves(q, q', r, ok)
  {
    hide Observe, HeadAttempt, Conclude, Moves;
    var q1 := q.(lastNow := now);
    if AcceptsNow(q, now) && q.pending != [] && now < q.pending[0].receipt.deadline {
      var (attempt, r) := Observe(HeadAttempt(q1.pending[0], now), now, raw, source);
      match r {
        case Err(e) => ReattemptMoves(q1, attempt, AccessFailed(e), ok);
        case Ok(access) => ConcludeMoves(q1, attempt, now, access, ok);
      }
      var (q', answer) := ObserveHead(q1, now, raw, source, ok);
      MovesFromTick(q, q', now, answer, ok);
    } else {
      UnattemptedMoves(q, now, raw, source, ok);
    }
  }

  /** When an observation is refused or the head has outlived its deadline, and
      what time the answer carries. */
  lemma ObserveAnswers(q: Queue, now: real, raw: int, source: RandomSource, ok: bool)
    ensures var (q', r) := ObserveQueue(q, now, raw, source, ok);
            && (r == Err(TimeError) <==> now < 0.0 || now < q.lastNow)
            && (if r == Err(TimeError) then q' == q else q'.lastNow == now)
            && (r.Ok? ==> r.value.now == now && (r.value.state.None? <==> q.pending == []))
            && (r.Ok? && q.pending != [] ==> (r.value.access.None? <==> now >= q.pending[0].receipt.deadline))
            && (r.Ok? && q.pending != [] && now >= q.pending[0].receipt.deadline ==> r.value.state == Some(Expired))
  {
    hide Observe, HeadAttempt;
  }

  lemma MovesFromTick(q: Queue, q': Queue, now: real, r: Result<QueueObservation, QueueError>, ok: bool)
    requires Moves(q.(lastNow := now), q', r, ok)
    ensures Moves(q, q', r, ok)
  {
  }

  lemma UnattemptedMoves(q: Queue, now: real, raw: int, source: RandomSource, ok: bool)
    requires !AcceptsNow(q, now) || q.pending == [] || now >= q.pending[0].receipt.deadline
    ensures var (q', r) := ObserveQueue(q, now, raw, source, ok); Moves(q, q', r, ok)
  {
    hide ObserveHead;
  }

  // ---- The queue object

  /** The injected downstream boundary: it may accept or fail, as it likes. */
  class Submitter {
    var calls: seq<(Bytes, Context)>

    constructor ()
      ensures calls == []
    {
      calls := [];
    }

    method SubmitFrame(frame: Bytes, context: Context) returns (ok: bool)
      modifies this
      ensures calls == old(calls) + [(frame, context)]
    {
      calls := calls + [(frame, context)];
      ok := *;
    }
  }

  datatype Slot = Slot(receipt: Receipt, frame: Bytes, context: Context, attempt: ShadowChannelAccessAttempt?)

  class KISSDataAdmissionQueue {
    const submitter: Submitter
    const capacity: nat
    const lifetime: real
    var pending: seq<Slot>
    var nextId: int
    var lastNow: real
    var accepted: nat
    var invalid: nat
    var full: nat
    var dispatched: nat
    var timedOut: nat
    var failed: nat

    ghost function HeadParts(): set<object>
      reads this, if pending != [] && pending[0].attempt != null then {pending[0].attempt} else {}
    {
      if pending != [] && pending[0].attempt != null
      then {pending[0].attempt, pending[0].attempt.detector, pending[0].attempt.csma} else {}
    }

    /** Only the head has an attempt, and it shares nothing with the rest. */
    ghost predicate Valid()
      reads this, HeadParts()
    {
      && capacity >= 1 && lifetime > 0.0
      && (forall i :: 1 <= i < |pending| ==> pending[i].attempt == null)
      && this !in HeadParts() && submitter !in HeadParts() && (this as object) != submitter
    }

    ghost function ViewOf(s: Slot): Request
      reads if s.attempt != null then {s.attempt, s.attempt.detector, s.attempt.csma} else {}
    {
      Request(s.receipt, s.frame, s.context, if s.attempt == null then None else Some(s.attempt.View()))
    }

    ghost function Waiting(s: Slot): Request {
      Request(s.receipt, s.frame, s.context, None)
    }

    ghost function ViewPending(): seq<Request>
      reads this, HeadParts()
    {
      seq(|pending|, i requires 0 <= i < |pending| reads this, HeadParts() =>
        if i == 0 then ViewOf(pending[0]) else Waiting(pending[i]))
    }

    ghost function View(): Queue
      reads this, HeadParts()
    {
      Queue(capacity, lifetime, ViewPending(), nextId, lastNow, accepted, invalid, full, dispatched, timedOut, failed)
    }

    constructor (submitter: Submitter, capacity: nat, lifetime: real)
      requires capacity >= 1 && lifetime > 0.0
      ensures Valid() && View() == NewQueue(capacity, lifetime) && this.submitter == submitter
      ensures HeadParts() == {}
    {
      this.submitter := submitter;
      this.capacity := capacity;
      this.lifetime := lifetime;
      pending, nextId, lastNow := [], 1, 0.0;
      accepted, invalid, full, dispatched, timedOut, failed := 0, 0, 0, 0, 0, 0;
    }

    method EnqueueFrame(body: Bytes, context: Context, now: real) returns (r: Result<Receipt, QueueError>)
      requires Valid()
      modifies this
      ensures Valid() && HeadParts() == old(HeadParts())
      ensures (View(), r) == Enqueue(old(View()), body, context, now)
    {
      hide AppendFcs, ParseFrame;
      if now < 0.0 || now < lastNow {
        return Err(TimeError);
      }
      ghost var before := ViewPending();
      lastNow := now;
      assert ViewPending() == before;
      if ParseFrame(body, false).Err? {
        invalid := invalid + 1;
        assert ViewPending() == before;
        return Err(FrameRejected);
      }
      if |pending| >= capacity {
        full := full + 1;
        assert ViewPending() == before;
        return Err(QueueFull);
      }
      var frame := AppendFcs(body);
      var p := context.parameters;
      var receipt := Receipt(nextId, |body|, |frame|, p.generation, p.txdelay, p.persist, p.slottime, now,
          now + lifetime);
      nextId := nextId + 1;
      pending := pending + [Slot(receipt, frame, context, null)];
      accepted := accepted + 1;
      assert ViewPending() == before + [Request(receipt, frame, context, None)];
      r := Ok(receipt);
    }
  
    /** The head's attempt, created on its first observation. */
    method EnsureAttempt(now: real)
      requires Valid() && pending != [] && 0.0 <= now < pending[0].receipt.deadline
      modifies this`pending
      ensures Valid() && pending != [] && pending[0].attempt != null
      ensures fresh(HeadParts() - old(HeadParts()))
      ensures pending[1..] == old(pending[1..])
      ensures View() == old(View()).(pending := old(View()).pending[0 :=
                  old(View()).pending[0].(attempt := Some(HeadAttempt(old(View()).pending[0], now)))])
    {
      hide NewAttempt;
      ghost var before := ViewPending();
      var head := pending[0];
      if head.attempt == null {
        var captured := head.context.csma;
        var limit := Min(captured.maxWait, head.receipt.deadline - now);
        var attempt := new ShadowChannelAccessAttempt(now, Parameters(captured.persist, captured.slotTime10ms, limit));
        pending := pending[0 := head.(attempt := attempt)];
      }
      assert ViewPending() == before[0 := before[0].(attempt := Some(HeadAttempt(before[0], now)))];
    }

    method PopHead()
      requires Valid() && pending != []
      modifies this`pending
      ensures Valid() && HeadParts() == {}
      ensures View() == Popped(old(View()))
    {
      ghost var before := ViewPending();
      pending := pending[1..];
      assert ViewPending() == before[1..];
    }

    method ObserveHeadRssi(now: real, raw: int, source: RandomSource) returns (r: Result<Observation, AccessError>)
      requires Valid() && pending != [] && pending[0].attempt != null
      modifies HeadParts()
      ensures Valid() && pending == old(pending) && HeadParts() == old(HeadParts())
      ensures var head := old(View()).pending[0];
              var (a, r') := Observe(head.attempt.value, now, raw, source);
              && r == r'
              && View() == old(View()).(pending := old(View()).pending[0 := head.(attempt := Some(a))])
    {
      hide Observe;
      ghost var before := ViewPending();
      var head := pending[0];
      r := head.attempt.ObserveRssi(now, raw, source);
      assert ViewPending() == before[0 := before[0].(attempt := Some(head.attempt.View()))];
    }

    method CountTerminal(state: RequestState)
      requires Valid() && pending != [] && state in {Expired, Dispatched, DownstreamFailed}
      modifies this
      ensures Valid() && HeadParts() == {}
      ensures var q := old(View());
              View() == match state
                        case Expired => Popped(q).(timedOut := q.timedOut + 1)
                        case Dispatched => Popped(q).(dispatched := q.dispatched + 1)
                        case _ => Popped(q).(failed := q.failed + 1)
    {
      PopHead();
      ghost var after := ViewPending();
      if state == Expired {
        timedOut := timedOut + 1;
      } else if state == Dispatched {
        dispatched := dispatched + 1;
      } else {
        failed := failed + 1;
      }
      assert ViewPending() == after;
    }

    method HeadAccess(now: real, raw: int, source: RandomSource) returns (r: Result<Observation, AccessError>)
      requires Valid() && pending != [] && 0.0 <= now < pending[0].receipt.deadline
      modifies this`pending, HeadParts()
      ensures Valid() && pending != [] && fresh(HeadParts() - old(HeadParts()))
      ensures submitter.calls == old(submitter.calls)
      ensures var q := old(View());
              var (a, r') := Observe(HeadAttempt(q.pending[0], now), now, raw, source);
              r == r' && View() == q.(pending := q.pending[0 := q.pending[0].(attempt := Some(a))])
    {
      hide Observe, HeadAttempt;
      ghost var q := View();
      EnsureAttempt(now);
      ghost var q1 := View();
      assert q1.pending[0] == q.pending[0].(attempt := Some(HeadAttempt(q.pending[0], now)));
      r := ObserveHeadRssi(now, raw, source);
      ghost var last := View().pending[0];
      assert View().pending == q1.pending[0 := last] == q.pending[0 := last];
    }

    /** The head's one submission, or its expiry, or neither. */
    method ConcludeHead(now: real, access: Observation) returns (o: QueueObservation)
      requires Valid() && pending != []
      modifies this, submitter
      ensures Valid() && HeadParts() <= old(HeadParts())
      ensures (View(), o) == Conclude(old(View()), now, access, o.downstreamOk)
      ensures submitter.calls == old(submitter.calls) +
                if o.downstreamCalled then [(old(View()).pending[0].frame, old(View()).pending[0].context)] else []
    {
      hide Waiting;
      var head := pending[0];
      var id, generation := Some(head.receipt.id), Some(head.receipt.generation);
      match access.csma.state {
        case TimedOut =>
          CountTerminal(Expired);
          o := QueueObservation(now, id, Some(Expired), generation, Some(access), false, false);
        case Ready =>
          ghost var before := ViewPending();
          var ok := submitter.SubmitFrame(head.frame, head.context);
          assert ViewPending() == before;
          CountTerminal(if ok then Dispatched else DownstreamFailed);
          o := QueueObservation(now, id, Some(if ok then Dispatched else DownstreamFailed), generation,
                                Some(access), true, ok);
        case _ =>
          o := QueueObservation(now, id, Some(Access), generation, Some(access), false, false);
      }
    }

    /** Channel access for an unexpired head, and what follows from it. */
    method AdvanceHead(now: real, raw: int, source: RandomSource) returns (r: Result<QueueObservation, QueueError>)
      requires Valid() && pending != [] && 0.0 <= now < pending[0].receipt.deadline
      modifies this, HeadParts(), submitter
      ensures Valid() && fresh(HeadParts() - old(HeadParts()))
      ensures (View(), r) == ObserveHead(old(View()), now, raw, source, r.Ok? && r.value.downstreamOk)
      ensures submitter.calls == old(submitter.calls) +
                if r.Ok? && r.value.downstreamCalled
                then [(old(View()).pending[0].frame, old(View()).pending[0].context)] else []
    {
      hide Observe, HeadAttempt, Waiting, Conclude;
      var access := HeadAccess(now, raw, source);
      if access.Err? {
        return Err(AccessFailed(access.error));
      }
      var o := ConcludeHead(now, access.value);
      r := Ok(o);
    }

    /** Advance the head request by one RSSI sample; `submitOk` in the
        specification is whatever the submitter answered. */
    method ObserveRssi(now: real, raw: int, source: RandomSource) returns (r: Result<QueueObservation, QueueError>)
      requires Valid()
      modifies this, HeadParts(), submitter
      ensures Valid() && fresh(HeadParts() - old(HeadParts()))
      ensures (View(), r) == ObserveQueue(old(View()), now, raw, source, r.Ok? && r.value.downstreamOk)
      ensures submitter.calls == old(submitter.calls) +
                if r.Ok? && r.value.downstreamCalled
                then [(old(View()).pending[0].frame, old(View()).pending[0].context)] else []
    {
      hide ObserveHead;
      if now < 0.0 || now < lastNow {
        return Err(TimeError);
      }
      Tick(now);
      if pending == [] {
        return Ok(QueueObservation(now, None, None, None, None, false, false));
      }
      var receipt := pending[0].receipt;
      if now >= receipt.deadline {
        CountTerminal(Expired);
        return Ok(QueueObservation(now, Some(receipt.id), Some(Expired), Some(receipt.generation), None, false, false));
      }
      r := AdvanceHead(now, raw, source);
    }

    method Tick(now: real)
      requires Valid()
      modifies this`lastNow
      ensures Valid() && pending == old(pending) && HeadParts() == old(HeadParts())
      ensures View() == old(View()).(lastNow := now)
    {
      ghost var before := ViewPending();
      lastNow := now;
      assert ViewPending() == before;
    }
  }
}
