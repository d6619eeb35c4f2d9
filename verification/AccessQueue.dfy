/** The simpler queue of complete frames with fixed channel-access parameters,
    and its lock-step equivalence with the KISS admission queue when the
    captured parameters are the defaults. */
module AccessQueue {
  import opened Primitives
  import opened Fcs
  import opened Ax25
  import opened Control
  import opened ChannelAccess
  import AQ = AdmissionQueue
  import QueueRuns

  datatype Receipt = Receipt(id: int, bytes: nat, enqueuedAt: real, deadline: real)

  datatype Request = Request(receipt: Receipt, frame: Bytes, attempt: Option<Attempt>)

  datatype Queue = Queue(capacity: nat, lifetime: real, pending: seq<Request>, nextId: int, lastNow: real,
                         accepted: nat, invalid: nat, full: nat, dispatched: nat, timedOut: nat, failed: nat)

  datatype QueueObservation = QueueObservation(now: real, id: Option<int>, state: Option<AQ.RequestState>,
                                               access: Option<Observation>, downstreamCalled: bool, downstreamOk: bool)

  function NewQueue(capacity: nat, lifetime: real): Queue {
    Queue(capacity, lifetime, [], 1, 0.0, 0, 0, 0, 0, 0, 0)
  }

  predicate AcceptsNow(q: Queue, now: real) { now >= 0.0 && now >= q.lastNow }

  function Enqueue(q: Queue, frame: Bytes, now: real): (Queue, Result<Receipt, AQ.QueueError>) {
    if !AcceptsNow(q, now) then (q, Err(AQ.TimeError)) else
      var q := q.(lastNow := now);
      if |frame| < 3 || !VerifyFcs(frame) then (q.(invalid := q.invalid + 1), Err(AQ.FrameRejected))
      else if |q.pending| >= q.capacity then (q.(full := q.full + 1), Err(AQ.QueueFull))
      else
        var receipt := Receipt(q.nextId, |frame|, now, now + q.lifetime);
        (q.(nextId := q.nextId + 1, pending := q.pending + [Request(receipt, frame, None)], accepted := q.accepted + 1),
         Ok(receipt))
  }

  function HeadAttempt(head: Request, now: real): Attempt
    requires now < head.receipt.deadline
  {
    match head.attempt
    case Some(a) => a
    case None => NewAttempt(now, Parameters(63, 10, AQ.Min(30.0, head.receipt.deadline - now)))
  }

  function Popped(q: Queue): Queue
    requires q.pending != []
  {
    q.(pending := q.pending[1..])
  }

  function Terminal(now: real, head: Request, state: AQ.RequestState, access: Option<Observation>, called: bool,
                    ok: bool): QueueObservation {
    QueueObservation(now, Some(head.receipt.id), Some(state), access, called, ok)
  }

  function Observed(q: Queue, now: real, raw: int, source: RandomSource,
                    submitOk: bool): (Queue, Result<QueueObservation, AQ.QueueError>) {
    if !AcceptsNow(q, now) then (q, Err(AQ.TimeError)) else
      var q := q.(lastNow := now);
      if q.pending == [] then (q, Ok(QueueObservation(now, None, None, None, false, false))) else
        var head := q.pending[0];
        if now >= head.receipt.deadline then
          (Popped(q).(timedOut := q.timedOut + 1), Ok(Terminal(now, head, AQ.Expired, None, false, false)))
        else
          var (attempt, r) := Observe(HeadAttempt(head, now), now, raw, source);
          var q1 := q.(pending := q.pending[0 := head.(attempt := Some(attempt))]);
          match r
          case Err(e) => (q1, Err(AQ.AccessFailed(e)))
          case Ok(access) =>
            match access.csma.state
            case TimedOut =>
              (Popped(q1).(timedOut := q.timedOut + 1), Ok(Terminal(now, head, AQ.Expired, Some(access), false, false)))
            case Ready =>
              if submitOk
              then (Popped(q1).(dispatched := q.dispatched + 1),
                    Ok(Terminal(now, head, AQ.Dispatched, Some(access), true, true)))
              else (Popped(q1).(failed := q.failed + 1),
                    Ok(Terminal(now, head, AQ.DownstreamFailed, Some(access), true, false)))
            case _ => (q1, Ok(Terminal(now, head, AQ.Access, Some(access), false, false)))
  }

  // ---- Lock-step with the KISS queue

  /** The plain request that a KISS request with default parameters mirrors. */
  predicate MirrorsRequest(k: AQ.Request, b: Request) {
    && k.context.csma == DEFAULT_PARAMETERS && k.frame == b.frame && k.attempt == b.attempt
    && k.receipt.id == b.receipt.id && k.receipt.bytesWithFcs == b.receipt.bytes
    && k.receipt.enqueuedAt == b.receipt.enqueuedAt && k.receipt.deadline == b.receipt.deadline
  }

  predicate Mirrors(k: AQ.Queue, b: Queue) {
    && |k.pending| == |b.pending|
    && (forall i :: 0 <= i < |k.pending| ==> MirrorsRequest(k.pending[i], b.pending[i]))
    && k.capacity == b.capacity && k.lifetime == b.lifetime && k.nextId == b.nextId && k.lastNow == b.lastNow
    && k.accepted == b.accepted && k.invalid == b.invalid && k.full == b.full
    && k.dispatched == b.dispatched && k.timedOut == b.timedOut && k.failed == b.failed
  }

  predicate SameReceipt(k: Result<AQ.Receipt, AQ.QueueError>, b: Result<Receipt, AQ.QueueError>) {
    match (k, b)
    case (Ok(x), Ok(y)) =>
      x.id == y.id && x.bytesWithFcs == y.bytes && x.enqueuedAt == y.enqueuedAt && x.deadline == y.deadline
    case (Err(x), Err(y)) => x == y
    case _ => false
  }

  /** Same request, state, access decision, random draw and downstream outcome. */
  predicate SameObservation(k: Result<AQ.QueueObservation, AQ.QueueError>, b: Result<QueueObservation, AQ.QueueError>) {
    match (k, b)
    case (Ok(x), Ok(y)) =>
      && x.now == y.now && x.id == y.id && x.state == y.state && x.access == y.access
      && x.downstreamCalled == y.downstreamCalled && x.downstreamOk == y.downstreamOk
    case (Err(x), Err(y)) => x == y
    case _ => false
  }

  lemma EnqueueMirrored(k: AQ.Queue, b: Queue, body: Bytes, context: Context, now: real)
    requires Mirrors(k, b) && ParseFrame(body, false).Ok? && context.csma == DEFAULT_PARAMETERS
    ensures var (k', x) := AQ.Enqueue(k, body, context, now);
            var (b', y) := Enqueue(b, AppendFcs(body), now);
            Mirrors(k', b') && SameReceipt(x, y)
  {
    hide AppendFcs, ParseFrame, VerifyFcs;
    QueueRuns.ParsedIsLong(body);
  }

  lemma ObserveMirrored(k: AQ.Queue, b: Queue, now: real, raw: int, source: RandomSource, submitOk: bool)
    requires Mirrors(k, b)
    ensures var (k', x) := AQ.ObserveQueue(k, now, raw, source, submitOk);
            var (b', y) := Observed(b, now, raw, source, submitOk);
            Mirrors(k', b') && SameObservation(x, y)
  {
    hide Observe, AQ.HeadAttempt, HeadAttempt, MirrorsRequest, AQ.ObserveHead;
    MirroredHead(k, b);
    if AcceptsNow(b, now) && k.pending != [] && now < k.pending[0].receipt.deadline {
      HeadMirrored(k.(lastNow := now), b.(lastNow := now), now, raw, source, submitOk);
    }
  }

  /** An unexpired head is observed alike. */
  lemma HeadMirrored(k: AQ.Queue, b: Queue, now: real, raw: int, source: RandomSource, submitOk: bool)
    requires Mirrors(k, b) && k.pending != [] && now < k.pending[0].receipt.deadline && AcceptsNow(b, now)
    requires k.lastNow == now
    ensures var (k', x) := AQ.ObserveHead(k, now, raw, source, submitOk);
            var (b', y) := Observed(b, now, raw, source, submitOk);
            Mirrors(k', b') && SameObservation(x, y)
  {
    hide Observe, AQ.HeadAttempt, HeadAttempt, MirrorsRequest;
    SameAttempt(k, b, now);
    MirrorsReattempt(k, b, Observe(HeadAttempt(b.pending[0], now), now, raw, source).0);
  }

  lemma MirroredHead(k: AQ.Queue, b: Queue)
    requires Mirrors(k, b)
    ensures k.pending != [] ==> k.pending[0].receipt.id == b.pending[0].receipt.id
                                && k.pending[0].receipt.deadline == b.pending[0].receipt.deadline
  {
    assert k.pending != [] ==> MirrorsRequest(k.pending[0], b.pending[0]);
  }

  lemma SameAttempt(k: AQ.Queue, b: Queue, now: real)
    requires Mirrors(k, b) && k.pending != [] && now < k.pending[0].receipt.deadline
    ensures now < b.pending[0].receipt.deadline && k.pending[0].receipt.id == b.pending[0].receipt.id
    ensures AQ.HeadAttempt(k.pending[0], now) == HeadAttempt(b.pending[0], now)
  {
    hide NewAttempt;
    assert MirrorsRequest(k.pending[0], b.pending[0]);
  }

  lemma MirrorsReattempt(k: AQ.Queue, b: Queue, a: Attempt)
    requires Mirrors(k, b) && k.pending != []
    ensures MirrorsRequest(k.pending[0].(attempt := Some(a)), b.pending[0].(attempt := Some(a)))
  {
    assert MirrorsRequest(k.pending[0], b.pending[0]);
  }

  /** What one call answers, with the frame handed downstream if any. */
  datatype Answer<+R, +O> =
    | Admitting(receipt: Result<R, AQ.QueueError>)
    | Observing(observation: Result<O, AQ.QueueError>, submitted: Option<Bytes>)

  type KissAnswer = Answer<AQ.Receipt, AQ.QueueObservation>
  type PlainAnswer = Answer<Receipt, QueueObservation>

  function KissAnswerTo(q: AQ.Queue, e: QueueRuns.Event): KissAnswer {
    match e
    case Admit(body, context, now) => Admitting(AQ.Enqueue(q, body, context, now).1)
    case Sampled(now, raw, source, submitOk) =>
      var r := AQ.ObserveQueue(q, now, raw, source, submitOk).1;
      Observing(r, if r.Ok? && r.value.downstreamCalled && q.pending != [] then Some(q.pending[0].frame) else None)
  }

  /** An event of the KISS queue as seen by the plain queue. */
  function Follow(b: Queue, e: QueueRuns.Event): (Queue, PlainAnswer) {
    match e
    case Admit(body, _, now) =>
      var (b', r) := Enqueue(b, AppendFcs(body), now);
      (b', Admitting(r))
    case Sampled(now, raw, source, submitOk) =>
      var (b', r) := Observed(b, now, raw, source, submitOk);
      var called := r.Ok? && r.value.downstreamCalled && b.pending != [];
      (b', Observing(r, if called then Some(b.pending[0].frame) else None))
  }

  function KissAnswers(w: QueueRuns.World, es: seq<QueueRuns.Event>): (answers: seq<KissAnswer>)
    ensures |answers| == |es|
    decreases |es|
  {
    if es == [] then [] else [KissAnswerTo(w.q, es[0])] + KissAnswers(QueueRuns.Next(w, es[0]), es[1..])
  }

  function FollowAll(b: Queue, es: seq<QueueRuns.Event>): (r: (Queue, seq<PlainAnswer>))
    ensures |r.1| == |es|
    decreases |es|
  {
    if es == [] then (b, []) else
      var (b1, answer) := Follow(b, es[0]);
      var (b2, answers) := FollowAll(b1, es[1..]);
      (b2, [answer] + answers)
  }

  predicate SameAnswer(x: KissAnswer, y: PlainAnswer) {
    match (x, y)
    case (Admitting(r), Admitting(s)) => SameReceipt(r, s)
    case (Observing(r, f), Observing(s, g)) => SameObservation(r, s) && f == g
    case _ => false
  }

  predicate Plain(e: QueueRuns.Event) {
    e.Admit? ==> ParseFrame(e.body, false).Ok? && e.context.csma == DEFAULT_PARAMETERS
  }

  lemma EventMirrored(w: QueueRuns.World, b: Queue, e: QueueRuns.Event)
    requires Mirrors(w.q, b) && Plain(e)
    ensures Mirrors(QueueRuns.Next(w, e).q, Follow(b, e).0) && SameAnswer(KissAnswerTo(w.q, e), Follow(b, e).1)
  {
    hide Observed, Enqueue, AQ.Enqueue, AQ.ObserveQueue, AppendFcs, ParseFrame, QueueRuns.Takes;
    match e
    case Admit(body, context, now) => EnqueueMirrored(w.q, b, body, context, now);
    case Sampled(now, raw, source, submitOk) =>
      ObserveMirrored(w.q, b, now, raw, source, submitOk);
      assert w.q.pending != [] ==> MirrorsRequest(w.q.pending[0], b.pending[0]);
  }

  /** Over every run with parseable bodies and default parameters the two queues
      stay in lock-step: the same pending frames, identifiers, deadlines,
      channel-access states and counters at the end, and on the way the same
      answer to every call and the same frames handed downstream. */
  lemma {:induction false} QueuesStayInLockStep(w: QueueRuns.World, b: Queue, es: seq<QueueRuns.Event>)
    requires Mirrors(w.q, b) && forall i :: 0 <= i < |es| ==> Plain(es[i])
    ensures Mirrors(QueueRuns.Run(w, es).q, FollowAll(b, es).0)
    ensures forall i :: 0 <= i < |es| ==> SameAnswer(KissAnswers(w, es)[i], FollowAll(b, es).1[i])
    decreases |es|
  {
    hide Mirrors, Follow, KissAnswerTo, SameAnswer, QueueRuns.Next;
    if es != [] {
      assert Plain(es[0]);
      EventMirrored(w, b, es[0]);
      var w1, b1, rest := QueueRuns.Next(w, es[0]), Follow(b, es[0]).0, es[1..];
      QueuesStayInLockStep(w1, b1, rest);
      forall i | 0 <= i < |es| ensures SameAnswer(KissAnswers(w, es)[i], FollowAll(b, es).1[i]) {
        if i > 0 {
          assert SameAnswer(KissAnswers(w1, rest)[i - 1], FollowAll(b1, rest).1[i - 1]);
        }
      }
    }
  }

  /** In particular from the two queues as constructed. */
  lemma LockStepFromEmpty(capacity: nat, lifetime: real, es: seq<QueueRuns.Event>)
    requires forall i :: 0 <= i < |es| ==> Plain(es[i])
    ensures var w, b := QueueRuns.Start(capacity, lifetime), NewQueue(capacity, lifetime);
            && Mirrors(QueueRuns.Run(w, es).q, FollowAll(b, es).0)
            && forall i :: 0 <= i < |es| ==> SameAnswer(KissAnswers(w, es)[i], FollowAll(b, es).1[i])
  {
    hide Plain, FollowAll, QueueRuns.Run, KissAnswers, SameAnswer;
    QueuesStayInLockStep(QueueRuns.Start(capacity, lifetime), NewQueue(capacity, lifetime), es);
  }
}
