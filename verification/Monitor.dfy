/** The transmit monitor: a tracker that follows the admission queue from
    outside, and the lifecycle events published around the queue, the
    half-duplex lifecycle and the broker router.  Calls on the monitored queue
    are serialised. */
module Monitor {
  import opened Primitives
  import opened Fcs
  import opened Control
  import opened ChannelAccess
  import opened AdmissionQueue
  import QueueRuns

  /** What the tracker keeps of a request; `body` stands for the descriptive
      fields computed from the frame. */
  datatype Record = Record(id: int, body: Bytes, txdelay: int, persist: int, slottime: int, generation: nat,
      rssi: Option<int>)

  datatype Kind = TxQueued | TxTimeout | TxChannelClear | TxFailed | TxDispatched | TxComplete

  /** `None` is an event published without any request fields. */
  datatype Event = Event(kind: Kind, fields: Option<Record>)

  datatype Tracker = Tracker(pending: seq<int>, records: map<int, Record>, current: Option<int>)

  datatype TrackerError = MissingRecord

  function RecordOf(r: Receipt, body: Bytes): Record {
    Record(r.id, body, r.txdelay, r.persist, r.slottime, r.generation, None)
  }

  // ---- The tracker's operations

  function Add(t: Tracker, r: Record): Tracker {
    t.(pending := t.pending + [r.id], records := t.records[r.id := r])
  }

  function Begin(t: Tracker, raw: int): (Tracker, Result<Option<Record>, TrackerError>) {
    if t.pending == [] then (t.(current := None), Ok(None))
    else if t.pending[0] !in t.records then (t, Err(MissingRecord))
    else
      var r := t.records[t.pending[0]].(rssi := Some(raw));
      (t.(records := t.records[t.pending[0] := r], current := Some(t.pending[0])), Ok(Some(r)))
  }

  function Current(t: Tracker): Option<Record> {
    if t.current.Some? && t.current.value in t.records then Some(t.records[t.current.value]) else None
  }

  function RemoveFirst(s: seq<int>, x: int): seq<int> {
    if s == [] then [] else if s[0] == x then s[1..] else [s[0]] + RemoveFirst(s[1..], x)
  }

  function Finish(t: Tracker, id: Option<int>): Tracker {
    if id.None? then t else
      Tracker(RemoveFirst(t.pending, id.value), t.records - {id.value}, if t.current == id then None else t.current)
  }

  // ---- The monitored stack

  /** How far the half-duplex lifecycle got with a submission: it failed before
      the router accepted the frame, after that, or not at all. */
  datatype Outcome = RouterFailed | RestoreFailed | Completed

  function SubmissionKinds(outcome: Outcome): (kinds: seq<Kind>) {
    match outcome
    case RouterFailed => [TxChannelClear, TxFailed]
    case RestoreFailed => [TxChannelClear, TxDispatched, TxFailed]
    case Completed => [TxChannelClear, TxDispatched, TxComplete]
  }

  function Publish(kinds: seq<Kind>, fields: Option<Record>): (es: seq<Event>)
    ensures |es| == |kinds| && forall i :: 0 <= i < |es| ==> es[i] == Event(kinds[i], fields)
  {
    if kinds == [] then [] else [Event(kinds[0], fields)] + Publish(kinds[1..], fields)
  }

  /** The kinds of event one observation publishes. */
  function ObservedKinds(r: Result<QueueObservation, QueueError>, outcome: Outcome): (kinds: seq<Kind>) {
    if r.Err? then [] else
      (if r.value.downstreamCalled then SubmissionKinds(outcome) else [])
      + (if r.value.state == Some(Expired) then [TxTimeout] else [])
  }

  datatype Step =
    | Put(body: Bytes, context: Context, now: real)
    | Look(now: real, raw: int, source: RandomSource, outcome: Outcome)

  datatype Monitored = Monitored(w: QueueRuns.World, tracker: Tracker, log: seq<Event>)

  function Initial(capacity: nat, lifetime: real): Monitored {
    Monitored(QueueRuns.Start(capacity, lifetime), Tracker([], map[], None), [])
  }

  function QueueEvent(s: Step): QueueRuns.Event {
    match s
    case Put(body, context, now) => QueueRuns.Admit(body, context, now)
    case Look(now, raw, source, outcome) => QueueRuns.Sampled(now, raw, source, outcome.Completed?)
  }

  function AfterPut(t: Tracker, log: seq<Event>, body: Bytes, r: Result<Receipt, QueueError>): (Tracker, seq<Event>) {
    if r.Err? then (t, log) else
      var record := RecordOf(r.value, body);
      (Add(t, record), log + [Event(TxQueued, Some(record))])
  }

  function AfterLook(t: Tracker, log: seq<Event>, fields: Option<Record>, r: Result<QueueObservation, QueueError>,
                     outcome: Outcome): (Tracker, seq<Event>) {
    var left := if Ended(r) then Finish(t, r.value.id) else t;
    (left.(current := None), log + Publish(ObservedKinds(r, outcome), fields))
  }

  /** A missing record would make the observation raise before the queue is
      reached. */
  predicate Raises(m: Monitored, s: Step) { s.Look? && Begin(m.tracker, s.raw).1.Err? }

  function Next(m: Monitored, s: Step): Monitored {
    if Raises(m, s) then m else
      var w := QueueRuns.Next(m.w, QueueEvent(s));
      match s
      case Put(body, context, now) =>
        var (t, log) := AfterPut(m.tracker, m.log, body, Enqueue(m.w.q, body, context, now).1);
        Monitored(w, t, log)
      case Look(now, raw, source, outcome) =>
        var (t, fields) := Begin(m.tracker, raw);
        var r := ObserveQueue(m.w.q, now, raw, source, outcome.Completed?).1;
        var (t', log) := AfterLook(t, m.log, fields.value, r, outcome);
        Monitored(w, t', log)
  }

  function Run(m: Monitored, steps: seq<Step>): Monitored
    decreases |steps|
  {
    if steps == [] then m else Run(Next(m, steps[0]), steps[1..])
  }

  // ---- The reference: what a request's events may look like

  /** The events published for one request, in order. */
  function Trail(log: seq<Event>, id: int): seq<Event> {
    if log == [] then [] else
      var last := log[|log| - 1];
      Trail(log[..|log| - 1], id) + (if last.fields.Some? && last.fields.value.id == id then [last] else [])
  }

  function Kinds(es: seq<Event>): (ks: seq<Kind>)
    ensures |ks| == |es|
    ensures forall i :: 0 <= i < |es| ==> ks[i] == es[i].kind
  {
    if es == [] then [] else [es[0].kind] + Kinds(es[1..])
  }

  /** queued (timeout | channel_clear (failed | dispatched (complete | failed))),
      by the terminal state that each complete word stands for. */
  predicate Word(ks: seq<Kind>, state: RequestState) {
    || (state.Expired? && ks == [TxQueued, TxTimeout])
    || (state.Dispatched? && ks == [TxQueued, TxChannelClear, TxDispatched, TxComplete])
    || (state.DownstreamFailed? && (ks == [TxQueued, TxChannelClear, TxFailed]
                                    || ks == [TxQueued, TxChannelClear, TxDispatched, TxFailed]))
  }

  function Unmeasured(r: Record): Record { r.(rssi := None) }

  /** All events of a trail describe the request as it was admitted. */
  predicate AllDescribe(es: seq<Event>, r: Record) {
    forall i :: 0 <= i < |es| ==> es[i].fields.Some? && Unmeasured(es[i].fields.value) == r
  }

  // ---- Invariant

  predicate Follows(r: Record, request: Request) {
    Unmeasured(r) == RecordOf(request.receipt, r.body) && AppendFcs(r.body) == request.frame
  }

  /** The tracker holds exactly the queue's requests, in order. */
  ghost predicate Tracks(t: Tracker, q: Queue) {
    && |t.pending| == |q.pending|
    && (forall i :: 0 <= i < |q.pending| ==>
          && t.pending[i] == q.pending[i].receipt.id && t.pending[i] in t.records
          && Follows(t.records[t.pending[i]], q.pending[i]))
    && (forall id <- t.records :: id in t.pending)
  }

  ghost predicate TrailOk(m: Monitored, id: int) {
    var trail := Trail(m.log, id);
    if 1 <= id <= |m.w.finished| then
      exists r :: AllDescribe(trail, r) && Word(Kinds(trail), m.w.finished[id - 1].1)
    else if 1 <= id < m.w.q.nextId then
      id in m.tracker.records && trail == [Event(TxQueued, Some(Unmeasured(m.tracker.records[id])))]
    else trail == []
  }

  ghost predicate InStep(m: Monitored) {
    QueueRuns.WorldOk(m.w) && Tracks(m.tracker, m.w.q) && m.tracker.current.None?
  }

  /** The numbers that identify requests, as the queue's invariant fixes them. */
  lemma Numbering(w: QueueRuns.World)
    requires QueueRuns.WorldOk(w)
    ensures w.q.nextId == |w.finished| + |w.q.pending| + 1
    ensures forall i :: 0 <= i < |w.q.pending| ==> w.q.pending[i].receipt.id == |w.finished| + 1 + i
  {
  }

  // ---- The tracker follows

  lemma PutTracks(t: Tracker, q: Queue, body: Bytes, context: Context, now: real)
    requires Tracks(t, q) && forall i :: 0 <= i < |q.pending| ==> q.pending[i].receipt.id < q.nextId
    ensures var (q', r) := Enqueue(q, body, context, now);
            && Tracks(AfterPut(t, [], body, r).0, q')
            && (r.Ok? ==> r.value.id == q.nextId) && q'.nextId == q.nextId + (if r.Ok? then 1 else 0)
  {
    hide AppendFcs, Ax25.ParseFrame;
    var (q', r) := Enqueue(q, body, context, now);
    if r.Ok? {
      var t' := AfterPut(t, [], body, r).0;
      forall i | 0 <= i < |q'.pending|
        ensures t'.pending[i] == q'.pending[i].receipt.id && t'.pending[i] in t'.records
        ensures Follows(t'.records[t'.pending[i]], q'.pending[i])
      {
        if i < |q.pending| {
          assert q'.pending[i] == q.pending[i];
        }
      }
      forall id <- t'.records ensures id in t'.pending {
        if id == r.value.id {
          assert t'.pending[|t.pending|] == id;
        } else {
          assert id in t.pending;
        }
      }
    }
  }

  lemma BeginTracks(t: Tracker, q: Queue, raw: int)
    requires Tracks(t, q)
    ensures var (t', fields) := Begin(t, raw);
            && Tracks(t', q) && fields.Ok? && t'.records.Keys == t.records.Keys
            && (forall id <- t.records :: Unmeasured(t'.records[id]) == Unmeasured(t.records[id]))
            && Current(t') == fields.value
            && (q.pending != [] ==> && t.pending[0] in t.records && fields.value.Some?
                                    && t.pending[0] == q.pending[0].receipt.id == fields.value.value.id
                                    && Unmeasured(fields.value.value) == Unmeasured(t.records[t.pending[0]]))
  {
    hide AppendFcs;
    if q.pending != [] {
      assert Follows(t.records[t.pending[0]], q.pending[0]);
      var t' := Begin(t, raw).0;
      forall i | 0 <= i < |q.pending|
        ensures Follows(t'.records[t'.pending[i]], q.pending[i])
      {
        assert Follows(t.records[t.pending[i]], q.pending[i]);
      }
    }
  }

  lemma FinishTracks(t: Tracker, q: Queue, q': Queue, first: int)
    requires Tracks(t, q) && q.pending != [] && SameRequests(q'.pending, q.pending[1..])
    requires forall i :: 0 <= i < |q.pending| ==> q.pending[i].receipt.id == first + i
    ensures Tracks(Finish(t, Some(first)), q')
  {
    hide AppendFcs;
    var t' := Finish(t, Some(first));
    assert t.pending[0] == first;
    forall i | 0 <= i < |q'.pending|
      ensures t'.pending[i] == q'.pending[i].receipt.id && t'.pending[i] in t'.records
      ensures Follows(t'.records[t'.pending[i]], q'.pending[i])
    {
      assert q'.pending[i].receipt == q.pending[i + 1].receipt;
      assert Follows(t.records[t.pending[i + 1]], q.pending[i + 1]);
    }
  }

  lemma SameTracks(t: Tracker, q: Queue, q': Queue)
    requires Tracks(t, q) && SameRequests(q'.pending, q.pending)
    ensures Tracks(t, q')
  {
    hide AppendFcs;
    forall i | 0 <= i < |q'.pending|
      ensures t.pending[i] == q'.pending[i].receipt.id && t.pending[i] in t.records
      ensures Follows(t.records[t.pending[i]], q'.pending[i])
    {
      assert Follows(t.records[t.pending[i]], q.pending[i]);
    }
  }

  // ---- The trails grow by what is published

  lemma TrailSnoc(log: seq<Event>, e: Event, id: int)
    ensures Trail(log + [e], id) ==
              if e.fields.Some? && e.fields.value.id == id then Trail(log, id) + [e] else Trail(log, id)
  {
    assert (log + [e])[..|log|] == log;
  }

  lemma Regroup(log: seq<Event>, e: Event, rest: seq<Event>)
    ensures log + ([e] + rest) == (log + [e]) + rest
  {
  }

  /** Publishing touches the trail of the request it names and no other. */
  lemma {:induction false} TrailGrows(log: seq<Event>, kinds: seq<Kind>, r: Record, id: int)
    ensures r.id == id ==> Trail(log + Publish(kinds, Some(r)), id) == Trail(log, id) + Publish(kinds, Some(r))
    ensures r.id != id ==> Trail(log + Publish(kinds, Some(r)), id) == Trail(log, id)
    decreases |kinds|
  {
    hide Trail;
    if kinds == [] {
      assert log + [] == log && Trail(log, id) + [] == Trail(log, id);
    } else {
      var e := Event(kinds[0], Some(r));
      var rest := Publish(kinds[1..], Some(r));
      Regroup(log, e, rest);
      TrailGrows(log + [e], kinds[1..], r, id);
      TrailSnoc(log, e, id);
      Regroup(Trail(log, id), e, rest);
    }
  }

  lemma PutTrail(m: Monitored, s: Step, id: int)
    requires InStep(m) && TrailOk(m, id) && s.Put?
    ensures TrailOk(Next(m, s), id)
  {
    hide QueueRuns.WorldOk, Tracks, Enqueue, Word, AllDescribe, Trail;
    Numbering(m.w);
    PutFacts(m, s);
    var r := Enqueue(m.w.q, s.body, s.context, s.now).1;
    if r.Ok? {
      var e := Event(TxQueued, Some(RecordOf(r.value, s.body)));
      TrailSnoc(m.log, e, id);
      assert [] + [e] == [e];
    }
  }

  lemma PutFacts(m: Monitored, s: Step)
    requires InStep(m) && s.Put?
    ensures var (q, r) := Enqueue(m.w.q, s.body, s.context, s.now);
            && (r.Ok? ==> r.value.id == m.w.q.nextId) && q.nextId == m.w.q.nextId + (if r.Ok? then 1 else 0)
            && Tracks(Next(m, s).tracker, q)
  {
    hide QueueRuns.WorldOk, Enqueue, Tracks;
    Numbering(m.w);
    PutTracks(m.tracker, m.w.q, s.body, s.context, s.now);
  }

  // ---- One observation

  /** The tracker and log after an observation, from what the queue did. */
  lemma LookFacts(m: Monitored, s: Step)
    requires InStep(m) && s.Look?
    ensures var (q, r) := ObserveQueue(m.w.q, s.now, s.raw, s.source, s.outcome.Completed?);
            var (t, fields) := Begin(m.tracker, s.raw);
            && fields.Ok?
            && Tracks(Next(m, s).tracker, q) && q.nextId == m.w.q.nextId
            && (Ended(r) ==> r.value.id == Some(|m.w.finished| + 1) && m.w.q.pending != [])
  {
    hide QueueRuns.WorldOk, ObserveQueue, Tracks, QueueRuns.Takes, Begin, Finish;
    var q := m.w.q;
    var (q', r) := ObserveQueue(q, s.now, s.raw, s.source, s.outcome.Completed?);
    Numbering(m.w);
    ObserveShape(q, s.now, s.raw, s.source, s.outcome.Completed?);
    BeginTracks(m.tracker, q, s.raw);
    var t := Begin(m.tracker, s.raw).0;
    if Ended(r) {
      FinishTracks(t, q, q', |m.w.finished| + 1);
      ClearTracks(Finish(t, r.value.id), q');
    } else {
      SameTracks(t, q, q');
      ClearTracks(t, q');
    }
  }

  lemma ClearTracks(t: Tracker, q: Queue)
    requires Tracks(t, q)
    ensures Tracks(t.(current := None), q)
  {
  }

  /** The complete word that an ending observation leaves behind. */
  lemma {:induction false} EndingWord(queued: Record, fields: Record, r: Result<QueueObservation, QueueError>,
                                      outcome: Outcome)
    requires queued == Unmeasured(fields) && Ended(r)
    requires r.value.downstreamCalled == (r.value.state != Some(Expired))
    requires r.value.downstreamCalled ==> outcome.Completed? == (r.value.state == Some(Dispatched))
    ensures var trail := [Event(TxQueued, Some(queued))] + Publish(ObservedKinds(r, outcome), Some(fields));
            AllDescribe(trail, queued) && Word(Kinds(trail), r.value.state.value)
  {
    var kinds := ObservedKinds(r, outcome);
    var trail := [Event(TxQueued, Some(queued))] + Publish(kinds, Some(fields));
    assert Kinds(trail) == [TxQueued] + kinds;
  }

  lemma EndedTrail(m: Monitored, s: Step, id: int)
    requires InStep(m) && TrailOk(m, id) && s.Look?
    requires Ended(ObserveQueue(m.w.q, s.now, s.raw, s.source, s.outcome.Completed?).1)
    ensures TrailOk(Next(m, s), id)
  {
    hide QueueRuns.WorldOk, ObserveQueue, Tracks, QueueRuns.Takes, Trail, Word, AllDescribe, ObservedKinds, Publish,
         Kinds, Begin;
    var (q, r) := ObserveQueue(m.w.q, s.now, s.raw, s.source, s.outcome.Completed?);
    var (t, fields) := Begin(m.tracker, s.raw);
    Numbering(m.w);
    LookFacts(m, s);
    BeginTracks(m.tracker, m.w.q, s.raw);
    ObserveShape(m.w.q, s.now, s.raw, s.source, s.outcome.Completed?);
    TrailGrows(m.log, ObservedKinds(r, s.outcome), fields.value.value, id);
    if id == |m.w.finished| + 1 {
      EndingWord(Unmeasured(fields.value.value), fields.value.value, r, s.outcome);
    }
  }

  lemma RestingTrail(m: Monitored, s: Step, id: int)
    requires InStep(m) && TrailOk(m, id) && s.Look?
    requires !Ended(ObserveQueue(m.w.q, s.now, s.raw, s.source, s.outcome.Completed?).1)
    ensures TrailOk(Next(m, s), id)
  {
    hide QueueRuns.WorldOk, ObserveQueue, Tracks, QueueRuns.Takes, Trail, Word, AllDescribe, Kinds, Begin;
    var (q, r) := ObserveQueue(m.w.q, s.now, s.raw, s.source, s.outcome.Completed?);
    Numbering(m.w);
    LookFacts(m, s);
    BeginTracks(m.tracker, m.w.q, s.raw);
    ObserveShape(m.w.q, s.now, s.raw, s.source, s.outcome.Completed?);
    assert m.log + [] == m.log;
  }

  lemma NextInStep(m: Monitored, s: Step)
    requires InStep(m)
    ensures InStep(Next(m, s)) && !Raises(m, s)
  {
    hide QueueRuns.WorldOk, Tracks, ObserveQueue, Enqueue, QueueRuns.Takes, Begin;
    BeginTracks(m.tracker, m.w.q, if s.Look? then s.raw else 0);
    QueueRuns.NextOk(m.w, QueueEvent(s));
    if s.Put? {
      PutFacts(m, s);
    } else {
      LookFacts(m, s);
    }
  }

  lemma {:induction false} EveryRunInStep(m: Monitored, steps: seq<Step>, id: int)
    requires InStep(m) && TrailOk(m, id)
    ensures InStep(Run(m, steps)) && TrailOk(Run(m, steps), id)
    decreases |steps|
  {
    hide InStep, TrailOk, Next;
    if steps != [] {
      NextInStep(m, steps[0]);
      if steps[0].Put? {
        PutTrail(m, steps[0], id);
      } else if Ended(ObserveQueue(m.w.q, steps[0].now, steps[0].raw, steps[0].source, steps[0].outcome.Completed?).1) {
        EndedTrail(m, steps[0], id);
      } else {
        RestingTrail(m, steps[0], id);
      }
      EveryRunInStep(Next(m, steps[0]), steps[1..], id);
    }
  }

  // ---- Main results

  predicate Terminal(ks: seq<Kind>) { Word(ks, Expired) || Word(ks, Dispatched) || Word(ks, DownstreamFailed) }

  /** After any run the tracker lists exactly the queue's requests in order,
      leaks no record, holds no current request, and the next observation finds
      the record it needs. */
  lemma TrackerMirrorsQueue(capacity: nat, lifetime: real, steps: seq<Step>, next: Step)
    requires capacity >= 1 && lifetime > 0.0
    ensures var m := Run(Initial(capacity, lifetime), steps);
            && |m.tracker.pending| == |m.w.q.pending| && m.tracker.current.None? && !Raises(m, next)
            && (forall i :: 0 <= i < |m.w.q.pending| ==> m.tracker.pending[i] == m.w.q.pending[i].receipt.id)
            && (forall id :: id in m.tracker.records <==> id in m.tracker.pending)
  {
    hide QueueRuns.WorldOk, Run, Next, Trail;
    var m0 := Initial(capacity, lifetime);
    InitialInStep(capacity, lifetime);
    EveryRunInStep(m0, steps, 0);
    NextInStep(Run(m0, steps), next);
  }

  lemma InitialInStep(capacity: nat, lifetime: real)
    requires capacity >= 1 && lifetime > 0.0
    ensures InStep(Initial(capacity, lifetime)) && forall id :: TrailOk(Initial(capacity, lifetime), id)
  {
    QueueRuns.StartOk(capacity, lifetime);
  }

  /** Over every run: an admitted request still in the queue has published
      `queued` and nothing else; one that has left it has published exactly one
      complete word, the one of the state it finished in; no other request has
      published anything; and all events of a request carry the same fields. */
  lemma LifecycleOfEveryRequest(capacity: nat, lifetime: real, steps: seq<Step>, id: int)
    requires capacity >= 1 && lifetime > 0.0
    ensures var m := Run(Initial(capacity, lifetime), steps);
            var trail := Trail(m.log, id);
            && m.w.q.nextId == |m.w.finished| + |m.w.q.pending| + 1
            && (1 <= id <= |m.w.finished| ==>
                m.w.finished[id - 1].0 == id && Word(Kinds(trail), m.w.finished[id - 1].1))
            && (|m.w.finished| < id < m.w.q.nextId ==> Kinds(trail) == [TxQueued])
            && (id < 1 || id >= m.w.q.nextId ==> trail == [])
            && exists r :: AllDescribe(trail, r)
  {
    hide QueueRuns.WorldOk, Run, Next, Trail, AllDescribe, Word, InStep;
    var m0 := Initial(capacity, lifetime);
    InitialInStep(capacity, lifetime);
    EveryRunInStep(m0, steps, id);
    var m := Run(m0, steps);
    assert QueueRuns.WorldOk(m.w) by { InStepIsOk(m); }
    Numbering(m.w);
    FinishedInOrder(m.w);
    OneDescription(m, id);
  }

  lemma OneDescription(m: Monitored, id: int)
    requires TrailOk(m, id)
    ensures exists r :: AllDescribe(Trail(m.log, id), r)
  {
    hide Trail, Word, Kinds;
    var trail := Trail(m.log, id);
    if trail == [] {
      assert AllDescribe(trail, Record(id, [], 0, 0, 0, 0, None));
    } else if !(1 <= id <= |m.w.finished|) {
      assert AllDescribe(trail, Unmeasured(m.tracker.records[id]));
    }
  }

  lemma InStepIsOk(m: Monitored)
    requires InStep(m)
    ensures QueueRuns.WorldOk(m.w)
  {
  }

  lemma FinishedInOrder(w: QueueRuns.World)
    requires QueueRuns.WorldOk(w)
    ensures forall k :: 0 <= k < |w.finished| ==> w.finished[k].0 == k + 1
  {
  }

  lemma {:induction false} TrailOfPrefix(log: seq<Event>, k: nat, id: int)
    requires k <= |log|
    ensures Trail(log[..k], id) <= Trail(log, id)
    decreases |log|
  {
    var n := |log| - 1;
    if k == |log| {
      assert log[..k] == log;
    } else {
      TrailOfPrefix(log[..n], k, id);
      assert log[..n][..k] == log[..k];
    }
  }

  /** At every instant, also between two events of one call, what a request has
      published is a prefix of a complete word. */
  lemma EveryInstantIsAPrefix(capacity: nat, lifetime: real, steps: seq<Step>, id: int,
                              k: nat) returns (word: seq<Kind>)
    requires capacity >= 1 && lifetime > 0.0 && k <= |Run(Initial(capacity, lifetime), steps).log|
    ensures Terminal(word) && Kinds(Trail(Run(Initial(capacity, lifetime), steps).log[..k], id)) <= word
  {
    hide Run, Trail, AllDescribe;
    var m := Run(Initial(capacity, lifetime), steps);
    LifecycleOfEveryRequest(capacity, lifetime, steps, id);
    TrailOfPrefix(m.log, k, id);
    var full, part := Trail(m.log, id), Trail(m.log[..k], id);
    word := if 1 <= id <= |m.w.finished| then Kinds(full) else [TxQueued, TxTimeout];
    assert Kinds(full) <= word;
    assert Kinds(part) == Kinds(full)[..|part|];
  }

  // ---- The objects

  class TXRequestTracker {
    var pending: seq<int>
    var records: map<int, Record>
    var currentId: Option<int>

    ghost function View(): Tracker
      reads this
    {
      Tracker(pending, records, currentId)
    }

    constructor ()
      ensures View() == Tracker([], map[], None)
    {
      pending, records, currentId := [], map[], None;
    }

    method AddReceipt(receipt: Receipt, body: Bytes) returns (r: Record)
      modifies this
      ensures r == RecordOf(receipt, body) && View() == Add(old(View()), r)
    {
      r := Record(receipt.id, body, receipt.txdelay, receipt.persist, receipt.slottime, receipt.generation, None);
      pending := pending + [r.id];
      records := records[r.id := r];
    }

    method BeginObservation(raw: int) returns (r: Result<Option<Record>, TrackerError>)
      modifies this
      ensures (View(), r) == Begin(old(View()), raw)
    {
      if pending == [] {
        currentId := None;
        return Ok(None);
      }
      var id := pending[0];
      if id !in records {
        return Err(MissingRecord);
      }
      var record := records[id].(rssi := Some(raw));
      records := records[id := record];
      currentId := Some(id);
      r := Ok(Some(record));
    }

    method CurrentRecord() returns (r: Option<Record>)
      ensures r == Current(View())
    {
      r := if currentId.Some? && currentId.value in records then Some(records[currentId.value]) else None;
    }

    method ClearCurrent()
      modifies this
      ensures View() == old(View()).(current := None)
    {
      currentId := None;
    }

    method FinishRequest(id: Option<int>)
      modifies this
      ensures View() == Finish(old(View()), id)
    {
      if id.None? {
        return;
      }
      pending := RemoveFirst(pending, id.value);
      records := records - {id.value};
      if currentId == id {
        currentId := None;
      }
    }
  }

  /** The three wrappers around one queue, with the hub's log of events.  The
      wrapped queue is held as its abstract value. */
  class MonitoredStack {
    const tracker: TXRequestTracker
    var queue: Queue
    var log: seq<Event>

    constructor (capacity: nat, lifetime: real)
      ensures fresh(tracker) && tracker.View() == Tracker([], map[], None)
      ensures queue == NewQueue(capacity, lifetime) && log == []
    {
      tracker := new TXRequestTracker();
      queue := NewQueue(capacity, lifetime);
      log := [];
    }

    method EnqueueFrame(body: Bytes, context: Context, now: real) returns (r: Result<Receipt, QueueError>)
      modifies this, tracker
      ensures (queue, r) == Enqueue(old(queue), body, context, now)
      ensures (tracker.View(), log) == AfterPut(old(tracker.View()), old(log), body, r)
    {
      hide Enqueue;
      var (q, result) := Enqueue(queue, body, context, now);
      queue, r := q, result;
      if r.Err? {
        return;
      }
      var record := tracker.AddReceipt(r.value, body);
      log := log + [Event(TxQueued, Some(record))];
    }

    /** The router's wrapper: it publishes only after the router accepted. */
    method RouterSubmit(outcome: Outcome) returns (ok: bool)
      modifies this`log
      ensures ok == !outcome.RouterFailed?
      ensures log == old(log) + if ok then [Event(TxDispatched, Current(tracker.View()))] else []
    {
      if outcome.RouterFailed? {
        return false;
      }
      var record := tracker.CurrentRecord();
      log := log + [Event(TxDispatched, record)];
      ok := true;
    }

    /** The lifecycle's wrapper around the half-duplex cycle, which calls the
        router and then restores reception. */
    method LifecycleSubmit(outcome: Outcome) returns (ok: bool)
      modifies this`log
      ensures ok == outcome.Completed?
      ensures log == old(log) + Publish(SubmissionKinds(outcome), Current(tracker.View()))
    {
      var record := tracker.CurrentRecord();
      log := log + [Event(TxChannelClear, record)];
      var routed := RouterSubmit(outcome);
      ok := routed && outcome.Completed?;
      log := log + [Event(if ok then TxComplete else TxFailed, record)];
    }

    /** The outer error is the tracker's: the queue was not reached. */
    method ObserveRssi(now: real, raw: int, source: RandomSource, outcome: Outcome)
        returns (r: Result<Result<QueueObservation, QueueError>, TrackerError>)
      modifies this, tracker
      ensures r.Err? == Begin(old(tracker.View()), raw).1.Err?
      ensures r.Err? ==> queue == old(queue) && log == old(log) && tracker.View() == old(tracker.View())
      ensures r.Ok? ==>
                && (queue, r.value) == ObserveQueue(old(queue), now, raw, source, outcome.Completed?)
                && var (t, fields) := Begin(old(tracker.View()), raw);
                   (tracker.View(), log) == AfterLook(t, old(log), fields.value, r.value, outcome)
    {
      hide ObserveQueue, Finish, Publish, ObservedKinds;
      var record := tracker.BeginObservation(raw);
      if record.Err? {
        return Err(record.error);
      }
      var (q, result) := ObserveQueue(queue, now, raw, source, outcome.Completed?);
      PublishObserved(result, outcome, record.value);
      queue := q;
      if Ended(result) {
        tracker.FinishRequest(result.value.id);
      }
      tracker.ClearCurrent();
      r := Ok(result);
    }

    /** The events of one observation: those of its submission while the queue
        runs, then the timeout. */
    method PublishObserved(result: Result<QueueObservation, QueueError>, outcome: Outcome, record: Option<Record>)
      requires record == Current(tracker.View())
      modifies this`log
      ensures log == old(log) + Publish(ObservedKinds(result, outcome), record)
    {
      hide Current;
      if result.Ok? {
        if result.value.downstreamCalled {
          var ok := LifecycleSubmit(outcome);
        }
        if result.value.state == Some(Expired) {
          log := log + [Event(TxTimeout, record)];
        }
      }
    }
  }
}
