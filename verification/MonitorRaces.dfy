/** The transmit monitor without serialised calls.  The wrapped queue has its own
    lock and so does the tracker, but nothing spans the two: a producer's request
    is in the queue before the tracker knows of it, and an observation may end it
    and tell the tracker so in between.  The tracker agrees with the queue in
    exactly the runs in which that does not happen; a request it happens to is
    never got rid of. */
module MonitorRaces {
  import opened Primitives
  import opened Control
  import opened ChannelAccess
  import opened AdmissionQueue
  import QueueRuns
  import opened Monitor

  /** How far the consumer's observation has come, with what it holds. */
  datatype Look =
    | Resting
    | Begun(raw: int, fields: Option<Record>)
    | Observed(r: Result<QueueObservation, QueueError>, fields: Option<Record>)

  /** `untracked` are the requests whose producers have not reached the tracker. */
  datatype Shared = Shared(w: QueueRuns.World, tracker: Tracker, log: seq<Event>,
                           untracked: map<int, Record>, look: Look)

  datatype Move =
    | Admit(body: Bytes, context: Context, now: real)
    | Track(id: int)
    | BeginLook(raw: int)
    | Consult(now: real, source: RandomSource, outcome: Outcome)
    | EndLook

  function Fresh(capacity: nat, lifetime: real): Shared {
    Shared(QueueRuns.Start(capacity, lifetime), Tracker([], map[], None), [], map[], Resting)
  }

  /** One step of a producer or of the consumer; one that is not enabled changes
      nothing. */
  function Do(s: Shared, m: Move): Shared {
    match m
    case Admit(body, context, now) =>
      var r := Enqueue(s.w.q, body, context, now).1;
      s.(w := QueueRuns.Next(s.w, QueueRuns.Admit(body, context, now)),
         untracked := if r.Ok? then s.untracked[r.value.id := RecordOf(r.value, body)] else s.untracked)
    case Track(id) =>
      if id !in s.untracked then s else
        s.(tracker := Add(s.tracker, s.untracked[id]), log := s.log + [Event(TxQueued, Some(s.untracked[id]))],
           untracked := s.untracked - {id})
    case BeginLook(raw) =>
      var (t, fields) := Begin(s.tracker, raw);
      if !s.look.Resting? || fields.Err? then s else s.(tracker := t, look := Begun(raw, fields.value))
    case Consult(now, source, outcome) =>
      if !s.look.Begun? then s else
        var r := ObserveQueue(s.w.q, now, s.look.raw, source, outcome.Completed?).1;
        var called := r.Ok? && r.value.downstreamCalled;
        s.(w := QueueRuns.Next(s.w, QueueRuns.Sampled(now, s.look.raw, source, outcome.Completed?)),
           log := s.log + (if called then Publish(SubmissionKinds(outcome), Current(s.tracker)) else []),
           look := Observed(r, s.look.fields))
    case EndLook =>
      if !s.look.Observed? then s else
        var r := s.look.r;
        var t := if Ended(r) then Finish(s.tracker, r.value.id) else s.tracker;
        s.(tracker := t.(current := None),
           log := s.log + (if r.Ok? && r.value.state == Some(Expired) then [Event(TxTimeout, s.look.fields)] else []),
           look := Resting)
  }

  function DoAll(s: Shared, moves: seq<Move>): Shared
    decreases |moves|
  {
    if moves == [] then s else DoAll(Do(s, moves[0]), moves[1..])
  }

  /** The request that left the queue in the observation under way. */
  function Ending(s: Shared): Option<int> { if s.look.Observed? && Ended(s.look.r) then s.look.r.value.id else None }

  /** The tracker is told to finish a request that its producer has yet to track;
      it passes over it in silence. */
  predicate Overtakes(s: Shared, m: Move) { m.EndLook? && Ending(s).Some? && Ending(s).value in s.untracked }

  predicate NeverOvertakes(s: Shared, moves: seq<Move>)
    decreases |moves|
  {
    moves == [] || (!Overtakes(s, moves[0]) && NeverOvertakes(Do(s, moves[0]), moves[1..]))
  }

  // ---- The tracker is exact

  ghost predicate Distinct(s: seq<int>) { forall i, j :: 0 <= i < j < |s| ==> s[i] != s[j] }

  /** A request in the queue, or the one just ending. */
  predicate Live(s: Shared, id: int) { |s.w.finished| < id < s.w.q.nextId || Ending(s) == Some(id) }

  ghost predicate OneRecordEach(t: Tracker) {
    Distinct(t.pending) && forall id :: id in t.records <==> id in t.pending
  }

  /** Each live request is in the tracker or still with its producer, not both;
      nothing else is; and the records are those of the tracked ones. */
  ghost predicate Exact(s: Shared) {
    && QueueRuns.WorldOk(s.w) && OneRecordEach(s.tracker)
    && (forall id <- s.untracked :: s.untracked[id].id == id && id !in s.tracker.records)
    && (forall id :: id in s.tracker.records || id in s.untracked <==> Live(s, id))
    && (Ending(s).Some? ==> Ending(s).value == |s.w.finished|)
  }

  lemma AdmitExact(s: Shared, m: Move)
    requires Exact(s) && m.Admit?
    ensures Exact(Do(s, m))
  {
    hide QueueRuns.WorldOk, Enqueue, Ended, OneRecordEach;
    QueueRuns.NextOk(s.w, QueueRuns.Admit(m.body, m.context, m.now));
    Numbering(s.w);
    EnqueueNumbers(s.w.q, m.body, m.context, m.now);
    assert !Live(s, s.w.q.nextId);
    var s' := Do(s, m);
    assert forall id :: Live(s', id) <==> Live(s, id) || (s'.w.q.nextId > s.w.q.nextId && id == s.w.q.nextId);
  }

  lemma EnqueueNumbers(q: Queue, body: Bytes, context: Context, now: real)
    ensures var (q', r) := Enqueue(q, body, context, now);
            (r.Ok? ==> r.value.id == q.nextId) && q'.nextId == q.nextId + (if r.Ok? then 1 else 0)
  {
    hide Fcs.AppendFcs, Ax25.ParseFrame;
  }

  lemma AddOneRecord(t: Tracker, r: Record)
    requires OneRecordEach(t) && r.id !in t.records
    ensures OneRecordEach(Add(t, r)) && Add(t, r).records.Keys == t.records.Keys + {r.id}
  {
    assert Add(t, r).pending[|t.pending|] == r.id;
    forall id <- t.pending ensures id in Add(t, r).pending {
      var i :| 0 <= i < |t.pending| && t.pending[i] == id;
      assert Add(t, r).pending[i] == id;
    }
  }

  lemma TrackExact(s: Shared, m: Move)
    requires Exact(s) && m.Track?
    ensures Exact(Do(s, m))
  {
    hide QueueRuns.WorldOk, Ended, OneRecordEach, Add, Live;
    if m.id in s.untracked {
      AddOneRecord(s.tracker, s.untracked[m.id]);
      SameLive(s, Do(s, m));
    }
  }

  lemma SameLive(s: Shared, s': Shared)
    requires s'.w == s.w && Ending(s') == Ending(s)
    ensures forall id :: Live(s', id) == Live(s, id)
  {
  }

  lemma BeginExact(s: Shared, m: Move)
    requires Exact(s) && m.BeginLook?
    ensures Exact(Do(s, m))
  {
    hide QueueRuns.WorldOk, Ended, Distinct, Live;
    SameLive(s, Do(s, m));
  }

  /** What the consumer's call on the queue changes. */
  lemma ConsultShape(s: Shared, m: Move)
    requires QueueRuns.WorldOk(s.w) && m.Consult? && s.look.Begun?
    ensures var s' := Do(s, m);
            && QueueRuns.WorldOk(s'.w) && s'.tracker == s.tracker && s'.untracked == s.untracked
            && s'.w.q.nextId == s.w.q.nextId
            && (Ending(s').None? ==> |s'.w.finished| == |s.w.finished|)
            && (Ending(s').Some? ==> Ending(s').value == |s'.w.finished| == |s.w.finished| + 1 < s.w.q.nextId)
  {
    hide QueueRuns.WorldOk, ObserveQueue, QueueRuns.Takes, SubmissionKinds, Current, Publish, SameRequests;
    QueueRuns.NextOk(s.w, QueueRuns.Sampled(m.now, s.look.raw, m.source, m.outcome.Completed?));
    Numbering(s.w);
    ObserveShape(s.w.q, m.now, s.look.raw, m.source, m.outcome.Completed?);
  }

  lemma ConsultExact(s: Shared, m: Move)
    requires Exact(s) && m.Consult?
    ensures Exact(Do(s, m))
  {
    hide QueueRuns.WorldOk, Do, OneRecordEach, Ending;
    if s.look.Begun? {
      ConsultShape(s, m);
      assert Ending(s).None? by { BegunEndsNothing(s); }
    } else {
      assert Do(s, m) == s by { NotBegun(s, m); }
    }
  }

  lemma BegunEndsNothing(s: Shared)
    requires s.look.Begun?
    ensures Ending(s).None?
  {
  }

  lemma NotBegun(s: Shared, m: Move)
    requires m.Consult? && !s.look.Begun?
    ensures Do(s, m) == s
  {
  }

  lemma {:induction false} RemoveFirstDistinct(s: seq<int>, x: int)
    requires Distinct(s)
    ensures var t := RemoveFirst(s, x); Distinct(t) && forall y :: y in t <==> y in s && y != x
  {
    if s != [] {
      assert s == [s[0]] + s[1..];
      RemoveFirstDistinct(s[1..], x);
      if s[0] != x {
        var t := RemoveFirst(s[1..], x);
        assert RemoveFirst(s, x) == [s[0]] + t;
        assert s[0] !in s[1..];
      }
    }
  }

  lemma EndExact(s: Shared, m: Move)
    requires Exact(s) && m.EndLook? && !Overtakes(s, m)
    ensures Exact(Do(s, m))
  {
    hide QueueRuns.WorldOk, Distinct, RemoveFirst;
    if Ending(s).Some? {
      RemoveFirstDistinct(s.tracker.pending, Ending(s).value);
    }
  }

  lemma MoveExact(s: Shared, m: Move)
    requires Exact(s) && !Overtakes(s, m)
    ensures Exact(Do(s, m))
  {
    hide Exact, Do;
    match m
    case Admit(_, _, _) => AdmitExact(s, m);
    case Track(_) => TrackExact(s, m);
    case BeginLook(_) => BeginExact(s, m);
    case Consult(_, _, _) => ConsultExact(s, m);
    case EndLook => EndExact(s, m);
  }

  lemma {:induction false} RunExact(s: Shared, moves: seq<Move>)
    requires Exact(s) && NeverOvertakes(s, moves)
    ensures Exact(DoAll(s, moves))
    decreases |moves|
  {
    hide Exact, Do, Overtakes;
    if moves != [] {
      MoveExact(s, moves[0]);
      RunExact(Do(s, moves[0]), moves[1..]);
    }
  }

  lemma FreshExact(capacity: nat, lifetime: real)
    requires capacity >= 1 && lifetime > 0.0
    ensures Exact(Fresh(capacity, lifetime)) && InOrder(Fresh(capacity, lifetime))
  {
    QueueRuns.StartOk(capacity, lifetime);
  }

  predicate InQueue(q: Queue, id: int) { exists i :: 0 <= i < |q.pending| && q.pending[i].receipt.id == id }

  lemma QueueHolds(w: QueueRuns.World, id: int)
    requires QueueRuns.WorldOk(w)
    ensures InQueue(w.q, id) <==> |w.finished| < id < w.q.nextId
  {
    hide QueueRuns.WorldOk;
    Numbering(w);
    if |w.finished| < id < w.q.nextId {
      assert w.q.pending[id - |w.finished| - 1].receipt.id == id;
    }
  }

  // ---- The tracker is in order

  /** Producers reach the tracker in the order of their admissions. */
  predicate InTurn(s: Shared, m: Move) { m.Track? && m.id in s.untracked ==> forall id <- s.untracked :: m.id <= id }

  predicate AllInTurn(s: Shared, moves: seq<Move>)
    decreases |moves|
  {
    moves == [] || (InTurn(s, moves[0]) && AllInTurn(Do(s, moves[0]), moves[1..]))
  }

  /** The lowest number of a live request. */
  function Lowest(s: Shared): int { |s.w.finished| + if Ending(s).Some? then 0 else 1 }

  ghost predicate InOrder(s: Shared) {
    forall i :: 0 <= i < |s.tracker.pending| ==> s.tracker.pending[i] == Lowest(s) + i
  }

  lemma MoveInOrder(s: Shared, m: Move)
    requires Exact(s) && InOrder(s) && !Overtakes(s, m) && InTurn(s, m)
    ensures InOrder(Do(s, m))
  {
    hide QueueRuns.WorldOk, ObserveQueue, Enqueue, Ended, OneRecordEach;
    match m
    case Track(id) => if id in s.untracked { NextInTurn(s, id); }
    case Consult(_, _, _) => if s.look.Begun? { ConsultShape(s, m); }
    case EndLook => if Ending(s).Some? && Ending(s).value !in s.untracked { LowestFirst(s); }
    case _ =>
  }

  lemma NextInTurn(s: Shared, id: int)
    requires Exact(s) && InOrder(s) && id in s.untracked && forall o <- s.untracked :: id <= o
    ensures id == Lowest(s) + |s.tracker.pending|
  {
    hide QueueRuns.WorldOk, Ended, Distinct;
    var n := |s.tracker.pending|;
    TrackedInterval(s, id);
    TrackedInterval(s, Lowest(s) + n);
    assert Live(s, id);
    assert Lowest(s) <= id;
    assert Live(s, Lowest(s) + n);
  }

  /** And tracking out of turn puts the tracker out of order at once. */
  lemma OutOfTurnBreaksOrder(s: Shared, id: int)
    requires Exact(s) && InOrder(s) && id in s.untracked && !InTurn(s, Track(id))
    ensures !InOrder(Do(s, Track(id)))
  {
    hide QueueRuns.WorldOk, Ended, Distinct;
    var n, t := |s.tracker.pending|, Do(s, Track(id));
    var o :| o in s.untracked && o < id;
    TrackedInterval(s, o);
    assert Live(s, o) && t.tracker.pending[n] == id;
  }

  lemma TrackedInterval(s: Shared, id: int)
    requires InOrder(s)
    ensures id in s.tracker.pending <==> Lowest(s) <= id < Lowest(s) + |s.tracker.pending|
  {
    if Lowest(s) <= id < Lowest(s) + |s.tracker.pending| {
      assert s.tracker.pending[id - Lowest(s)] == id;
    }
  }

  lemma LowestFirst(s: Shared)
    requires Exact(s) && InOrder(s) && Ending(s).Some? && Ending(s).value !in s.untracked
    ensures s.tracker.pending != [] && s.tracker.pending[0] == Ending(s).value
  {
    hide QueueRuns.WorldOk, Ended, Distinct;
    assert Live(s, Ending(s).value);
  }

  lemma {:induction false} RunInOrder(s: Shared, moves: seq<Move>)
    requires Exact(s) && InOrder(s) && NeverOvertakes(s, moves) && AllInTurn(s, moves)
    ensures Exact(DoAll(s, moves)) && InOrder(DoAll(s, moves))
    decreases |moves|
  {
    hide Exact, InOrder, Do, Overtakes, InTurn;
    if moves != [] {
      MoveExact(s, moves[0]);
      MoveInOrder(s, moves[0]);
      RunInOrder(Do(s, moves[0]), moves[1..]);
    }
  }

  /** If producers also track in admission order, the tracker lists the oldest
      requests of the queue in the queue's order; so an observation that finds
      the tracker non-empty is labelled with the queue's head. */
  lemma TrackerIsInOrder(capacity: nat, lifetime: real, moves: seq<Move>)
    requires capacity >= 1 && lifetime > 0.0
    requires NeverOvertakes(Fresh(capacity, lifetime), moves) && AllInTurn(Fresh(capacity, lifetime), moves)
    ensures var s := DoAll(Fresh(capacity, lifetime), moves);
            s.look.Resting? ==>
              && |s.tracker.pending| + |s.untracked| == |s.w.q.pending|
              && forall i :: 0 <= i < |s.tracker.pending| ==> s.tracker.pending[i] == s.w.q.pending[i].receipt.id
  {
    hide QueueRuns.WorldOk, Do, DoAll, NeverOvertakes, AllInTurn;
    FreshExact(capacity, lifetime);
    RunInOrder(Fresh(capacity, lifetime), moves);
    var s := DoAll(Fresh(capacity, lifetime), moves);
    Numbering(s.w);
    if s.look.Resting? {
      UntrackedAreTheRest(s);
    }
  }

  lemma UntrackedAreTheRest(s: Shared)
    requires Exact(s) && InOrder(s) && s.look.Resting?
    ensures |s.tracker.pending| + |s.untracked| == s.w.q.nextId - |s.w.finished| - 1
  {
    hide QueueRuns.WorldOk, Distinct;
    var from := |s.w.finished| + 1 + |s.tracker.pending|;
    Numbering(s.w);
    if s.tracker.pending != [] {
      TrackedInterval(s, from - 1);
      assert Live(s, from - 1);
    }
    forall id ensures id in s.untracked <==> id in Interval(from, s.w.q.nextId) {
      TrackedInterval(s, id);
      assert id in s.tracker.records || id in s.untracked <==> Live(s, id);
    }
    assert s.untracked.Keys == Interval(from, s.w.q.nextId);
  }

  function Interval(a: int, b: int): (r: set<int>)
    requires a <= b
    ensures |r| == b - a && forall x :: x in r <==> a <= x < b
    decreases b - a
  {
    if a == b then {} else Interval(a, b - 1) + {b - 1}
  }

  // ---- A request that was overtaken

  /** The tracker holds a request that has left the queue. */
  ghost predicate Leaked(s: Shared, id: int) {
    id in s.tracker.pending && id in s.tracker.records && id <= |s.w.finished| && Ending(s) != Some(id)
  }

  lemma {:induction false} RemoveOther(s: seq<int>, x: int, y: int)
    requires x in s && x != y
    ensures x in RemoveFirst(s, y) && (s[0] == x ==> RemoveFirst(s, y) != [] && RemoveFirst(s, y)[0] == x)
  {
    if s[0] != x && s[0] != y {
      RemoveOther(s[1..], x, y);
    }
  }

  lemma MoveLeaked(s: Shared, m: Move, id: int)
    requires QueueRuns.WorldOk(s.w) && Leaked(s, id)
    ensures QueueRuns.WorldOk(Do(s, m).w) && Leaked(Do(s, m), id)
  {
    hide QueueRuns.WorldOk, ObserveQueue, Enqueue, RemoveFirst;
    match m
    case Admit(body, context, now) => QueueRuns.NextOk(s.w, QueueRuns.Admit(body, context, now));
    case Consult(_, _, _) => if s.look.Begun? { ConsultShape(s, m); }
    case EndLook => if Ending(s).Some? { RemoveOther(s.tracker.pending, id, Ending(s).value); }
    case _ =>
  }

  /** A request that has left the queue, but not the tracker or its producer. */
  ghost predicate Stray(s: Shared, id: int) {
    && id <= |s.w.finished| && Ending(s) != Some(id)
    && ((id in s.untracked && s.untracked[id].id == id) || Leaked(s, id))
  }

  lemma MoveStray(s: Shared, m: Move, id: int)
    requires QueueRuns.WorldOk(s.w) && Stray(s, id)
    ensures QueueRuns.WorldOk(Do(s, m).w) && Stray(Do(s, m), id) && (m == Track(id) ==> Leaked(Do(s, m), id))
  {
    hide QueueRuns.WorldOk, ObserveQueue, Enqueue, RemoveFirst;
    if Leaked(s, id) {
      MoveLeaked(s, m, id);
    } else {
      match m
      case Admit(body, context, now) =>
        QueueRuns.NextOk(s.w, QueueRuns.Admit(body, context, now));
        Numbering(s.w);
        EnqueueNumbers(s.w.q, body, context, now);
      case Track(i) => if i == id { TrackedStray(s, id); }
      case Consult(_, _, _) => if s.look.Begun? { ConsultShape(s, m); }
      case _ =>
    }
  }

  lemma TrackedStray(s: Shared, id: int)
    requires id <= |s.w.finished| && Ending(s) != Some(id) && id in s.untracked && s.untracked[id].id == id
    ensures Leaked(Do(s, Track(id)), id)
  {
    hide Ended;
    var t := Do(s, Track(id));
    assert t.tracker.pending[|s.tracker.pending|] == id;
  }

  /** Once stray, always stray; and leaked as soon as it is tracked. */
  lemma {:induction false} StrayStays(s: Shared, moves: seq<Move>, id: int)
    requires QueueRuns.WorldOk(s.w) && Stray(s, id)
    ensures var t := DoAll(s, moves);
            QueueRuns.WorldOk(t.w) && Stray(t, id) && (Leaked(s, id) || Track(id) in moves ==> Leaked(t, id))
    decreases |moves|
  {
    hide QueueRuns.WorldOk, Leaked, Stray, Do;
    if moves != [] {
      MoveStray(s, moves[0], id);
      StrayStays(Do(s, moves[0]), moves[1..], id);
      if Leaked(s, id) {
        MoveLeaked(s, moves[0], id);
      }
    }
  }

  lemma OvertakenIsStray(s: Shared, m: Move)
    requires Exact(s) && Overtakes(s, m)
    ensures QueueRuns.WorldOk(Do(s, m).w) && Stray(Do(s, m), Ending(s).value)
  {
    hide QueueRuns.WorldOk, Ended, RemoveFirst, OneRecordEach, Live;
  }

  lemma StrayDisagrees(s: Shared, id: int)
    requires QueueRuns.WorldOk(s.w) && Stray(s, id)
    ensures !Agrees(s) && !Exact(s)
  {
    hide QueueRuns.WorldOk, InQueue, Distinct;
    QueueHolds(s.w, id);
    assert !Live(s, id);
  }

  /** A request whose finish came before its tracking is never got rid of,
      whatever happens next: it stays with its producer, is leaked from the moment
      its producer tracks it, and the tracker never agrees with the queue again. */
  lemma OvertakenLeaks(s: Shared, m: Move, moves: seq<Move>)
    requires Exact(s) && Overtakes(s, m)
    ensures var id, t := Ending(s).value, DoAll(Do(s, m), moves);
            Stray(t, id) && (Track(id) in moves ==> Leaked(t, id)) && !Agrees(t) && !Exact(t)
  {
    hide QueueRuns.WorldOk, DoAll, Do, Exact, Agrees, Stray, Leaked;
    OvertakenIsStray(s, m);
    StrayStays(Do(s, m), moves, Ending(s).value);
    StrayDisagrees(DoAll(Do(s, m), moves), Ending(s).value);
  }

  /** A run that overtakes leaves a stray request behind. */
  lemma {:induction false} RunStrays(s: Shared, moves: seq<Move>) returns (id: int)
    requires Exact(s) && !NeverOvertakes(s, moves)
    ensures QueueRuns.WorldOk(DoAll(s, moves).w) && Stray(DoAll(s, moves), id)
    decreases |moves|
  {
    hide QueueRuns.WorldOk, Exact, Do, Stray, Overtakes;
    var s1 := Do(s, moves[0]);
    if Overtakes(s, moves[0]) {
      OvertakenIsStray(s, moves[0]);
      id := EndingOf(s, moves[0]);
      StrayStays(s1, moves[1..], id);
    } else {
      MoveExact(s, moves[0]);
      id := RunStrays(s1, moves[1..]);
    }
  }

  lemma EndingOf(s: Shared, m: Move) returns (id: int)
    requires Overtakes(s, m)
    ensures Ending(s) == Some(id)
  {
    id := Ending(s).value;
  }

  // ---- When the tracker agrees with the queue

  /** A request is in the queue if and only if the tracker or its producer holds
      it, never both; and the tracker lists each once, with exactly one record. */
  ghost predicate Agrees(s: Shared) {
    && (forall id :: id in s.tracker.pending || id in s.untracked <==> InQueue(s.w.q, id))
    && (forall id <- s.tracker.pending :: id !in s.untracked)
    && Distinct(s.tracker.pending) && (forall id :: id in s.tracker.records <==> id in s.tracker.pending)
  }

  /** With any number of producers and any interleaving: between observations the
      tracker agrees with the queue if and only if it was never told to finish a
      request before that request was tracked. */
  lemma TrackerIsExact(capacity: nat, lifetime: real, moves: seq<Move>)
    requires capacity >= 1 && lifetime > 0.0
    ensures var s0 := Fresh(capacity, lifetime);
            DoAll(s0, moves).look.Resting? ==> (Agrees(DoAll(s0, moves)) <==> NeverOvertakes(s0, moves))
  {
    hide QueueRuns.WorldOk, Do, DoAll, NeverOvertakes, InOrder, Exact, Agrees;
    var s0 := Fresh(capacity, lifetime);
    FreshExact(capacity, lifetime);
    var s := DoAll(s0, moves);
    if s.look.Resting? {
      if NeverOvertakes(s0, moves) {
        RunExact(s0, moves);
        ExactAgrees(s);
      } else {
        var id := RunStrays(s0, moves);
        StrayDisagrees(s, id);
      }
    }
  }

  lemma ExactAgrees(s: Shared)
    requires Exact(s) && s.look.Resting?
    ensures Agrees(s)
  {
    hide QueueRuns.WorldOk, InQueue;
    forall id ensures id in s.tracker.pending || id in s.untracked <==> InQueue(s.w.q, id) {
      QueueHolds(s.w, id);
      assert id in s.tracker.records || id in s.untracked <==> Live(s, id);
    }
  }

  // ---- What a leaked request does to the events

  predicate Labels(fields: Option<Record>, id: int) { fields.Some? && fields.value.id == id }

  /** A leaked request heads the tracker, and the observation under way, if any,
      is labelled with it. */
  ghost predicate Heads(s: Shared, id: int) {
    && Leaked(s, id) && s.tracker.pending[0] == id && s.tracker.records[id].id == id
    && (forall o <- s.untracked :: s.untracked[o].id != id)
    && (!s.look.Resting? ==> Labels(s.look.fields, id) && s.tracker.current == Some(id))
  }

  /** Everything published since, admissions apart, is labelled with `id`. */
  ghost predicate AllLabelled(log: seq<Event>, log': seq<Event>, id: int) {
    log <= log' && forall i :: |log| <= i < |log'| ==> log'[i].kind == TxQueued || Labels(log'[i].fields, id)
  }

  lemma MoveHeads(s: Shared, m: Move, id: int)
    requires QueueRuns.WorldOk(s.w) && Heads(s, id)
    ensures Heads(Do(s, m), id) && AllLabelled(s.log, Do(s, m).log, id)
  {
    hide QueueRuns.WorldOk, ObserveQueue, Enqueue, RemoveFirst, Ended, QueueRuns.Takes, SubmissionKinds;
    MoveLeaked(s, m, id);
    match m
    case Admit(body, context, now) =>
      EnqueueNumbers(s.w.q, body, context, now);
      Numbering(s.w);
    case EndLook =>
      if Ending(s).Some? { RemoveOther(s.tracker.pending, id, Ending(s).value); }
    case _ =>
  }

  /** From then on every event about the channel or a transmission, whichever
      request it concerns, carries the fields of the leaked one. */
  lemma {:induction false} LeakedHeadLabelsEverything(s: Shared, moves: seq<Move>, id: int)
    requires QueueRuns.WorldOk(s.w) && Heads(s, id)
    ensures AllLabelled(s.log, DoAll(s, moves).log, id)
    decreases |moves|
  {
    hide QueueRuns.WorldOk, Heads, Do;
    if moves != [] {
      var s1 := Do(s, moves[0]);
      MoveHeads(s, moves[0], id);
      assert QueueRuns.WorldOk(s1.w) by { StillLeaked(s, moves[0], id); }
      LeakedHeadLabelsEverything(s1, moves[1..], id);
    }
  }

  lemma StillLeaked(s: Shared, m: Move, id: int)
    requires QueueRuns.WorldOk(s.w) && Heads(s, id)
    ensures QueueRuns.WorldOk(Do(s, m).w)
  {
    hide QueueRuns.WorldOk, Do;
    MoveLeaked(s, m, id);
  }

  /** Such a state is reached: a request that expires before its producer has
      tracked it. */
  function LateTracking(body: Bytes, context: Context, lifetime: real): seq<Move> {
    [Admit(body, context, 0.0), BeginLook(0), Consult(lifetime, NoSource, Completed), EndLook, Track(1)]
  }

  lemma LateTrackingLeaks(capacity: nat, lifetime: real, body: Bytes, context: Context, moves: seq<Move>)
    requires capacity >= 1 && lifetime > 0.0 && Ax25.ParseFrame(body, false).Ok?
    ensures var s := DoAll(Fresh(capacity, lifetime), LateTracking(body, context, lifetime));
            && Heads(s, 1) && s.w.q.pending == [] && s.untracked == map[]
            && AllLabelled(s.log, DoAll(s, moves).log, 1)
  {
    hide Fcs.AppendFcs, Ax25.ParseFrame, QueueRuns.WorldOk;
    var steps := LateTracking(body, context, lifetime);
    var s0 := Fresh(capacity, lifetime);
    var s1 := Do(s0, steps[0]);
    var s2 := Do(s1, steps[1]);
    var s3 := Do(s2, steps[2]);
    var s4 := Do(s3, steps[3]);
    var s := Do(s4, steps[4]);
    assert s1.w.q.pending[0].receipt.deadline == lifetime && s2.look == Begun(0, None);
    assert Ending(s3) == Some(1) && |s3.w.finished| == 1 && s3.w.q.pending == [];
    assert s4.tracker == Tracker([], map[], None) && s4.untracked.Keys == {1};
    DoFive(s0, steps);
    QueueRuns.StartOk(capacity, lifetime);
    QueueRuns.NextOk(s0.w, QueueRuns.Admit(body, context, 0.0));
    QueueRuns.NextOk(s1.w, QueueRuns.Sampled(lifetime, 0, NoSource, true));
    LeakedHeadLabelsEverything(s, moves, 1);
  }

  lemma DoFive(s: Shared, m: seq<Move>)
    requires |m| == 5
    ensures DoAll(s, m) == Do(Do(Do(Do(Do(s, m[0]), m[1]), m[2]), m[3]), m[4])
  {
    hide Do;
    var s1 := Do(s, m[0]);
    var s2 := Do(s1, m[1]);
    var s3 := Do(s2, m[2]);
    assert DoAll(s2, m[2..]) == DoAll(s3, m[3..]);
    assert DoAll(s3, m[3..]) == DoAll(Do(s3, m[3]), m[4..]);
    assert DoAll(Do(s3, m[3]), m[4..]) == Do(Do(s3, m[3]), m[4]);
  }
}
