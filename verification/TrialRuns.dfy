/** Persistence trials over whole runs of the admission queue: when one is
    drawn, how far apart two of one request are, and how long after a failed one
    the submitter may be called. */
module TrialRuns {
  import opened Primitives
  import opened ChannelAccess
  import opened AdmissionQueue
  import opened QueueRuns
  import Control
  import Fcs
  import Ax25
  import opened Trials

  /** The queue's world with the byte drawn on each sample. */
  datatype Traced = Traced(w: World, draws: seq<Draw>)

  function ByteIn(r: Result<QueueObservation, QueueError>): Option<int> {
    if r.Ok? && r.value.access.Some? then r.value.access.value.random else None
  }

  function Entry(head: Request, now: real, raw: int, byte: Option<int>): Draw {
    Draw(now, raw, byte, head.receipt.id, SlotSeconds(head.context.csma), head.context.csma.persist)
  }

  function Step(t: Traced, e: Event): Traced {
    if e.Sampled? && Takes(t.w.q, e.now, e.raw) then
      var r := ObserveQueue(t.w.q, e.now, e.raw, e.source, e.submitOk).1;
      Traced(Next(t.w, e), t.draws + [Entry(t.w.q.pending[0], e.now, e.raw, ByteIn(r))])
    else Traced(Next(t.w, e), t.draws)
  }

  function Steps(t: Traced, es: seq<Event>): Traced
    decreases |es|
  {
    if es == [] then t else Steps(Step(t, es[0]), es[1..])
  }

  function Begin(capacity: nat, lifetime: real): Traced { Traced(Start(capacity, lifetime), []) }

  lemma {:induction false} StepsRun(t: Traced, es: seq<Event>)
    ensures Steps(t, es).w == Run(t.w, es)
    decreases |es|
  {
    hide Next, Takes, ObserveQueue;
    if es != [] {
      StepsRun(Step(t, es[0]), es[1..]);
    }
  }

  // ---- Invariant

  /** Entries from `f` on are the request's, and no earlier one is. */
  ghost predicate OwnFrom(draws: seq<Draw>, f: int, id: int, slot: real, persist: int) {
    && 0 <= f <= |draws|
    && (forall k :: f <= k < |draws| ==> draws[k].id == id && draws[k].slot == slot && draws[k].persist == persist)
    && (forall k :: 0 <= k < f ==> draws[k].id < id)
  }

  /** The trial drawn with entry `n` was due by the entries of its request. */
  ghost predicate Proper(draws: seq<Draw>, n: int) {
    0 <= n < |draws| && exists f :: ProperFrom(draws, f, n)
  }

  ghost predicate ProperFrom(draws: seq<Draw>, f: int, n: int) {
    && 0 <= f <= n < |draws| && OwnFrom(draws[..n], f, draws[n].id, draws[n].slot, draws[n].persist)
    && TrialIsDue(draws[f..n], draws[n], draws[n].slot)
  }

  /** Every trial was due; one that another entry of its request follows failed. */
  ghost predicate TrialsOk(draws: seq<Draw>) {
    && (forall n :: 0 <= n < |draws| && draws[n].byte.Some? ==> Proper(draws, n))
    && (forall m, n :: 0 <= m < n < |draws| && draws[m].id == draws[n].id && draws[m].byte.Some? ==>
          draws[m].byte.value > draws[m].persist)
    && InOrder(draws)
  }

  /** The head's attempt stands where its entries say, and none of its trials
      has passed. */
  ghost predicate HeadLaw(head: Request, draws: seq<Draw>, f: int) {
    && OwnFrom(draws, f, head.receipt.id, SlotSeconds(head.context.csma), head.context.csma.persist)
    && (head.attempt.None? ==> f == |draws|)
    && (head.attempt.Some? ==>
          && AttemptLaw(head.attempt.value, draws[f..])
          && head.attempt.value.csma.parameters.persist == head.context.csma.persist
          && head.attempt.value.csma.parameters.slotTime10ms == head.context.csma.slotTime10ms)
    && (forall k :: f <= k < |draws| && draws[k].byte.Some? ==> draws[k].byte.value > draws[k].persist)
  }

  ghost predicate TracedOk(t: Traced) {
    && WorldOk(t.w) && TrialsOk(t.draws)
    && (forall k :: 0 <= k < |t.draws| ==> t.draws[k].at <= t.w.q.lastNow)
    && (t.w.q.pending == [] ==> forall k :: 0 <= k < |t.draws| ==> t.draws[k].id <= Finished(t.w.q))
    && (t.w.q.pending != [] ==> exists f :: HeadLaw(t.w.q.pending[0], t.draws, f))
  }

  lemma BeginOk(capacity: nat, lifetime: real)
    requires capacity >= 1 && lifetime > 0.0
    ensures TracedOk(Begin(capacity, lifetime))
  {
    StartOk(capacity, lifetime);
  }

  // ---- The head's answer

  /** What the queue makes of the head's attempt answering a sample. */
  lemma TakeShape(q: Queue, now: real, raw: int, source: RandomSource, ok: bool)
    requires Takes(q, now, raw)
    ensures var head := q.pending[0];
            var (a, r) := Observe(HeadAttempt(head, now), now, raw, source);
            var (q', answer) := ObserveQueue(q, now, raw, source, ok);
            && q'.lastNow == now && ByteIn(answer) == (if r.Ok? then r.value.random else None)
            && (r.Err? ==> answer == Err(AccessFailed(r.error)))
            && (r.Ok? ==> answer.Ok? && answer.value.access == Some(r.value))
            && (if r.Ok? && r.value.csma.state in {Ready, TimedOut}
                then q'.pending == q.pending[1..] && Finished(q') == Finished(q) + 1
                     && answer.value.state == Some(if r.value.csma.state == TimedOut then Expired
                                                   else if ok then Dispatched else DownstreamFailed)
                else q'.pending == q.pending[0 := head.(attempt := Some(a))] && Finished(q') == Finished(q)
                     && (answer.Ok? ==> answer.value.state == Some(Access)))
  {
    hide Observe, HeadAttempt;
  }

  /** The attempt about to be observed obeys the law of the head's entries. */
  lemma ReadyLaw(head: Request, draws: seq<Draw>, f: int, now: real)
    requires HeadLaw(head, draws, f) && now < head.receipt.deadline && f <= |draws|
    ensures var a := HeadAttempt(head, now);
            && AttemptLaw(a, draws[f..]) && a.csma.parameters.persist == head.context.csma.persist
            && a.csma.parameters.slotTime10ms == head.context.csma.slotTime10ms
  {
    hide AttemptLaw;
    if head.attempt.None? {
      assert draws[f..] == [];
      var captured := head.context.csma;
      NewAttemptLaw(now, Parameters(captured.persist, captured.slotTime10ms,
                                    Min(captured.maxWait, head.receipt.deadline - now)));
    }
  }

  lemma QueueIds(w: World)
    requires WorldOk(w)
    ensures w.q.pending != [] ==> w.q.pending[0].receipt.id == Finished(w.q) + 1
    ensures |w.q.pending| > 1 ==> w.q.pending[1].receipt.id == Finished(w.q) + 2 && w.q.pending[1].attempt.None?
  {
    hide LogOk, SubmissionsOk, HeadOk;
    if w.q.pending != [] { assert RequestOk(w.q, w.q.pending[0], Finished(w.q) + 1 + 0); }
    if |w.q.pending| > 1 { assert RequestOk(w.q, w.q.pending[1], Finished(w.q) + 1 + 1); }
  }

  // ---- One more entry

  lemma OwnGrows(draws: seq<Draw>, f: int, s: Draw)
    requires OwnFrom(draws, f, s.id, s.slot, s.persist)
    ensures OwnFrom(draws + [s], f, s.id, s.slot, s.persist) && (draws + [s])[f..] == draws[f..] + [s]
    ensures OwnFrom((draws + [s])[..|draws|], f, s.id, s.slot, s.persist)
  {
    assert (draws + [s])[..|draws|] == draws;
  }

  lemma ProperLater(draws: seq<Draw>, s: Draw, n: int)
    requires Proper(draws, n)
    ensures Proper(draws + [s], n)
  {
    hide TrialIsDue, OwnFrom;
    var f :| ProperFrom(draws, f, n);
    var more := draws + [s];
    assert more[..n] == draws[..n] && more[f..n] == draws[f..n] && more[n] == draws[n];
    assert ProperFrom(more, f, n);
  }

  lemma TrialsGrow(draws: seq<Draw>, f: int, s: Draw)
    requires TrialsOk(draws) && OwnFrom(draws, f, s.id, s.slot, s.persist)
    requires forall k :: 0 <= k < |draws| ==> draws[k].at <= s.at
    requires forall k :: f <= k < |draws| && draws[k].byte.Some? ==> draws[k].byte.value > draws[k].persist
    requires s.byte.Some? ==> TrialIsDue(draws[f..], s, s.slot)
    ensures TrialsOk(draws + [s])
  {
    hide TrialIsDue;
    var more, n := draws + [s], |draws|;
    assert forall k :: 0 <= k < n ==> more[k] == draws[k];
    forall k | 0 <= k < |more| && more[k].byte.Some? ensures Proper(more, k) {
      if k < n {
        ProperLater(draws, s, k);
      } else {
        OwnGrows(draws, f, s);
        assert more[f..n] == draws[f..];
        assert ProperFrom(more, f, n);
      }
    }
  }

  // ---- Steps that take a sample

  /** The entry a taken sample adds: its trial was due if it has one, and then
      its byte decided; and the head that waits on obeys the law of one more
      entry. */
  lemma TakenLaw(head: Request, draws: seq<Draw>, f: int, now: real, raw: int, source: RandomSource)
    requires HeadLaw(head, draws, f) && now < head.receipt.deadline
    requires Rejected(HeadAttempt(head, now).detector, now, raw).None?
    ensures var a0 := HeadAttempt(head, now);
            var (a, r) := Observe(a0, now, raw, source);
            var s := Entry(head, now, raw, if r.Ok? then r.value.random else None);
            var due := now < a0.csma.deadline && TrialIsDue(draws[f..], s, s.slot);
            && 0 <= f <= |draws|
            && (due && source == NoSource ==> r == Err(RandomRequired))
            && (due && source == Raises ==> r == Err(RandomSourceFailed))
            && (due && source.Yields? && !(0 <= source.byte <= 255) ==> r == Err(BadRandom))
            && (due && source.Yields? && 0 <= source.byte <= 255 ==>
                  r.Ok? && s.byte == Some(source.byte)
                  && r.value.csma.state == if source.byte <= s.persist then Ready else WaitSlot)
            && (!due ==> r.Ok? && s.byte.None? && r.value.csma.state != Ready
                         && (r.value.csma.state == TimedOut <==> now >= a0.csma.deadline))
            && (r.Err? || r.value.csma.state in {WaitClear, WaitSlot} ==>
                  HeadLaw(head.(attempt := Some(a)), draws + [s], f))
  {
    hide AttemptLaw, HeadAttempt, Observe, TrialIsDue, Rejected, ClearAfter;
    ReadyLaw(head, draws, f, now);
    AccessLaw(HeadAttempt(head, now), draws[f..], now, raw, source, head.receipt.id);
    var r := Observe(HeadAttempt(head, now), now, raw, source).1;
    var s := Entry(head, now, raw, if r.Ok? then r.value.random else None);
    OwnGrows(draws, f, s);
  }

  lemma NextHead(pending: seq<Request>, draws: seq<Draw>)
    requires pending != [] && pending[0].attempt.None?
    requires forall k :: 0 <= k < |draws| ==> draws[k].id < pending[0].receipt.id
    ensures HeadLaw(pending[0], draws, |draws|)
  {
    hide AttemptLaw;
  }

  lemma TakeOk(t: Traced, e: Event)
    requires TracedOk(t) && e.Sampled? && Takes(t.w.q, e.now, e.raw)
    ensures TracedOk(Step(t, e))
  {
    hide WorldOk, Observe, HeadAttempt, TrialsOk, Rejected, ObserveQueue, HeadLaw, TrialIsDue;
    NextOk(t.w, e);
    QueueIds(t.w);
    var q, head := t.w.q, t.w.q.pending[0];
    var f :| HeadLaw(head, t.draws, f);
    TakenLaw(head, t.draws, f, e.now, e.raw, e.source);
    TakeShape(q, e.now, e.raw, e.source, e.submitOk);
    var (a, r) := Observe(HeadAttempt(head, e.now), e.now, e.raw, e.source);
    var t' := Step(t, e);
    var s := Entry(head, e.now, e.raw, if r.Ok? then r.value.random else None);
    assert t'.draws == t.draws + [s];
    HeadEntries(head, t.draws, f);
    TrialsGrow(t.draws, f, s);
    if t'.w.q.pending != [] {
      if t'.w.q.pending == q.pending[1..] {
        NextHead(t'.w.q.pending, t'.draws);
      } else {
        assert HeadLaw(t'.w.q.pending[0], t'.draws, f);
      }
    }
  }

  lemma HeadEntries(head: Request, draws: seq<Draw>, f: int)
    requires HeadLaw(head, draws, f)
    ensures OwnFrom(draws, f, head.receipt.id, SlotSeconds(head.context.csma), head.context.csma.persist)
    ensures forall k :: 0 <= k < |draws| ==> draws[k].id <= head.receipt.id
    ensures forall k :: f <= k < |draws| && draws[k].byte.Some? ==> draws[k].byte.value > draws[k].persist
  {
    hide AttemptLaw;
  }

  // ---- Steps that take none

  /** What becomes of the queue when the head takes no sample. */
  lemma SkipShape(q: Queue, now: real, raw: int, source: RandomSource, ok: bool)
    requires !Takes(q, now, raw)
    ensures var q' := ObserveQueue(q, now, raw, source, ok).0;
            && q'.lastNow >= q.lastNow
            && (|| (q'.pending == q.pending && Finished(q') == Finished(q))
                || (q.pending != [] && q'.pending == q.pending[1..] && Finished(q') == Finished(q) + 1)
                || (q.pending != [] && now < q.pending[0].receipt.deadline && Finished(q') == Finished(q)
                    && q'.pending == q.pending[0 := q.pending[0].(attempt := Some(HeadAttempt(q.pending[0], now)))]))
  {
    hide HeadAttempt;
    if AcceptsNow(q, now) && q.pending != [] && now < q.pending[0].receipt.deadline {
      ObserveKeeps(HeadAttempt(q.pending[0], now), now, raw, source);
    }
  }

  lemma SkipOk(t: Traced, e: Event)
    requires TracedOk(t) && e.Sampled? && !Takes(t.w.q, e.now, e.raw)
    ensures TracedOk(Step(t, e))
  {
    hide WorldOk, HeadAttempt, TrialsOk, ObserveQueue, HeadLaw, Takes;
    NextOk(t.w, e);
    QueueIds(t.w);
    SkipShape(t.w.q, e.now, e.raw, e.source, e.submitOk);
    var q, q' := t.w.q, Step(t, e).w.q;
    if q.pending != [] {
      var f :| HeadLaw(q.pending[0], t.draws, f);
      HeadEntries(q.pending[0], t.draws, f);
      if q'.pending == q.pending {
        assert HeadLaw(q'.pending[0], t.draws, f);
      } else if q'.pending == q.pending[1..] {
        if q'.pending != [] { NextHead(q'.pending, t.draws); }
      } else {
        Attempted(q.pending[0], t.draws, f, e.now);
        assert HeadLaw(q'.pending[0], t.draws, f);
      }
    }
  }

  lemma Attempted(head: Request, draws: seq<Draw>, f: int, now: real)
    requires HeadLaw(head, draws, f) && now < head.receipt.deadline
    ensures HeadLaw(head.(attempt := Some(HeadAttempt(head, now))), draws, f)
  {
    hide AttemptLaw, HeadAttempt;
    ReadyLaw(head, draws, f, now);
  }

  lemma AdmitStepOk(t: Traced, e: Event)
    requires TracedOk(t) && e.Admit?
    ensures TracedOk(Step(t, e))
  {
    hide WorldOk, TrialsOk, HeadLaw, Enqueue;
    NextOk(t.w, e);
    QueueIds(t.w);
    AdmitShape(t.w.q, e.body, e.context, e.now);
    var q, q' := t.w.q, Step(t, e).w.q;
    QueueIds(Step(t, e).w);
    if q.pending != [] {
      var f :| HeadLaw(q.pending[0], t.draws, f);
      assert HeadLaw(q'.pending[0], t.draws, f);
    } else if q'.pending != [] {
      NextHead(q'.pending, t.draws);
    }
  }

  lemma AdmitShape(q: Queue, body: Bytes, context: Control.Context, now: real)
    ensures var q' := Enqueue(q, body, context, now).0;
            && q'.lastNow >= q.lastNow && Finished(q') == Finished(q) && q.pending <= q'.pending
            && (q.pending == [] && q'.pending != [] ==> q'.pending[0].attempt.None?)
  {
    hide Fcs.AppendFcs, Ax25.ParseFrame;
  }

  lemma StepOk(t: Traced, e: Event)
    requires TracedOk(t)
    ensures TracedOk(Step(t, e))
  {
    hide TracedOk, Step, Takes;
    if e.Admit? {
      AdmitStepOk(t, e);
    } else if Takes(t.w.q, e.now, e.raw) {
      TakeOk(t, e);
    } else {
      SkipOk(t, e);
    }
  }

  lemma {:induction false} EveryRunTraced(t: Traced, es: seq<Event>)
    requires TracedOk(t)
    ensures TracedOk(Steps(t, es))
    decreases |es|
  {
    hide TracedOk, Step;
    if es != [] {
      StepOk(t, es[0]);
      EveryRunTraced(Step(t, es[0]), es[1..]);
    }
  }

  // ---- Main results

  /** A slot that is over was not begun before a trial, nor before a busy
      sample's hold. */
  lemma SlotGap(h: seq<Draw>, now: real, slot: real, m: int)
    requires InOrder(h) && SlotOver(h, now, slot) && 0 <= m < |h| && h[m].byte.Some?
    ensures now - h[m].at >= slot
    ensures (exists b :: m < b < |h| && h[b].raw <= BUSY_MAX) ==> now - h[m].at >= HOLD + slot
  {
    hide ClearAfter;
    var k :| SlotSince(h, k) && now >= h[k].at + slot;
    assert m <= k;
    if b :| m < b < |h| && h[b].raw <= BUSY_MAX {
      NoBusySince(h, k, b);
      HoldAfterBusy(h, k, b);
    }
  }

  /** A trial and an earlier one of the same request. */
  lemma GapOf(draws: seq<Draw>, m: int, n: int)
    requires TrialsOk(draws) && 0 <= m < n < |draws| && draws[m].id == draws[n].id
    requires draws[m].byte.Some? && draws[n].byte.Some?
    ensures draws[n].at - draws[m].at >= draws[n].slot
    ensures (exists b :: m < b < n && draws[b].raw <= BUSY_MAX) ==> draws[n].at - draws[m].at >= HOLD + draws[n].slot
  {
    hide ClearAfter, SlotOver;
    assert Proper(draws, n);
    var f :| ProperFrom(draws, f, n);
    OwnedIndex(draws, f, m, n);
    OrderedSlice(draws, f, n);
    var h := draws[f..n];
    SlotGap(h, draws[n].at, draws[n].slot, m - f);
    if b :| m < b < n && draws[b].raw <= BUSY_MAX {
      assert h[b - f] == draws[b];
    }
  }

  lemma OwnedIndex(draws: seq<Draw>, f: int, m: int, n: int)
    requires ProperFrom(draws, f, n) && 0 <= m < n && draws[m].id == draws[n].id
    ensures f <= m && draws[f..n][m - f] == draws[m]
  {
    hide TrialIsDue;
    assert draws[..n][m] == draws[m];
  }

  lemma OrderedSlice(draws: seq<Draw>, f: int, n: int)
    requires InOrder(draws) && 0 <= f <= n <= |draws|
    ensures InOrder(draws[f..n])
  {
  }

  lemma NoBusySince(h: seq<Draw>, k: int, b: int)
    requires SlotSince(h, k) && 0 <= b < |h| && h[b].raw <= BUSY_MAX
    ensures b < k
  {
    assert k <= b ==> ClearAfter(h, b + 1);
  }

  /** A slot that began after a busy sample began a whole hold later. */
  lemma HoldAfterBusy(h: seq<Draw>, k: int, b: int)
    requires SlotSince(h, k) && 0 <= b < k && h[b].raw <= BUSY_MAX
    requires forall i, j :: 0 <= i <= j < |h| ==> h[i].at <= h[j].at
    ensures h[k].at - h[b].at >= HOLD
  {
    assert ClearAfter(h, k + 1);
    var i, j :| HeldClear(h, i, j, k + 1);
    assert b < i;
  }

  /** Over every run: two persistence trials of one request are at least its
      captured slot apart, and the hold besides if the channel was busy in
      between; and the earlier of them failed. */
  lemma TrialsAreApart(capacity: nat, lifetime: real, es: seq<Event>, m: int, n: int)
    requires capacity >= 1 && lifetime > 0.0
    ensures var draws := Steps(Begin(capacity, lifetime), es).draws;
            0 <= m < n < |draws| && draws[m].id == draws[n].id && draws[m].byte.Some? && draws[n].byte.Some? ==>
              && draws[n].at - draws[m].at >= draws[n].slot && draws[m].byte.value > draws[m].persist
              && ((exists b :: m < b < n && draws[b].raw <= BUSY_MAX) ==>
                    draws[n].at - draws[m].at >= HOLD + draws[n].slot)
  {
    hide Steps, WorldOk, HeadLaw, Proper, InOrder;
    BeginOk(capacity, lifetime);
    EveryRunTraced(Begin(capacity, lifetime), es);
    var draws := Steps(Begin(capacity, lifetime), es).draws;
    if 0 <= m < n < |draws| && draws[m].id == draws[n].id && draws[m].byte.Some? && draws[n].byte.Some? {
      GapOf(draws, m, n);
    }
  }

  /** Over every run: the whole answer to the next sample that the head takes,
      from the entries of that request.  A trial is drawn exactly when the
      channel is clear and a full slot has passed since it became clear or since
      the last trial, before the attempt's deadline; the byte decides whether
      the submitter is called, and otherwise it is not. */
  lemma AnswerFromHistory(capacity: nat, lifetime: real, es: seq<Event>, now: real, raw: int, source: RandomSource,
                          ok: bool) returns (f: int)
    requires capacity >= 1 && lifetime > 0.0
    requires Takes(Steps(Begin(capacity, lifetime), es).w.q, now, raw)
    ensures var t := Steps(Begin(capacity, lifetime), es);
            var head, r := t.w.q.pending[0], ObserveQueue(t.w.q, now, raw, source, ok).1;
            var s := Entry(head, now, raw, ByteIn(r));
            && OwnFrom(t.draws, f, s.id, s.slot, s.persist)
            && var late := now >= HeadAttempt(head, now).csma.deadline;
               var due := !late && TrialIsDue(t.draws[f..], s, s.slot);
               && (due && source == NoSource ==> r == Err(AccessFailed(RandomRequired)))
               && (due && source == Raises ==> r == Err(AccessFailed(RandomSourceFailed)))
               && (due && source.Yields? && !(0 <= source.byte <= 255) ==> r == Err(AccessFailed(BadRandom)))
               && (due && source.Yields? && 0 <= source.byte <= 255 ==>
                     && r.Ok? && s.byte == Some(source.byte)
                     && r.value.state == Some(if source.byte > s.persist then Access
                                              else if ok then Dispatched else DownstreamFailed))
               && (!due ==> r.Ok? && s.byte.None? && r.value.state == Some(if late then Expired else Access))
  {
    hide Steps, WorldOk, Observe, HeadAttempt, TrialsOk, ObserveQueue, HeadLaw, TrialIsDue;
    BeginOk(capacity, lifetime);
    EveryRunTraced(Begin(capacity, lifetime), es);
    var t := Steps(Begin(capacity, lifetime), es);
    var head := t.w.q.pending[0];
    f :| HeadLaw(head, t.draws, f);
    HeadEntries(head, t.draws, f);
    TakenLaw(head, t.draws, f, now, raw, source);
    TakeShape(t.w.q, now, raw, source, ok);
  }

  /** So every call of the submitter follows a trial that passed, at least one
      whole slot after each earlier trial of that request, all of which failed. */
  lemma CallsFollowTrials(capacity: nat, lifetime: real, es: seq<Event>, e: Event, m: int)
    requires capacity >= 1 && lifetime > 0.0 && e.Sampled?
    requires var t := Steps(Begin(capacity, lifetime), es);
             && Takes(t.w.q, e.now, e.raw) && 0 <= m < |t.draws|
             && t.draws[m].id == t.w.q.pending[0].receipt.id && t.draws[m].byte.Some?
    ensures var t := Steps(Begin(capacity, lifetime), es);
            var r := ObserveQueue(t.w.q, e.now, e.raw, e.source, e.submitOk).1;
            r.Ok? && r.value.state in {Some(Dispatched), Some(DownstreamFailed)} ==>
              && ByteIn(r).Some? && ByteIn(r).value <= t.w.q.pending[0].context.csma.persist
              && e.now - t.draws[m].at >= SlotSeconds(t.w.q.pending[0].context.csma)
              && t.draws[m].byte.value > t.draws[m].persist
  {
    hide Steps, WorldOk, HeadAttempt, TrialsOk, ObserveQueue, HeadLaw, TrialIsDue, Takes;
    BeginOk(capacity, lifetime);
    EveryRunTraced(Begin(capacity, lifetime), es);
    var t := Steps(Begin(capacity, lifetime), es);
    var f := AnswerFromHistory(capacity, lifetime, es, e.now, e.raw, e.source, e.submitOk);
    StepOk(t, e);
    var r := ObserveQueue(t.w.q, e.now, e.raw, e.source, e.submitOk).1;
    if r.Ok? && r.value.state in {Some(Dispatched), Some(DownstreamFailed)} {
      var draws, n := Step(t, e).draws, |t.draws|;
      assert draws[n].byte.Some? && draws[m] == t.draws[m] && draws[n].at == e.now;
      GapOf(draws, m, n);
      TrialFailed(draws, m, n);
    }
  }

  lemma TrialFailed(draws: seq<Draw>, m: int, n: int)
    requires TrialsOk(draws) && 0 <= m < n < |draws| && draws[m].id == draws[n].id && draws[m].byte.Some?
    ensures draws[m].byte.value > draws[m].persist
  {
    hide Proper;
  }
}
