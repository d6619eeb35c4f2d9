/** The sustained worker: it drains received bytes into a streaming decoder,
    checks the receiver's health, and lets the queue head take RSSI samples,
    against a modem that may fail or answer anything at each call. */
module Runtime {
  import opened Primitives
  import opened AdmissionQueue
  import opened HalfDuplex
  import ChannelAccess
  import Demodulator
  import Fcs
  import Ax25
  import Reception

  const ACTIVE_RX_FLAGS: Byte := 0x0D
  const READ_LIMIT := 4
  const FIFO_CAPACITY := 512

  /** One step of the worker that reaches the modem, with its answer; `None`
      and `Err` are exceptions.  `Read` names the decoder instance in use, and
      `Observed` the time and value the queue was advanced with. */
  datatype Touch =
    | Read(chunk: Option<Bytes>, decoder: nat)
    | Status(status: Option<RxStatus>)
    | Rssi(raw: Option<int>)
    | Observed(at: real, value: int, answer: Result<QueueObservation, QueueError>)

  predicate Active(s: RxStatus) { s.flags == ACTIVE_RX_FLAGS && s.dropped == 0 }

  /** The answers that end the worker. */
  predicate Fatal(x: Touch) {
    match x
    case Read(chunk, _) => chunk.None?
    case Status(status) => status.None? || !Active(status.value)
    case Rssi(raw) => raw.None?
    case Observed(_, _, answer) => answer.Err? || answer.value.state == Some(DownstreamFailed)
  }

  /** The step in which the half-duplex lifecycle may have keyed the radio. */
  predicate Transmits(x: Touch) { x.Observed? && x.answer.Ok? && x.answer.value.downstreamCalled }

  function Transmissions(t: seq<Touch>): nat {
    if t == [] then 0 else Transmissions(t[..|t| - 1]) + (if Transmits(t[|t| - 1]) then 1 else 0)
  }

  /** Everything read since the last transmission. */
  function ReadSince(t: seq<Touch>): Bytes {
    if t == [] then [] else
      var x := t[|t| - 1];
      if Transmits(x) then []
      else if x.Read? && x.chunk.Some? then ReadSince(t[..|t| - 1]) + x.chunk.value
      else ReadSince(t[..|t| - 1])
  }

  function ReadIn(t: seq<Touch>): Bytes {
    if t == [] then [] else
      var x := t[|t| - 1];
      ReadIn(t[..|t| - 1]) + (if x.Read? && x.chunk.Some? then x.chunk.value else [])
  }

  // ---- What every run of the worker looks like

  ghost predicate TouchOk(t: seq<Touch>, i: int)
    requires 0 <= i < |t|
  {
    && (i + 1 < |t| ==> !Fatal(t[i]))
    && (i + 1 < |t| && Transmits(t[i]) ==> t[i + 1].Status?)
    && (t[i].Observed? ==> i > 0 && t[i - 1].Rssi?)
    && (t[i].Read? ==> t[i].decoder == Transmissions(t[..i]))
  }

  /** Nothing follows a fatal answer, a transmission is followed by a check that
      reception is active, the queue is only ever advanced on a new RSSI value,
      and bytes go to the decoder of their own side. */
  ghost predicate Orderly(t: seq<Touch>) { forall i :: 0 <= i < |t| ==> TouchOk(t, i) }

  ghost predicate Resting(t: seq<Touch>) {
    Orderly(t) && (t != [] ==> !Fatal(t[|t| - 1]) && !Transmits(t[|t| - 1]))
  }

  predicate MayFollow(t: seq<Touch>, x: Touch) {
    && (t != [] ==> !Fatal(t[|t| - 1]) && (Transmits(t[|t| - 1]) ==> x.Status?))
    && (x.Observed? ==> t != [] && t[|t| - 1].Rssi?)
    && (x.Read? ==> x.decoder == Transmissions(t))
  }

  lemma Extend(t: seq<Touch>, x: Touch)
    requires Orderly(t) && MayFollow(t, x)
    ensures Orderly(t + [x])
  {
    hide Transmissions, Fatal, Transmits;
    var u := t + [x];
    forall i | 0 <= i < |u| ensures TouchOk(u, i) {
      if i < |t| {
        assert TouchOk(t, i) && u[..i] == t[..i];
      } else {
        assert u[..i] == t;
      }
    }
  }

  lemma RestingMay(t: seq<Touch>)
    requires Resting(t)
    ensures MayFollow(t, Status(None))
  {
  }

  lemma RestingIsFine(t: seq<Touch>)
    requires Resting(t)
    ensures Orderly(t) && (t != [] ==> !Fatal(t[|t| - 1]))
  {
  }

  lemma Snoc(t: seq<Touch>, x: Touch)
    ensures Transmissions(t + [x]) == Transmissions(t) + (if Transmits(x) then 1 else 0)
    ensures ReadSince(t + [x]) ==
              if Transmits(x) then [] else ReadSince(t) + (if x.Read? && x.chunk.Some? then x.chunk.value else [])
    ensures ReadIn(t + [x]) == ReadIn(t) + (if x.Read? && x.chunk.Some? then x.chunk.value else [])
  {
    assert (t + [x])[..|t|] == t;
  }

  lemma StatusFollows(t: seq<Touch>, s: Option<RxStatus>)
    requires Orderly(t) && MayFollow(t, Status(None))
    ensures var u := t + [Status(s)];
            && Orderly(u) && ReadSince(u) == ReadSince(t) && Transmissions(u) == Transmissions(t)
            && u[..|u| - 1] == t && u[|u| - 1] == Status(s)
            && (if s.Some? && Active(s.value) then Resting(u) else Fatal(Status(s)))
            && (Fatal(Status(s)) <==> s.None? || !Active(s.value))
  {
    hide Orderly, Transmissions, ReadSince;
    Extend(t, Status(s));
    Snoc(t, Status(s));
    assert ReadSince(t) + [] == ReadSince(t);
  }

  lemma {:induction false} TransmissionsMonotone(t: seq<Touch>, i: nat, j: nat)
    requires i <= j <= |t|
    ensures Transmissions(t[..i]) <= Transmissions(t[..j])
    decreases j
  {
    if i < j {
      TransmissionsMonotone(t, i, j - 1);
      assert t[..j][..j - 1] == t[..j - 1];
    }
  }

  /** No decoder instance is fed from both sides of a transmission. */
  lemma SidesApart(t: seq<Touch>, i: nat, k: nat, j: nat)
    requires Orderly(t) && i < k < j < |t| && t[i].Read? && Transmits(t[k]) && t[j].Read?
    ensures t[i].decoder < t[j].decoder
  {
    hide Transmits;
    assert TouchOk(t, i) && TouchOk(t, j);
    TransmissionsMonotone(t, i, k);
    TransmissionsMonotone(t, k + 1, j);
    assert t[..k + 1] == t[..k] + [t[k]];
    Snoc(t[..k], t[k]);
  }

  /** Bytes read between two transmissions share one decoder. */
  lemma {:induction false} SameSideSameDecoder(t: seq<Touch>, i: nat, j: nat)
    requires Orderly(t) && i <= j < |t| && t[i].Read? && t[j].Read?
    requires forall k :: i < k < j ==> !Transmits(t[k])
    ensures t[i].decoder == t[j].decoder
  {
    assert TouchOk(t, i) && TouchOk(t, j);
    NoneBetween(t, i, j);
  }

  lemma {:induction false} NoneBetween(t: seq<Touch>, i: nat, j: nat)
    requires i <= j < |t| && forall k :: i <= k < j ==> !Transmits(t[k])
    ensures Transmissions(t[..i]) == Transmissions(t[..j])
    decreases j
  {
    if i < j {
      NoneBetween(t, i, j - 1);
      assert t[..j][..j - 1] == t[..j - 1];
    }
  }

  lemma {:induction false} SlicerBitsConcat(a: Bytes, b: Bytes)
    ensures Demodulator.SlicerBits(a + b) == Demodulator.SlicerBits(a) + Demodulator.SlicerBits(b)
  {
    if a == [] {
      assert a + b == b;
    } else {
      assert (a + b)[1..] == a[1..] + b;
      SlicerBitsConcat(a[1..], b);
    }
  }

  // ---- The surroundings

  /** The stop request of another thread, as the number of times the worker
      still finds it unset; every finite run is covered by some number. */
  class StopEvent {
    var remaining: nat

    constructor (remaining: nat)
      ensures this.remaining == remaining
    {
      this.remaining := remaining;
    }

    method IsSet() returns (set_: bool)
      modifies this
      ensures set_ == (old(remaining) == 0)
      ensures remaining == if set_ then 0 else old(remaining) - 1
    {
      set_ := remaining == 0;
      if !set_ {
        remaining := remaining - 1;
      }
    }

    method Set()
      modifies this
      ensures remaining == 0
    {
      remaining := 0;
    }
  }

  /** The modem and the shared queue.  The sampler keeps filling the FIFO while
      the worker runs; a read returns what is there, up to its maximum. */
  class Radio {
    var fifo: Bytes
    ghost var trace: seq<Touch>

    constructor ()
      ensures trace == [] && fifo == []
    {
      fifo, trace := [], [];
    }

    method Sampler()
      modifies this`fifo
      ensures old(fifo) <= fifo && (|old(fifo)| <= FIFO_CAPACITY ==> |fifo| <= FIFO_CAPACITY)
    {
      var more: Bytes := *;
      var room := if |fifo| <= FIFO_CAPACITY then FIFO_CAPACITY - |fifo| else 0;
      fifo := fifo + more[..if room <= |more| then room else |more|];
    }

    method RxRead(maximum: nat, ghost decoder: nat) returns (chunk: Option<Bytes>)
      modifies this
      ensures trace == old(trace) + [Read(chunk, decoder)]
      ensures |old(fifo)| <= FIFO_CAPACITY ==> |fifo| <= FIFO_CAPACITY
      ensures chunk.Some? ==>
                && old(fifo) <= chunk.value + fifo
                && |chunk.value| <= maximum && (|chunk.value| < maximum ==> fifo == [])
    {
      var fails: bool := *;
      if fails {
        chunk := None;
      } else {
        Sampler();
        var n := if |fifo| <= maximum then |fifo| else maximum;
        assert fifo[..n] + fifo[n..] == fifo;
        chunk := Some(fifo[..n]);
        fifo := fifo[n..];
      }
      trace := trace + [Read(chunk, decoder)];
    }

    /** The clock does not run backwards. */
    method Monotonic(since: real) returns (now: real)
      ensures now >= since
    {
      now := *;
      if now < since {
        now := since;
      }
    }

    method ReadStatus() returns (s: Option<RxStatus>)
      modifies this`trace
      ensures trace == old(trace) + [Status(s)]
    {
      s := *;
      trace := trace + [Status(s)];
    }

    method ReadRssi() returns (raw: Option<int>)
      modifies this`trace
      ensures trace == old(trace) + [Rssi(raw)]
    {
      raw := *;
      trace := trace + [Rssi(raw)];
    }

    /** The queue in whatever state its producers left it, and whatever the
        downstream lifecycle answers; the FIFO may hold anything afterwards. */
    method ObserveRssi(now: real, raw: int,
                       source: ChannelAccess.RandomSource) returns (r: Result<QueueObservation, QueueError>)
      modifies this
      ensures trace == old(trace) + [Observed(now, raw, r)]
      ensures r.Ok? ==> r.value.downstreamCalled == (r.value.state in {Some(Dispatched), Some(DownstreamFailed)})
    {
      hide ObserveQueue;
      var q: Queue := *;
      var submitOk: bool := *;
      r := ObserveQueue(q, now, raw, source, submitOk).1;
      ObserveShape(q, now, raw, source, submitOk);
      fifo := *;
      trace := trace + [Observed(now, raw, r)];
    }
  }

  // ---- One drain pass

  /** `count` full reads so far, all of what was waiting still in order. */
  ghost predicate PassOpen(t0: seq<Touch>, t: seq<Touch>, waiting: Bytes, left: Bytes, count: nat, maximum: nat) {
    && t0 <= t && |t| == |t0| + count
    && |ReadIn(t[|t0|..])| == count * maximum && waiting <= ReadIn(t[|t0|..]) + left
  }

  /** The pass took every byte that was waiting when it began exactly if there
      were no more than four maximal reads of them. */
  ghost predicate PassDone(t0: seq<Touch>, t: seq<Touch>, waiting: Bytes, maximum: nat) {
    && t0 <= t && |t| <= |t0| + READ_LIMIT
    && (waiting <= ReadIn(t[|t0|..]) <==> |waiting| <= READ_LIMIT * maximum)
  }

  lemma PassBegins(t0: seq<Touch>, waiting: Bytes, maximum: nat)
    ensures PassOpen(t0, t0, waiting, waiting, 0, maximum)
  {
    assert t0[|t0|..] == [];
  }

  lemma PassLength(t0: seq<Touch>, t: seq<Touch>, waiting: Bytes, left: Bytes, count: nat, maximum: nat)
    requires PassOpen(t0, t, waiting, left, count, maximum)
    ensures t0 <= t && |t| == |t0| + count
  {
  }

  lemma PassReads(t0: seq<Touch>, t: seq<Touch>, waiting: Bytes, before: Bytes, count: nat, maximum: nat,
                  chunk: Bytes, decoder: nat, left: Bytes)
    requires PassOpen(t0, t, waiting, before, count, maximum) && count < READ_LIMIT
    requires before <= chunk + left && |chunk| <= maximum && (|chunk| < maximum ==> left == [])
    ensures var t' := t + [Read(Some(chunk), decoder)];
            if |chunk| == maximum then PassOpen(t0, t', waiting, left, count + 1, maximum)
            else PassDone(t0, t', waiting, maximum)
  {
    hide ReadIn;
    var x := Read(Some(chunk), decoder);
    assert (t + [x])[|t0|..] == t[|t0|..] + [x];
    Snoc(t[|t0|..], x);
    var taken := ReadIn(t[|t0|..]);
    Taking(waiting, taken, before, chunk, left);
    Reading(count, maximum);
    if |chunk| < maximum {
      assert waiting <= taken + chunk by { assert (taken + chunk) + [] == taken + chunk; }
    }
  }

  /** Bytes leave the FIFO in order. */
  lemma Taking(waiting: Bytes, taken: Bytes, before: Bytes, chunk: Bytes, left: Bytes)
    requires waiting <= taken + before && before <= chunk + left
    ensures waiting <= (taken + chunk) + left
  {
    assert taken + before <= taken + (chunk + left) == (taken + chunk) + left;
  }

  lemma Reading(count: nat, maximum: nat)
    requires count < READ_LIMIT
    ensures (count + 1) * maximum == count * maximum + maximum <= READ_LIMIT * maximum
  {
  }

  lemma PassFull(t0: seq<Touch>, t: seq<Touch>, waiting: Bytes, left: Bytes, maximum: nat)
    requires PassOpen(t0, t, waiting, left, READ_LIMIT, maximum)
    ensures t0 <= t && |t| == |t0| + READ_LIMIT && PassDone(t0, t, waiting, maximum)
  {
    hide ReadIn;
  }

  /** With reads of 128 octets or more a finished pass takes a whole FIFO;
      with fewer it cannot take a full one. */
  lemma WholeFifoNeedsLargeReads(t0: seq<Touch>, t: seq<Touch>, waiting: Bytes, maximum: nat)
    requires PassDone(t0, t, waiting, maximum) && |waiting| <= FIFO_CAPACITY
    ensures maximum >= 128 ==> waiting <= ReadIn(t[|t0|..])
    ensures maximum < 128 && |waiting| == FIFO_CAPACITY ==> !(waiting <= ReadIn(t[|t0|..]))
  {
    hide ReadIn;
  }

  // ---- One round

  predicate FullRead(x: Touch, maximum: nat) { x.Read? && x.chunk.Some? && |x.chunk.value| == maximum }

  /** The reads of one pass: full ones, up to one that raises, one that is not
      full, the fourth, or a stop request (`complete` is false). */
  ghost predicate DrainLaw(c: seq<Touch>, complete: bool, maximum: nat) {
    && |c| <= READ_LIMIT && (forall i :: 0 <= i < |c| - 1 ==> FullRead(c[i], maximum))
    && (c != [] ==> c[|c| - 1].Read?)
    && if complete then c != [] && (|c| == READ_LIMIT || !FullRead(c[|c| - 1], maximum))
       else |c| < READ_LIMIT && (c != [] ==> FullRead(c[|c| - 1], maximum))
  }

  /** One RSSI value, the queue advanced with it at this time, and a check of the
      receiver if that transmitted; cut short by whatever raises. */
  ghost predicate ServeLaw(c: seq<Touch>, now: real) {
    && |c| >= 1 && c[0].Rssi?
    && if c[0].raw.None? then |c| == 1
       else && |c| >= 2 && c[1].Observed? && c[1].at == now && c[1].value == c[0].raw.value
            && if Fatal(c[1]) || !Transmits(c[1]) then |c| == 2 else |c| == 3 && c[2].Status?
  }

  /** The head ran out of time. */
  predicate TimesOut(c: seq<Touch>) {
    |c| >= 2 && c[1].Observed? && c[1].answer.Ok? && c[1].answer.value.state == Some(Expired)
  }

  predicate Failed(c: seq<Touch>) { c != [] && Fatal(c[|c| - 1]) }

  predicate Transmitted(served: seq<Touch>) { |served| == 3 && !Failed(served) }

  lemma NothingYet()
    ensures !Failed([]) && !Transmitted([]) && !TimesOut([])
  {
  }

  /** One round: the time and depth it found, when a check was due, what it did,
      and when the next check is due. */
  datatype Lap = Lap(now: real, depth: nat, due: real, drained: seq<Touch>, complete: bool, check: seq<Touch>,
                     served: seq<Touch>, next: real)

  function Touches(l: Lap): seq<Touch> { l.drained + l.check + l.served }

  predicate LapFailed(l: Lap) { Failed(l.drained) || Failed(l.check) || Failed(l.served) }

  /** A pass of reads; a check if and only if it is due; the queue's turn if and
      only if something is queued; nothing after a step that raised. */
  ghost predicate LapLaw(l: Lap, maximum: nat, interval: real) {
    && DrainLaw(l.drained, l.complete, maximum)
    && (if l.now >= l.due && !Failed(l.drained) then |l.check| == 1 && l.check[0].Status? else l.check == [])
    && (if l.depth > 0 && !Failed(l.drained) && !Failed(l.check) then ServeLaw(l.served, l.now) else l.served == [])
    && (if Transmitted(l.served) then l.next >= l.now + interval
        else l.next == if l.now >= l.due && !Failed(l.drained) && !Failed(l.check) then l.now + interval else l.due)
  }

  function Flatten(laps: seq<Lap>): seq<Touch> {
    if laps == [] then [] else Flatten(laps[..|laps| - 1]) + Touches(laps[|laps| - 1])
  }

  /** How often the stop request was looked at and found unset: before every
      round, and before every read. */
  function Looks(laps: seq<Lap>): nat {
    if laps == [] then 0 else Looks(laps[..|laps| - 1]) + 1 + |laps[|laps| - 1].drained|
  }

  /** Rounds one after the other, each taking over when the next check is due,
      none following one that failed. */
  ghost predicate Laps(laps: seq<Lap>, due: real, maximum: nat, interval: real) {
    forall i :: 0 <= i < |laps| ==> LapAt(laps, i, due, maximum, interval)
  }

  ghost predicate LapAt(laps: seq<Lap>, i: nat, due: real, maximum: nat, interval: real)
    requires i < |laps|
  {
    && LapLaw(laps[i], maximum, interval)
    && if i == 0 then laps[0].due == due else laps[i].due == laps[i - 1].next && !LapFailed(laps[i - 1])
  }

  lemma LapAfter(laps: seq<Lap>, l: Lap, due: real, maximum: nat, interval: real)
    requires Laps(laps, due, maximum, interval) && LapLaw(l, maximum, interval)
    requires if laps == [] then l.due == due else l.due == laps[|laps| - 1].next && !LapFailed(laps[|laps| - 1])
    ensures Laps(laps + [l], due, maximum, interval)
  {
    hide LapLaw, LapFailed;
    forall i | 0 <= i < |laps + [l]| ensures LapAt(laps + [l], i, due, maximum, interval) {
      if i < |laps| { assert LapAt(laps, i, due, maximum, interval); }
    }
  }

  /** From `before` to `after` the worker made exactly these rounds. */
  ghost predicate Ran(before: seq<Touch>, after: seq<Touch>, laps: seq<Lap>, due: real, next: real,
                      maximum: nat, interval: real) {
    && after == before + Flatten(laps) && Laps(laps, due, maximum, interval)
    && next == if laps == [] then due else laps[|laps| - 1].next
  }

  predicate LastFailed(laps: seq<Lap>) { laps != [] && LapFailed(laps[|laps| - 1]) }

  lemma RanNothing(t: seq<Touch>, due: real, maximum: nat, interval: real)
    ensures Ran(t, t, [], due, due, maximum, interval) && Looks([]) == 0 && !LastFailed([])
  {
  }

  lemma RanOn(before: seq<Touch>, after: seq<Touch>, laps: seq<Lap>, due: real, next: real,
              maximum: nat, interval: real, l: Lap)
    requires Ran(before, after, laps, due, next, maximum, interval) && !LastFailed(laps)
    requires LapLaw(l, maximum, interval) && l.due == next
    ensures Ran(before, after + Touches(l), laps + [l], due, l.next, maximum, interval)
    ensures Looks(laps + [l]) == Looks(laps) + 1 + |l.drained| && LastFailed(laps + [l]) == LapFailed(l)
  {
    hide Touches, LapLaw, LapFailed, Laps;
    LapAfter(laps, l, due, maximum, interval);
    assert (laps + [l])[..|laps|] == laps;
  }

  // ---- Publication

  ghost predicate AllParse(published: seq<Demodulator.Occurrence>) {
    forall o <- published :: Ax25.ParseFrame(o.frame, true).Ok?
  }

  /** Since `earlier`, exactly the reports in `log` were published, each once,
      and everything published can be parsed. */
  ghost predicate PublishedOnce(published: seq<Demodulator.Occurrence>, earlier: nat,
                                log: seq<Demodulator.Occurrence>) {
    earlier <= |published| && multiset(published[earlier..]) == multiset(log) && AllParse(published)
  }

  lemma FoundIsLogged(log: seq<Demodulator.Occurrence>, log': seq<Demodulator.Occurrence>,
                      found: seq<Demodulator.Occurrence>)
    requires log <= log' && found == Demodulator.ByStart(log'[|log|..])
    ensures multiset(log') == multiset(log) + multiset(found) && forall o <- found :: o in log'
  {
    Demodulator.ByStartSorts(log'[|log|..]);
    assert log' == log + log'[|log|..];
    forall o <- found ensures o in log' {
      assert o in multiset(found) && o in multiset(log');
    }
  }

  lemma PublishedMore(published: seq<Demodulator.Occurrence>, earlier: nat, log: seq<Demodulator.Occurrence>,
                      log': seq<Demodulator.Occurrence>, found: seq<Demodulator.Occurrence>)
    requires PublishedOnce(published, earlier, log) && AllParse(found)
    requires multiset(log') == multiset(log) + multiset(found)
    ensures PublishedOnce(published + found, earlier, log')
  {
    hide Ax25.ParseFrame;
    assert (published + found)[earlier..] == published[earlier..] + found;
  }

  lemma PublishedParse(published: seq<Demodulator.Occurrence>, earlier: nat, log: seq<Demodulator.Occurrence>)
    requires PublishedOnce(published, earlier, log)
    ensures AllParse(published)
  {
  }

  // ---- The worker

  class SustainedTNCRuntime {
    const radio: Radio
    const stop: StopEvent
    const readMaximum: nat
    const statusInterval: real
    const bauds: seq<real>
    const phases: seq<real>
    const table: Demodulator.MetricTable
    var decoder: Demodulator.StreamingBell202Decoder
    var packedBytes: nat
    var decodedFrames: nat
    var published: seq<Demodulator.Occurrence>
    var dispatches: nat
    var resets: nat
    var timeouts: nat
    var nextStatus: real
    var failed: bool

    /** How much had been published when the present decoder was new. */
    ghost var earlier: nat

    ghost function DecoderParts(): set<object>
      reads this`decoder
    {
      {decoder, decoder.metricTags, decoder.metricValues, decoder.transitionTags, decoder.transitionPrefix}
    }

    predicate BankOk() {
      && bauds != [] && phases != []
      && (forall i :: 0 <= i < |bauds| ==> 160.0 <= bauds[i] <= 1476.0)
      && (forall i :: 0 <= i < |phases| ==> phases[i] >= 0.0)
    }

    ghost predicate Apart()
      reads this`decoder
    {
      && this !in DecoderParts() && radio !in DecoderParts() && stop !in DecoderParts()
      && (radio as object) != stop && (radio as object) != this && (stop as object) != this
    }

    /** The decoder in use has been fed exactly what was read in `t` since the
        last transmission, in order, and each of its reports has been published
        once. */
    ghost predicate Fed(t: seq<Touch>)
      reads this`decoder, this`published, this`decodedFrames, this`earlier, DecoderParts()
    {
      && decoder.Valid() && decoder.samples == Demodulator.SlicerBits(ReadSince(t))
      && PublishedOnce(published, earlier, decoder.log) && decodedFrames == |published|
    }

    ghost predicate DecoderOk()
      reads this`decoder, this`published, this`decodedFrames, this`earlier, radio`trace, DecoderParts()
    {
      Fed(radio.trace)
    }

    /** The last step was fatal, and all that was read before it is accounted
        for. */
    ghost predicate Stopped()
      reads this`decoder, this`published, this`decodedFrames, this`earlier, radio`trace, DecoderParts()
    {
      radio.trace != [] && Fatal(radio.trace[|radio.trace| - 1]) && Fed(radio.trace[..|radio.trace| - 1])
    }

    ghost predicate Valid()
      reads this`decoder, this`published, this`decodedFrames, this`earlier
      reads this`dispatches, this`resets, radio`trace, DecoderParts()
    {
      && Apart() && BankOk() && 1 <= readMaximum <= 200
      && DecoderOk()
      && Orderly(radio.trace)
      && dispatches == resets == Transmissions(radio.trace)
    }

    constructor (radio: Radio, stop: StopEvent, readMaximum: nat, statusInterval: real,
                 bauds: seq<real>, phases: seq<real>, table: Demodulator.MetricTable)
      requires 1 <= readMaximum <= 200 && statusInterval > 0.0 && radio.trace == []
      requires bauds != [] && phases != []
      requires forall i :: 0 <= i < |bauds| ==> 160.0 <= bauds[i] <= 1476.0
      requires forall i :: 0 <= i < |phases| ==> phases[i] >= 0.0
      ensures Valid() && !failed && this.radio == radio && this.stop == stop && this.readMaximum == readMaximum
      ensures fresh(DecoderParts())
    {
      hide Demodulator.StreamingBell202Decoder.Valid, Demodulator.InitialHypotheses;
      this.radio, this.stop, this.readMaximum, this.statusInterval := radio, stop, readMaximum, statusInterval;
      this.bauds, this.phases, this.table := bauds, phases, table;
      decoder := new Demodulator.StreamingBell202Decoder(bauds, phases, table);
      packedBytes, decodedFrames, dispatches, resets, timeouts, nextStatus, failed := 0, 0, 0, 0, 0, 0.0, false;
      published, earlier := [], 0;
    }

    /** Parse and publish one report; parsing could raise. */
    method Publish(item: Demodulator.Occurrence) returns (ok: bool)
      modifies this`published, this`decodedFrames
      ensures ok == Ax25.ParseFrame(item.frame, true).Ok?
      ensures ok ==> published == old(published) + [item] && decodedFrames == old(decodedFrames) + 1
      ensures !ok ==> published == old(published) && decodedFrames == old(decodedFrames)
    {
      ok := Ax25.ParseFrame(item.frame, true).Ok?;
      if ok {
        published := published + [item];
        decodedFrames := decodedFrames + 1;
      }
    }

    /** Publish the reports of one chunk: none of them can fail to parse. */
    method PublishAll(found: seq<Demodulator.Occurrence>) returns (ok: bool)
      requires Apart() && decoder.Valid() && forall o <- found :: o in decoder.log
      modifies this`published, this`decodedFrames
      ensures ok && published == old(published) + found && decodedFrames == old(decodedFrames) + |found|
      ensures AllParse(found)
    {
      hide Demodulator.StreamingBell202Decoder.Valid, Ax25.ParseFrame, Fcs.VerifyFcs;
      for i := 0 to |found|
        invariant published == old(published) + found[..i] && decodedFrames == old(decodedFrames) + i
        invariant AllParse(found[..i])
      {
        Reception.DecoderReportsParse(decoder, found[i]);
        ok := Publish(found[i]);
        if !ok {
          return;
        }
        assert found[..i + 1] == found[..i] + [found[i]];
      }
      assert found[..|found|] == found;
      ok := true;
    }

    /** Feed one chunk that has just been read, and publish what it completes;
        that never raises. */
    method Consume(chunk: Bytes) returns (ok: bool)
      requires Apart() && decoder.Valid() && PublishedOnce(published, earlier, decoder.log)
      requires decodedFrames == |published|
      modifies this`packedBytes, this`decodedFrames, this`published, DecoderParts()
      ensures ok && decoder == old(decoder) && decoder.Valid()
      ensures decoder.samples == old(decoder.samples) + Demodulator.SlicerBits(chunk)
      ensures packedBytes == old(packedBytes) + |chunk|
      ensures PublishedOnce(published, earlier, decoder.log) && decodedFrames == |published|
    {
      hide Demodulator.StreamingBell202Decoder.Valid, Demodulator.SlicerBits, Demodulator.ByStart, PublishedOnce;
      ghost var log := decoder.log;
      var found := decoder.Feed(chunk);
      packedBytes := packedBytes + |chunk|;
      FoundIsLogged(log, decoder.log, found);
      ghost var before := published;
      ok := PublishAll(found);
      PublishedMore(before, earlier, log, decoder.log, found);
    }

    /** One read, fed to the decoder; `None` is an exception. */
    method ReadOnce() returns (chunk: Option<Bytes>)
      requires Valid() && Resting(radio.trace)
      modifies this`packedBytes, this`decodedFrames, this`published, DecoderParts(), radio
      ensures Valid() && decoder == old(decoder)
      ensures radio.trace == old(radio.trace) + [Read(chunk, resets)]
      ensures chunk.None? ==> Stopped()
      ensures chunk.Some? ==>
                && Resting(radio.trace) && packedBytes == old(packedBytes) + |chunk.value|
                && old(radio.fifo) <= chunk.value + radio.fifo
                && |chunk.value| <= readMaximum && (|chunk.value| < readMaximum ==> radio.fifo == [])
    {
      hide Demodulator.StreamingBell202Decoder.Valid, Orderly, TouchOk, Transmissions, ReadSince, PublishedOnce;
      ghost var t := radio.trace;
      chunk := radio.RxRead(readMaximum, resets);
      Extend(t, Read(chunk, resets));
      Snoc(t, Read(chunk, resets));
      assert ReadSince(t) + [] == ReadSince(t);
      if chunk.Some? {
        SlicerBitsConcat(ReadSince(t), chunk.value);
        if chunk.value != [] {
          var ok := Consume(chunk.value);
        }
      } else {
        assert radio.trace[..|radio.trace| - 1] == t;
      }
    }

    lemma StoppedIsFatal()
      requires Stopped()
      ensures radio.trace != [] && Fatal(radio.trace[|radio.trace| - 1])
    {
    }

    lemma Separated()
      requires Valid()
      ensures Apart() && Orderly(radio.trace) && 1 <= readMaximum
    {
    }

    /** One bounded pass: at most four reads, all fed to the decoder.  A pass
        that is not interrupted takes every byte that was waiting when it began
        exactly if there were no more than four maximal reads of them. */
    method DrainRxFifo() returns (ok: bool, complete: bool, ghost c: seq<Touch>)
      requires Valid() && Resting(radio.trace)
      modifies this`packedBytes, this`decodedFrames, this`published, DecoderParts(), radio, stop
      ensures Valid() && decoder == old(decoder)
      ensures radio.trace == old(radio.trace) + c && DrainLaw(c, complete, readMaximum) && ok == !Failed(c)
      ensures old(stop.remaining) - |c| == stop.remaining && (!complete ==> stop.remaining == 0)
      ensures ok && complete ==> PassDone(old(radio.trace), radio.trace, old(radio.fifo), readMaximum)
      ensures ok ==> Resting(radio.trace)
      ensures !ok ==> Stopped()
    {
      hide Resting, Valid, Stopped, PassOpen, PassDone;
      Separated();
      c := [];
      ghost var t0, waiting := radio.trace, radio.fifo;
      PassBegins(t0, waiting, readMaximum);
      var count := 0;
      while count < READ_LIMIT
        invariant 0 <= count <= READ_LIMIT && PassOpen(t0, radio.trace, waiting, radio.fifo, count, readMaximum)
        invariant Valid() && Apart() && Resting(radio.trace) && decoder == old(decoder)
        invariant radio.trace == t0 + c && |c| == count && forall i :: 0 <= i < count ==> FullRead(c[i], readMaximum)
        invariant stop.remaining == old(stop.remaining) - count
      {
        ghost var t, before := radio.trace, radio.fifo;
        PassLength(t0, t, waiting, before, count, readMaximum);
        var stopping := stop.IsSet();
        if stopping {
          return true, false, c;
        }
        var chunk := ReadOnce();
        c := c + [Read(chunk, resets)];
        if chunk.None? {
          return false, true, c;
        }
        PassReads(t0, t, waiting, before, count, readMaximum, chunk.value, resets, radio.fifo);
        if |chunk.value| < readMaximum {
          return true, true, c;
        }
        count := count + 1;
      }
      PassFull(t0, radio.trace, waiting, radio.fifo, readMaximum);
      return true, true, c;
    }

    /** The receiver must be active with nothing dropped. */
    method CheckStatus() returns (ok: bool, ghost c: seq<Touch>)
      requires Valid() && MayFollow(radio.trace, Status(None))
      modifies radio`trace
      ensures Valid() && radio.trace == old(radio.trace) + c && |c| == 1 && c[0].Status? && ok == !Fatal(c[0])
      ensures ok ==> Resting(radio.trace)
      ensures !ok ==> Stopped()
    {
      hide Demodulator.StreamingBell202Decoder.Valid, Orderly, Transmissions, ReadSince, PublishedOnce, Resting,
           Fatal, MayFollow;
      ghost var t := radio.trace;
      var status := radio.ReadStatus();
      StatusFollows(t, status);
      c := [Status(status)];
      ok := status.Some? && status.value.flags == ACTIVE_RX_FLAGS && status.value.dropped == 0;
    }

    /** A new decoder for what is received after a transmission. */
    method ReplaceDecoder()
      requires Apart() && BankOk() && ReadSince(radio.trace) == []
      requires decodedFrames == |published| && AllParse(published)
      modifies this`decoder, this`dispatches, this`resets, this`earlier
      ensures Apart() && DecoderOk() && fresh(DecoderParts())
      ensures dispatches == old(dispatches) + 1 && resets == old(resets) + 1
    {
      hide Demodulator.StreamingBell202Decoder.Valid, Demodulator.InitialHypotheses, ReadSince;
      decoder := new Demodulator.StreamingBell202Decoder(bauds, phases, table);
      dispatches, resets := dispatches + 1, resets + 1;
      earlier := |published|;
    }

    /** What the worker does with the queue's answer. */
    method React(now: real, raw: int, r: Result<QueueObservation, QueueError>)
      returns (ok: bool, ghost c: seq<Touch>)
      requires Apart() && BankOk() && 1 <= readMaximum <= 200 && radio.trace != []
      requires Orderly(radio.trace) && radio.trace[|radio.trace| - 1] == Observed(now, raw, r)
      requires r.Ok? ==> r.value.downstreamCalled == (r.value.state in {Some(Dispatched), Some(DownstreamFailed)})
      requires (r.Ok? && r.value.downstreamCalled) || DecoderOk()
      requires dispatches == resets && Fed(radio.trace[..|radio.trace| - 1])
      requires Transmissions(radio.trace) == dispatches + (if r.Ok? && r.value.downstreamCalled then 1 else 0)
      modifies this, radio`trace
      ensures radio.trace == old(radio.trace) + c && Orderly(radio.trace) && Apart() && failed == old(failed)
      ensures var x := Observed(now, raw, r);
              && (if Fatal(x) || !Transmits(x) then c == [] && ok == !Fatal(x)
                  else |c| == 1 && c[0].Status? && ok == !Fatal(c[0]))
              && timeouts == old(timeouts) + (if r.Ok? && r.value.state == Some(Expired) then 1 else 0)
              && (if ok && Transmits(x) then nextStatus >= now + statusInterval else nextStatus == old(nextStatus))
      ensures fresh(DecoderParts() - old(DecoderParts()))
      ensures ok ==> Valid() && Resting(radio.trace)
      ensures !ok ==> Stopped()
    {
      hide Demodulator.StreamingBell202Decoder.Valid, Orderly, TouchOk, Transmissions, DecoderOk, PublishedOnce;
      c := [];
      if r.Err? {
        return false, c;
      }
      if r.value.state == Some(Expired) {
        timeouts := timeouts + 1;
      } else if r.value.state == Some(DownstreamFailed) {
        return false, c;
      } else if r.value.state == Some(Dispatched) && r.value.downstreamCalled {
        assert ReadSince(radio.trace) == [];
        PublishedParse(published, earlier, decoder.log);
        ReplaceDecoder();
        ok, c := CheckStatus();
        if ok {
          var later := radio.Monotonic(now);
          nextStatus := later + statusInterval;
        }
        return;
      }
      ok := true;
    }

    method TakeRssi() returns (raw: Option<int>)
      requires Valid() && Resting(radio.trace)
      modifies radio`trace
      ensures Valid() && radio.trace == old(radio.trace) + [Rssi(raw)]
      ensures raw.None? ==> Stopped()
    {
      hide Demodulator.StreamingBell202Decoder.Valid, Orderly, TouchOk, Transmissions, ReadSince, PublishedOnce;
      ghost var t := radio.trace;
      raw := radio.ReadRssi();
      Extend(t, Rssi(raw));
      Snoc(t, Rssi(raw));
      assert ReadSince(t) + [] == ReadSince(t);
      assert radio.trace[..|radio.trace| - 1] == t;
    }

    /** Take one RSSI value and advance the queue's head with it. */
    method ServeQueue(now: real, source: ChannelAccess.RandomSource) returns (ok: bool, ghost c: seq<Touch>)
      requires Valid() && Resting(radio.trace)
      modifies this, radio
      ensures radio.trace == old(radio.trace) + c && ServeLaw(c, now) && ok == !Failed(c)
      ensures timeouts == old(timeouts) + (if TimesOut(c) then 1 else 0)
      ensures if Transmitted(c) then nextStatus >= now + statusInterval else nextStatus == old(nextStatus)
      ensures Orderly(radio.trace) && Apart() && failed == old(failed)
      ensures fresh(DecoderParts() - old(DecoderParts()))
      ensures ok ==> Valid() && Resting(radio.trace)
      ensures !ok ==> Stopped()
    {
      hide Demodulator.StreamingBell202Decoder.Valid, Orderly, TouchOk, Transmissions, ReadSince, BankOk, Resting,
           DecoderOk, Stopped, Fed;
      var raw := TakeRssi();
      c := [Rssi(raw)];
      if raw.None? {
        return false, c;
      }
      var r := AdvanceQueue(now, raw.value, source);
      ghost var more;
      ok, more := React(now, raw.value, r);
      c := c + [Observed(now, raw.value, r)] + more;
    }

    /** The queue's answer to a value just taken, before the worker reacts. */
    method AdvanceQueue(now: real, raw: int,
                        source: ChannelAccess.RandomSource) returns (r: Result<QueueObservation, QueueError>)
      requires Valid() && radio.trace != [] && radio.trace[|radio.trace| - 1] == Rssi(Some(raw))
      modifies radio
      ensures radio.trace == old(radio.trace) + [Observed(now, raw, r)] && Orderly(radio.trace)
      ensures r.Ok? ==> r.value.downstreamCalled == (r.value.state in {Some(Dispatched), Some(DownstreamFailed)})
      ensures Fed(radio.trace[..|radio.trace| - 1])
      ensures (r.Ok? && r.value.downstreamCalled) || DecoderOk()
      ensures Transmissions(radio.trace) == dispatches + (if r.Ok? && r.value.downstreamCalled then 1 else 0)
    {
      hide Demodulator.StreamingBell202Decoder.Valid, Orderly, TouchOk, Transmissions, ReadSince, PublishedOnce;
      ghost var t := radio.trace;
      r := radio.ObserveRssi(now, raw, source);
      Extend(t, Observed(now, raw, r));
      Snoc(t, Observed(now, raw, r));
      assert ReadSince(t) + [] == ReadSince(t);
      assert radio.trace[..|radio.trace| - 1] == t;
    }

    /** One round of the worker loop; `depth` is the queue depth it finds. */
    method Round(now: real, depth: nat, source: ChannelAccess.RandomSource) returns (ok: bool, ghost l: Lap)
      requires Valid() && Resting(radio.trace)
      modifies this, radio, stop, DecoderParts()
      ensures radio.trace == old(radio.trace) + Touches(l) && LapLaw(l, readMaximum, statusInterval)
      ensures ok == !LapFailed(l)
      ensures l.now == now && l.depth == depth && l.due == old(nextStatus) && l.next == nextStatus
      ensures stop.remaining == old(stop.remaining) - |l.drained| && (!l.complete ==> stop.remaining == 0)
      ensures timeouts == old(timeouts) + (if TimesOut(l.served) then 1 else 0)
      ensures Orderly(radio.trace) && Apart() && failed == old(failed)
      ensures fresh(DecoderParts() - old(DecoderParts()))
      ensures ok ==> Valid() && Resting(radio.trace)
      ensures !ok ==> Stopped()
    {
      hide Valid, Orderly, PassDone, Stopped, Resting, DrainLaw, ServeLaw, Apart, Failed, Transmitted, TimesOut;
      Separated();
      NothingYet();
      ghost var drained, check, served := [], [], [];
      ghost var due := nextStatus;
      var complete;
      ok, complete, drained := DrainRxFifo();
      Separated();
      if ok {
        ok, check := CheckIfDue(now);
        if ok && depth > 0 {
          ok, served := ServeQueue(now, source);
        }
      }
      l := Lap(now, depth, due, drained, complete, check, served, nextStatus);
    }

    /** The periodic check of the receiver. */
    method CheckIfDue(now: real) returns (ok: bool, ghost c: seq<Touch>)
      requires Valid() && Resting(radio.trace)
      modifies this`nextStatus, radio`trace
      ensures Valid() && Apart() && Orderly(radio.trace) && radio.trace == old(radio.trace) + c && ok == !Failed(c)
      ensures if now >= old(nextStatus) then |c| == 1 && c[0].Status? else c == []
      ensures nextStatus == if now >= old(nextStatus) && ok then now + statusInterval else old(nextStatus)
      ensures if ok then Resting(radio.trace) else Stopped()
    {
      hide Valid, Orderly, Stopped, Resting, Fatal, MayFollow;
      Separated();
      ok, c := true, [];
      if now >= nextStatus {
        RestingMay(radio.trace);
        ok, c := CheckStatus();
        if ok {
          nextStatus := now + statusInterval;
        }
      }
      Separated();
    }

    /** One turn of the loop: a round, then a look at the stop request.  A round
        that raises is recorded and sets the stop request. */
    method Turn(source: ChannelAccess.RandomSource) returns (ok: bool, stopping: bool, ghost l: Lap)
      requires Valid() && Resting(radio.trace) && !failed
      modifies this, radio, stop, DecoderParts()
      ensures radio.trace == old(radio.trace) + Touches(l) && LapLaw(l, readMaximum, statusInterval)
      ensures ok == !LapFailed(l) && l.due == old(nextStatus) && l.next == nextStatus
      ensures timeouts == old(timeouts) + (if TimesOut(l.served) then 1 else 0)
      ensures Apart() && fresh(DecoderParts() - old(DecoderParts())) && failed == !ok
      ensures |l.drained| <= old(stop.remaining)
      ensures ok ==> Valid() && Resting(radio.trace)
      ensures ok ==> old(stop.remaining) == stop.remaining + |l.drained| + (if stopping then 0 else 1)
      ensures !ok ==> Orderly(radio.trace) && Stopped()
      ensures !ok || stopping ==> stop.remaining == 0
    {
      hide Orderly, Valid, Fatal, Resting, Stopped, LapLaw, LapFailed, Touches;
      var now: real, depth: nat := *, *;
      ok, l := Round(now, depth, source);
      if ok {
        stopping := stop.IsSet();
      } else {
        failed, stopping := true, true;
        stop.Set();
      }
    }

    /** The worker, until it is stopped or fails: what it did is exactly a number
        of rounds, of which only the last may have failed; and it goes on as long
        as none has failed and the stop request is found unset. */
    method Run(source: ChannelAccess.RandomSource) returns (ghost start: real, ghost laps: seq<Lap>)
      requires Valid() && Resting(radio.trace) && !failed
      modifies this, radio, stop, DecoderParts()
      ensures Ran(old(radio.trace), radio.trace, laps, start + statusInterval, nextStatus, readMaximum, statusInterval)
      ensures failed == LastFailed(laps)
      ensures if failed then Looks(laps) <= old(stop.remaining) else Looks(laps) == old(stop.remaining)
      ensures Orderly(radio.trace) && stop.remaining == 0
      ensures failed <==> radio.trace != [] && Fatal(radio.trace[|radio.trace| - 1])
      ensures if failed then Stopped() else Valid()
    {
      hide Orderly, Valid, Fatal, Resting, Stopped, Apart, LapLaw, LapFailed, Touches, Looks, Ran,
           LastFailed, TimesOut;
      var begin: real := *;
      start, laps := begin, [];
      RanNothing(radio.trace, start + statusInterval, readMaximum, statusInterval);
      var stopping := Opening(begin);
      while !stopping
        invariant Valid() && Resting(radio.trace) && !failed && fresh(DecoderParts() - old(DecoderParts()))
        invariant Ran(old(radio.trace), radio.trace, laps, start + statusInterval, nextStatus,
                      readMaximum, statusInterval) && !LastFailed(laps)
        invariant old(stop.remaining) == stop.remaining + Looks(laps) + (if stopping then 0 else 1)
        invariant stopping ==> stop.remaining == 0
        decreases !stopping, stop.remaining
      {
        var ok;
        ghost var l, t, next := *, radio.trace, nextStatus;
        ok, stopping, l := Turn(source);
        RanOn(old(radio.trace), t, laps, start + statusInterval, next, readMaximum, statusInterval, l);
        laps := laps + [l];
        if !ok {
          StoppedIsFatal();
          return;
        }
      }
      RestingIsFine(radio.trace);
    }

    /** The first check is due one interval on; then the first look at the stop
        request. */
    method Opening(begin: real) returns (stopping: bool)
      requires Valid() && Resting(radio.trace)
      modifies this`nextStatus, stop
      ensures Valid() && Resting(radio.trace) && nextStatus == begin + statusInterval
      ensures DecoderParts() == old(DecoderParts())
      ensures stopping == (old(stop.remaining) == 0)
      ensures stop.remaining == if stopping then 0 else old(stop.remaining) - 1
    {
      hide Valid, Resting;
      Separated();
      nextStatus := begin + statusInterval;
      stopping := stop.IsSet();
    }
  }
}
