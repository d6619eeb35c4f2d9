/** Channel access for one transmit request: the hysteretic RSSI busy detector,
    the p-persistent CSMA policy it drives, and their composition.  The main
    result says what a history of RSSI samples must look like for access to be
    granted. */
module ChannelAccess {
  import opened Primitives

  // ---- RSSI busy detector

  const BUSY_MAX := 83
  const CLEAR_MIN := 90
  const HOLD := 0.25

  datatype BusyState = Unknown | Busy | RecentRx | Clear

  datatype Detector = Detector(state: BusyState, lastNow: real, since: Option<real>, lastBusy: Option<real>)

  datatype AccessError =
    | TimeReversed | BadRaw | UnexpectedRandom | RandomRequired | BadRandom | RandomSourceFailed | MissingSlot

  function NewDetector(startedAt: real): Detector { Detector(Unknown, startedAt, None, None) }

  /** One sample: strong signal asserts busy at once; release needs the clear
      side held for `HOLD`; the band between never releases. */
  function Detect(d: Detector, now: real, raw: int): Detector {
    if raw <= BUSY_MAX then Detector(Busy, now, None, Some(now))
    else if raw < CLEAR_MIN then d.(lastNow := now, since := if d.state == Clear then d.since else None)
    else if d.state == Clear then d.(lastNow := now)
    else if d.since.None? then d.(lastNow := now, since := Some(now), state := RecentRx)
    else if now - d.since.value < HOLD then d.(lastNow := now, state := RecentRx)
    else d.(lastNow := now, state := Clear)
  }

  function Rejected(d: Detector, now: real, raw: int): Option<AccessError> {
    if now < d.lastNow then Some(TimeReversed) else if !(0 <= raw <= 255) then Some(BadRaw) else None
  }

  class RSSIChannelBusyDetector {
    var state: BusyState
    var lastNow: real
    var since: Option<real>
    var lastBusy: Option<real>

    ghost function View(): Detector
      reads this
    {
      Detector(state, lastNow, since, lastBusy)
    }

    constructor (startedAt: real)
      requires startedAt >= 0.0
      ensures View() == NewDetector(startedAt)
    {
      state, lastNow, since, lastBusy := Unknown, startedAt, None, None;
    }

    /** Returns the new state, or the error that left the detector untouched. */
    method Observe(now: real, raw: int) returns (r: Result<BusyState, AccessError>)
      modifies this
      ensures match Rejected(old(View()), now, raw)
              case Some(e) => r == Err(e) && View() == old(View())
              case None => View() == Detect(old(View()), now, raw) && r == Ok(state)
    {
      if now < lastNow {
        return Err(TimeReversed);
      }
      if !(0 <= raw <= 255) {
        return Err(BadRaw);
      }
      lastNow := now;
      if raw <= BUSY_MAX {
        state := Busy;
        lastBusy := Some(now);
        since := None;
        return Ok(state);
      }
      if raw < CLEAR_MIN {
        if state != Clear {
          since := None;
        }
        return Ok(state);
      }
      if state == Clear {
        return Ok(state);
      }
      if since.None? {
        since := Some(now);
        state := RecentRx;
        return Ok(state);
      }
      if now - since.value < HOLD {
        state := RecentRx;
        return Ok(state);
      }
      state := Clear;
      r := Ok(state);
    }
  }

  // ---- p-persistent CSMA

  datatype Parameters = Parameters(persist: int, slotTime10ms: int, maxWait: real)

  predicate ValidParameters(p: Parameters) {
    0 <= p.persist <= 255 && 1 <= p.slotTime10ms <= 255 && p.maxWait > 0.0
  }

  const DEFAULT_PARAMETERS := Parameters(63, 10, 30.0)

  type CsmaParameters = p: Parameters | ValidParameters(p) witness DEFAULT_PARAMETERS

  function SlotSeconds(p: Parameters): real { p.slotTime10ms as real / 100.0 }

  datatype CsmaState = WaitClear | WaitSlot | Ready | TimedOut

  datatype Decision = Decision(state: CsmaState, busy: Option<bool>, trials: nat, busyObservations: nat,
                               nextSlot: Option<real>, deadline: real, random: Option<int>)

  datatype Csma = Csma(parameters: CsmaParameters, deadline: real, nextSlot: Option<real>, state: CsmaState,
                       trials: nat, busyObservations: nat, lastNow: real, decision: Decision)

  function NewCsma(startedAt: real, p: CsmaParameters): Csma {
    var deadline := startedAt + p.maxWait;
    Csma(p, deadline, None, WaitClear, 0, 0, startedAt, Decision(WaitClear, None, 0, 0, None, deadline, None))
  }

  function Decide(c: Csma, busy: bool, random: Option<int>): Csma {
    c.(decision := Decision(c.state, Some(busy), c.trials, c.busyObservations, c.nextSlot, c.deadline, random))
  }

  /** One channel observation.  An error leaves everything but the clock as it was. */
  function Sense(c: Csma, now: real, busy: bool, random: Option<int>): (Csma, Result<Decision, AccessError>) {
    if now < c.lastNow then (c, Err(TimeReversed)) else
      var c := c.(lastNow := now);
      if c.state == Ready || c.state == TimedOut then
        (c, if random.Some? then Err(UnexpectedRandom) else Ok(c.decision))
      else if now >= c.deadline then
        if random.Some? then (c, Err(UnexpectedRandom)) else
          var d := Decide(c.(state := TimedOut, nextSlot := None), busy, None);
          (d, Ok(d.decision))
      else if busy then
        if random.Some? then (c, Err(UnexpectedRandom)) else
          var busier := c.(busyObservations := c.busyObservations + 1, state := WaitClear, nextSlot := None);
          var d := Decide(busier, true, None);
          (d, Ok(d.decision))
      else if c.state == WaitClear then
        if random.Some? then (c, Err(UnexpectedRandom)) else
          var d := Decide(c.(state := WaitSlot, nextSlot := Some(now + SlotSeconds(c.parameters))), false, None);
          (d, Ok(d.decision))
      else if c.nextSlot.None? then (c, Err(MissingSlot))
      else if now < c.nextSlot.value then
        if random.Some? then (c, Err(UnexpectedRandom)) else
          var d := Decide(c, false, None);
          (d, Ok(d.decision))
      else if random.None? then (c, Err(RandomRequired))
      else if !(0 <= random.value <= 255) then (c, Err(BadRandom))
      else
        var t := c.(trials := c.trials + 1);
        var d := Decide(if random.value <= c.parameters.persist then t.(state := Ready, nextSlot := None)
                        else t.(nextSlot := Some(now + SlotSeconds(c.parameters))), false, random);
        (d, Ok(d.decision))
  }

  class PersistentCSMA {
    const parameters: CsmaParameters
    const deadline: real
    var nextSlot: Option<real>
    var state: CsmaState
    var trials: nat
    var busyObservations: nat
    var lastNow: real
    var decision: Decision

    ghost function View(): Csma
      reads this
    {
      Csma(parameters, deadline, nextSlot, state, trials, busyObservations, lastNow, decision)
    }

    constructor (startedAt: real, parameters: CsmaParameters)
      requires startedAt >= 0.0
      ensures View() == NewCsma(startedAt, parameters)
    {
      this.parameters := parameters;
      var limit := startedAt + parameters.maxWait;
      deadline := limit;
      nextSlot, state, trials, busyObservations, lastNow := None, WaitClear, 0, 0, startedAt;
      decision := Decision(WaitClear, None, 0, 0, None, limit, None);
    }

    method MakeDecision(busy: bool, random: Option<int>)
      modifies this`decision
      ensures View() == Decide(old(View()), busy, random)
    {
      decision := Decision(state, Some(busy), trials, busyObservations, nextSlot, deadline, random);
    }

    method Observe(now: real, busy: bool, random: Option<int>) returns (r: Result<Decision, AccessError>)
      modifies this
      ensures (View(), r) == Sense(old(View()), now, busy, random)
    {
      if now < lastNow {
        return Err(TimeReversed);
      }
      lastNow := now;
      if state == Ready || state == TimedOut {
        if random.Some? {
          return Err(UnexpectedRandom);
        }
        return Ok(decision);
      }
      if now >= deadline {
        if random.Some? {
          return Err(UnexpectedRandom);
        }
        state := TimedOut;
        nextSlot := None;
        MakeDecision(busy, None);
        return Ok(decision);
      }
      if busy {
        if random.Some? {
          return Err(UnexpectedRandom);
        }
        busyObservations := busyObservations + 1;
        state := WaitClear;
        nextSlot := None;
        MakeDecision(true, None);
        return Ok(decision);
      }
      if state == WaitClear {
        if random.Some? {
          return Err(UnexpectedRandom);
        }
        state := WaitSlot;
        nextSlot := Some(now + SlotSeconds(parameters));
        MakeDecision(false, None);
        return Ok(decision);
      }
      if nextSlot.None? {
        return Err(MissingSlot);
      }
      if now < nextSlot.value {
        if random.Some? {
          return Err(UnexpectedRandom);
        }
        MakeDecision(false, None);
        return Ok(decision);
      }
      if random.None? {
        return Err(RandomRequired);
      }
      if !(0 <= random.value <= 255) {
        return Err(BadRandom);
      }
      trials := trials + 1;
      if random.value <= parameters.persist {
        state := Ready;
        nextSlot := None;
      } else {
        nextSlot := Some(now + SlotSeconds(parameters));
      }
      MakeDecision(false, random);
      r := Ok(decision);
    }
  }

  // ---- Composition

  /** The caller's source of persistence randomness. */
  datatype RandomSource = NoSource | Yields(byte: int) | Raises

  datatype Attempt = Attempt(detector: Detector, csma: Csma)

  datatype Observation = Observation(now: real, busy: BusyState, csma: Decision, random: Option<int>)

  function NewAttempt(startedAt: real, p: CsmaParameters): Attempt {
    Attempt(NewDetector(startedAt), NewCsma(startedAt, p))
  }

  /** A persistence trial is due: the channel is clear and the slot is over. */
  predicate TrialDue(state: BusyState, prior: Decision, now: real) {
    && state == Clear && prior.state == WaitSlot
    && prior.nextSlot.Some? && now >= prior.nextSlot.value && now < prior.deadline
  }

  function Observe(a: Attempt, now: real, raw: int, source: RandomSource): (Attempt, Result<Observation, AccessError>) {
    match Rejected(a.detector, now, raw)
    case Some(e) => (a, Err(e))
    case None =>
      var a := a.(detector := Detect(a.detector, now, raw));
      var due := TrialDue(a.detector.state, a.csma.decision, now);
      if due && source == NoSource then (a, Err(RandomRequired))
      else if due && source == Raises then (a, Err(RandomSourceFailed))
      else
        var random := if due then Some(source.byte) else None;
        var (c, r) := Sense(a.csma, now, a.detector.state != Clear, random);
        (a.(csma := c), match r
                        case Err(e) => Err(e)
                        case Ok(decision) => Ok(Observation(now, a.detector.state, decision, random)))
  }

  class ShadowChannelAccessAttempt {
    const detector: RSSIChannelBusyDetector
    const csma: PersistentCSMA

    ghost function View(): Attempt
      reads this, detector, csma
    {
      Attempt(detector.View(), csma.View())
    }

    constructor (startedAt: real, parameters: CsmaParameters)
      requires startedAt >= 0.0
      ensures View() == NewAttempt(startedAt, parameters)
      ensures fresh(detector) && fresh(csma)
    {
      detector := new RSSIChannelBusyDetector(startedAt);
      csma := new PersistentCSMA(startedAt, parameters);
    }

    method ObserveRssi(now: real, raw: int, source: RandomSource) returns (r: Result<Observation, AccessError>)
      modifies detector, csma
      ensures (View(), r) == Observe(old(View()), now, raw, source)
    {
      hide Sense, Detect;
      var busy := detector.Observe(now, raw);
      if busy.Err? {
        return Err(busy.error);
      }
      var random: Option<int> := None;
      var prior := csma.decision;
      if TrialDue(busy.value, prior, now) {
        match source {
          case NoSource => return Err(RandomRequired);
          case Raises => return Err(RandomSourceFailed);
          case Yields(byte) => random := Some(byte);
        }
      }
      var decision := csma.Observe(now, busy.value != Clear, random);
      if decision.Err? {
        return Err(decision.error);
      }
      r := Ok(Observation(now, busy.value, decision.value, random));
    }
  }

  // ---- What a grant of access proves about the samples

  /** One accepted RSSI sample, and the request on whose behalf it was taken. */
  datatype Sample = Sample(at: real, raw: int, id: int)

  ghost predicate Chronological(h: seq<Sample>) { forall k, l :: 0 <= k <= l < |h| ==> h[k].at <= h[l].at }

  /** Release has been under way since sample `i`. */
  ghost predicate Releasing(h: seq<Sample>, i: int) {
    0 <= i < |h| && forall k :: i <= k < |h| ==> h[k].raw >= CLEAR_MIN
  }

  /** Samples `i` to `j` span the hold on the clear side, and nothing since has
      been strong enough to assert busy. */
  ghost predicate Cleared(h: seq<Sample>, i: int, j: int) {
    && 0 <= i <= j < |h| && h[j].at - h[i].at >= HOLD
    && (forall k :: i <= k <= j ==> h[k].raw >= CLEAR_MIN)
    && (forall k :: i <= k < |h| ==> h[k].raw > BUSY_MAX)
  }

  /** The channel was seen clear and then stayed so for `slot` up to the last sample. */
  ghost predicate Granted(h: seq<Sample>, i: int, j: int, slot: real) {
    Cleared(h, i, j) && h[|h| - 1].at - h[j].at >= slot
  }

  /** What the samples so far say about the state of an attempt. */
  ghost predicate Explained(a: Attempt, h: seq<Sample>, i: int, j: int) {
    var d, c := a.detector, a.csma;
    && Chronological(h) && (forall k :: 0 <= k < |h| ==> h[k].at <= d.lastNow)
    && c.lastNow <= d.lastNow
    && c.decision.state == c.state && c.decision.nextSlot == c.nextSlot && c.decision.deadline == c.deadline
    && (d.state == Clear ==> Cleared(h, i, j))
    && (d.state != Clear && d.since.Some? ==> Releasing(h, i) && h[i].at == d.since.value)
    && (c.state == WaitSlot ==> d.state == Clear && c.nextSlot.Some?
                                && c.nextSlot.value >= h[j].at + SlotSeconds(c.parameters))
    && (c.state == WaitClear ==> d.state != Clear)
  }

  lemma NewAttemptExplained(startedAt: real, p: CsmaParameters)
    ensures Explained(NewAttempt(startedAt, p), [], 0, 0)
  {
  }

  /** The detector half of one accepted sample. */
  lemma DetectExplained(d: Detector, h: seq<Sample>, i: int, j: int, s: Sample) returns (i': int, j': int)
    requires Chronological(h) && (forall k :: 0 <= k < |h| ==> h[k].at <= d.lastNow) && s.at >= d.lastNow
    requires d.state == Clear ==> Cleared(h, i, j)
    requires d.state != Clear && d.since.Some? ==> Releasing(h, i) && h[i].at == d.since.value
    ensures var h', d' := h + [s], Detect(d, s.at, s.raw);
            && Chronological(h') && (forall k :: 0 <= k < |h'| ==> h'[k].at <= d'.lastNow) && d'.lastNow == s.at
            && (d'.state == Clear ==> Cleared(h', i', j') && (d.state == Clear ==> i' == i && j' == j))
            && (d'.state == Clear && d.state != Clear ==> j' == |h|)
            && (d'.state != Clear && d'.since.Some? ==> Releasing(h', i') && h'[i'].at == d'.since.value)
  {
    i', j' := i, j;
    if s.raw >= CLEAR_MIN && d.state != Clear {
      j' := |h|;
      if d.since.None? { i' := |h|; }
    }
  }

  /** Every accepted sample keeps the explanation, and if it is the one that
      grants access then the channel has been quiet for the hold and then for a
      whole slot, and the persistence trial drawn was within the parameter. */
  lemma ObserveExplained(a: Attempt, h: seq<Sample>, i: int, j: int, now: real, raw: int, source: RandomSource, id: int)
      returns (i': int, j': int)
    requires Explained(a, h, i, j) && Rejected(a.detector, now, raw).None?
    ensures var (a', r) := Observe(a, now, raw, source);
            var h' := h + [Sample(now, raw, id)];
            && Explained(a', h', i', j') && a'.detector.lastNow == now
            && (a'.csma.state == Ready && a.csma.state != Ready ==>
                  && r.Ok? && Granted(h', i', j', SlotSeconds(a.csma.parameters))
                  && r.value.random.Some? && source == Yields(r.value.random.value)
                  && 0 <= r.value.random.value <= a.csma.parameters.persist)
            && (r.Ok? ==> r.value.csma == a'.csma.decision && r.value.now == now)
  {
    hide Cleared, Releasing, Chronological;
    i', j' := DetectExplained(a.detector, h, i, j, Sample(now, raw, id));
    ClearedBounds(h + [Sample(now, raw, id)], i', j');
    ClearedBounds(h, i, j);
  }

  lemma ClearedBounds(h: seq<Sample>, i: int, j: int)
    ensures Cleared(h, i, j) ==> 0 <= i <= j < |h|
  {
  }

  /** The composition never trips the policy's own guards: the only errors are
      a bad sample, time running backwards, or the caller's randomness. */
  lemma OnlyCallerErrors(a: Attempt, h: seq<Sample>, i: int, j: int, now: real, raw: int, source: RandomSource)
    requires Explained(a, h, i, j)
    ensures var r := Observe(a, now, raw, source).1;
            r.Err? ==>
              && r.error in {TimeReversed, BadRaw, RandomRequired, RandomSourceFailed, BadRandom}
              && (r.error == RandomRequired ==> source == NoSource)
              && (r.error == TimeReversed ==> now < a.detector.lastNow)
  {
    hide Cleared, Releasing, Chronological;
  }
}
